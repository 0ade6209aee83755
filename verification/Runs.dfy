/** Runs of any machine that takes one input at a time and may stop. */
module Runs {
  import opened Outcomes

  /** The states passed through from `first`, as far as the inputs go. */
  function Trace<S, T>(first: S, inputs: seq<T>, next: (S, T) -> Option<S>): (states: seq<S>)
    ensures 1 <= |states| <= |inputs| + 1
    ensures states[0] == first
  {
    if inputs == [] then [first]
    else
      match next(first, inputs[0])
      case None => [first]
      case Some(second) => [first] + Trace(second, inputs[1..], next)
  }

  /** The machine took every input. */
  predicate Exhausts<S, T>(first: S, inputs: seq<T>, next: (S, T) -> Option<S>) {
    |Trace(first, inputs, next)| == |inputs| + 1
  }

  function LastState<S, T>(first: S, inputs: seq<T>, next: (S, T) -> Option<S>): S {
    var states := Trace(first, inputs, next);
    states[|states| - 1]
  }

  lemma {:induction false} TraceExtends<S, T>(first: S, inputs: seq<T>, next: (S, T) -> Option<S>, input: T, state: S)
    requires Exhausts(first, inputs, next) && next(LastState(first, inputs, next), input) == Some(state)
    ensures Trace(first, inputs + [input], next) == Trace(first, inputs, next) + [state]
    decreases |inputs|
  {
    if inputs == [] {
      assert (inputs + [input])[1..] == [];
    } else {
      assert (inputs + [input])[1..] == inputs[1..] + [input];
      TraceExtends(next(first, inputs[0]).value, inputs[1..], next, input, state);
    }
  }

  lemma {:induction false} TraceStops<S, T>(first: S, inputs: seq<T>, next: (S, T) -> Option<S>, more: seq<T>)
    requires Exhausts(first, inputs, next)
    requires more == [] || next(LastState(first, inputs, next), more[0]).None?
    ensures Trace(first, inputs + more, next) == Trace(first, inputs, next)
    decreases |inputs|
  {
    if inputs == [] {
      assert inputs + more == more;
    } else {
      assert (inputs + more)[1..] == inputs[1..] + more;
      TraceStops(next(first, inputs[0]).value, inputs[1..], next, more);
    }
  }

  /** Consecutive states of a trace are joined by the machine's step. */
  lemma {:induction false} TraceSteps<S, T>(first: S, inputs: seq<T>, next: (S, T) -> Option<S>, i: nat)
    requires i + 1 < |Trace(first, inputs, next)|
    ensures next(Trace(first, inputs, next)[i], inputs[i]) == Some(Trace(first, inputs, next)[i + 1])
    decreases i
  {
    if i > 0 {
      TraceSteps(next(first, inputs[0]).value, inputs[1..], next, i - 1);
    }
  }
}
