/** What single calls come to under every interleaving: a failed transaction, the disposers that
    a call has taken over, and a disposal that returns. */
module ScopeCalls {
  import opened Outcomes
  import opened Runs
  import opened ScopeMachine
  import opened ScopeSafety

  // ------------------------------------------------------------ transactions

  /** The list has first some of the registrations of before, then others only. */
  ghost predicate OldFirst(base: seq<Id>, now: seq<Id>, k: nat) {
    && k <= |base| && k <= |now|
    && (forall i | 0 <= i < k :: now[i] in base)
    && (forall i | k <= i < |now| :: now[i] !in base)
  }

  /** The transaction is under way, and the list of its scope has grown out of the one at its
      beginning. */
  ghost predicate Transacting(s: State, call: Id, scope: Id, base: seq<Id>) {
    && call in s.calls && s.calls[call] == Transaction(scope, |base|)
    && scope in s.scopes && (forall id | id in base :: id in s.registry)
    && exists k :: OldFirst(base, s.scopes[scope].registrations, k)
  }

  lemma OldFirstSelf(base: seq<Id>)
    ensures OldFirst(base, base, |base|)
  {
  }

  lemma OldFirstAppend(base: seq<Id>, now: seq<Id>, k: nat, id: Id)
    requires OldFirst(base, now, k) && id !in base
    ensures OldFirst(base, now + [id], k)
  {
  }

  lemma OldFirstCut(base: seq<Id>, now: seq<Id>, k: nat, cut: nat)
    requires OldFirst(base, now, k) && cut <= |now|
    ensures OldFirst(base, now[..cut], if k <= cut then k else cut)
  {
  }

  lemma {:induction false} OldFirstWithout(base: seq<Id>, now: seq<Id>, k: nat, id: Id) returns (less: nat)
    requires OldFirst(base, now, k)
    ensures less <= k && OldFirst(base, Without(now, id), less)
    decreases |now|
  {
    if now == [] {
      less := 0;
    } else if now[0] == id {
      less := if k == 0 then 0 else k - 1;
      assert forall i | 0 <= i < |now| - 1 :: now[1..][i] == now[i + 1];
    } else {
      var rest := OldFirstWithout(base, now[1..], if k == 0 then 0 else k - 1, id);
      less := if k == 0 then 0 else rest + 1;
      assert Without(now, id) == [now[0]] + Without(now[1..], id);
    }
  }

  /** The call stays a transaction, and nothing that was registered is forgotten. */
  ghost predicate GoesOn(s: State, t: State, call: Id, scope: Id) {
    && (forall id | id in s.registry :: id in t.registry)
    && call in s.calls && call in t.calls && t.calls[call] == s.calls[call]
    && scope in t.scopes
  }

  lemma OthersGoOn(s: State, t: State, step: Step, call: Id, scope: Id)
    requires Next(s, step) == Some(t) && !step.Register? && !step.DisposeOne? && !step.Fail? && !step.Dispose?
    requires call in s.calls && s.calls[call].Transaction? && scope in s.scopes && step != Commit(call)
    ensures GoesOn(s, t, call, scope) && t.scopes[scope].registrations == s.scopes[scope].registrations
  {
    match step
    case CreateRoot(_) =>
    case CreateChild(_, _) =>
    case Enter(_, _) =>
    case Exit(_) =>
    case Begin(_, _) =>
    case Commit(_) =>
    case Quiesce(_) =>
    case NextChild(_) =>
    case PassQuiet(_) =>
    case RunHeld(_) =>
    case Finish(_) =>
    case Detach(_) =>
    case Return(_) =>
  }

  lemma RegisterGoesOn(s: State, t: State, id: Id, at: Id, call: Id, scope: Id, base: seq<Id>)
    requires DoRegister(s, id, at) == Some(t) && Transacting(s, call, scope, base)
    ensures Transacting(t, call, scope, base)
  {
    var k :| OldFirst(base, s.scopes[scope].registrations, k);
    hide OldFirst;
    if at == scope {
      OldFirstAppend(base, s.scopes[scope].registrations, k, id);
    }
    assert OldFirst(base, t.scopes[scope].registrations, k);
  }

  lemma DisposeOneGoesOn(s: State, t: State, other: Id, id: Id, call: Id, scope: Id, base: seq<Id>)
    requires DoDisposeOne(s, other, id) == Some(t) && Transacting(s, call, scope, base)
    ensures Transacting(t, call, scope, base)
  {
    var k :| OldFirst(base, s.scopes[scope].registrations, k);
    hide OldFirst, Without;
    if s.registry[id].active && s.registry[id].scope == scope {
      k := OldFirstWithout(base, s.scopes[scope].registrations, k, id);
    }
    assert OldFirst(base, t.scopes[scope].registrations, k);
  }

  lemma FailGoesOn(s: State, t: State, other: Id, call: Id, scope: Id, base: seq<Id>)
    requires DoFail(s, other) == Some(t) && Transacting(s, call, scope, base) && other != call
    ensures Transacting(t, call, scope, base)
  {
    var k :| OldFirst(base, s.scopes[scope].registrations, k);
    hide OldFirst;
    if s.calls[other].scope == scope {
      var cut := Cut(s, other);
      OldFirstCut(base, s.scopes[scope].registrations, k, cut);
      k := if k <= cut then k else cut;
    }
    assert OldFirst(base, t.scopes[scope].registrations, k);
  }

  lemma DisposeGoesOn(s: State, t: State, other: Id, at: Id, thread: Id, call: Id, scope: Id, base: seq<Id>)
    requires DoDispose(s, other, at, thread) == Some(t) && Transacting(s, call, scope, base)
    ensures Transacting(t, call, scope, base)
  {
    var k :| OldFirst(base, s.scopes[scope].registrations, k);
    if t.scopes[scope].registrations == [] {
      assert OldFirst(base, t.scopes[scope].registrations, 0);
    } else {
      assert OldFirst(base, t.scopes[scope].registrations, k);
    }
  }

  lemma TransactingKept(s: State, t: State, step: Step, call: Id, scope: Id, base: seq<Id>)
    requires Transacting(s, call, scope, base) && Next(s, step) == Some(t) && step != Commit(call) && step != Fail(call)
    ensures Transacting(t, call, scope, base)
  {
    hide OldFirst, DoRegister, DoDisposeOne, DoFail, DoDispose;
    match step
    case Register(id, at) => RegisterGoesOn(s, t, id, at, call, scope, base);
    case DisposeOne(other, id) => DisposeOneGoesOn(s, t, other, id, call, scope, base);
    case Fail(other) => FailGoesOn(s, t, other, call, scope, base);
    case Dispose(other, at, thread) => DisposeGoesOn(s, t, other, at, thread, call, scope, base);
    case _ =>
      hide Next;
      OthersGoOn(s, t, step, call, scope);
  }

  /** The transaction that begins at step `i` neither commits nor fails before step `n`. */
  ghost predicate Between(steps: seq<Step>, i: nat, n: nat, call: Id) {
    n <= |steps| && forall j | i < j < n :: steps[j] != Commit(call) && steps[j] != Fail(call)
  }

  lemma BeginsTransacting(s: State, t: State, call: Id, scope: Id)
    requires Safe(s) && DoBegin(s, call, scope) == Some(t)
    ensures scope in s.scopes && Transacting(t, call, scope, s.scopes[scope].registrations)
  {
    hide OldFirst, Ticketed, Counted, Owned;
    OldFirstSelf(s.scopes[scope].registrations);
  }

  lemma {:induction false} StaysTransacting(steps: seq<Step>, i: nat, n: nat, call: Id, scope: Id)
    requires i < n < |States(steps)| && steps[i] == Begin(call, scope) && Between(steps, i, n, call)
    ensures scope in States(steps)[i].scopes
    ensures Transacting(States(steps)[n], call, scope, States(steps)[i].scopes[scope].registrations)
    decreases n
  {
    TraceSteps(START, steps, Next, n - 1);
    var s := States(steps)[i];
    if n == i + 1 {
      AlwaysSafe(steps, i);
      hide States, Between;
      BeginsTransacting(s, States(steps)[n], call, scope);
    } else {
      StaysTransacting(steps, i, n - 1, call, scope);
      hide Transacting, Next;
      TransactingKept(States(steps)[n - 1], States(steps)[n], steps[n - 1], call, scope, s.scopes[scope].registrations);
    }
  }

  /** Under every interleaving, a transaction that fails undoes only registrations that were made
      since it began: those of before that are still there stay. No more stay than there were at
      the beginning, and what goes is taken over by the call, to be undone. */
  lemma RollbackSpares(steps: seq<Step>, i: nat, n: nat, call: Id, scope: Id)
    requires i < n < |States(steps)| && n + 1 < |States(steps)|
    requires steps[i] == Begin(call, scope) && steps[n] == Fail(call) && Between(steps, i, n, call)
    ensures var first, s, t := States(steps)[i], States(steps)[n], States(steps)[n + 1];
            && scope in first.scopes && scope in s.scopes && scope in t.scopes && call in t.calls
            && var before, now, after := first.scopes[scope].registrations, s.scopes[scope].registrations,
                                         t.scopes[scope].registrations;
               && now == after + t.calls[call].Held() && |after| <= |before|
               && (|now| <= |before| ==> after == now) && (|now| > |before| ==> |after| == |before|)
               && forall id | id in before && id in now :: id in after
  {
    StaysTransacting(steps, i, n, call, scope);
    TraceSteps(START, steps, Next, n);
    var before, s := States(steps)[i].scopes[scope].registrations, States(steps)[n];
    var k :| OldFirst(before, s.scopes[scope].registrations, k);
    FailSpares(s, States(steps)[n + 1], call, scope, before, k);
  }

  lemma FailSpares(s: State, t: State, call: Id, scope: Id, before: seq<Id>, k: nat)
    requires Transacting(s, call, scope, before) && DoFail(s, call) == Some(t)
    requires OldFirst(before, s.scopes[scope].registrations, k)
    ensures scope in t.scopes && call in t.calls
    ensures var now, after := s.scopes[scope].registrations, t.scopes[scope].registrations;
            && now == after + t.calls[call].Held() && |after| <= |before|
            && (|now| <= |before| ==> after == now) && (|now| > |before| ==> |after| == |before|)
            && forall id | id in before && id in now :: id in after
  {
    hide Deactivated;
    var now, cut := s.scopes[scope].registrations, Cut(s, call);
    assert now == now[..cut] + now[cut..];
    forall id | id in before && id in now ensures id in now[..cut] {
      var j :| 0 <= j < |now| && now[j] == id;
      assert j < k <= cut;
      assert now[..cut][j] == id;
    }
  }

  // ----------------------------------------------------- disposers taken over

  /** The call runs disposers that it has taken over. */
  predicate Holds(s: State, call: Id) {
    call in s.calls && (s.calls[call].Runner? || s.calls[call].Owner?)
  }

  /** No call of a disposer is forgotten. */
  ghost predicate Recalls(s: State, t: State) {
    forall id | id in s.registry :: id in t.registry && t.registry[id].runs >= s.registry[id].runs
  }

  /** Either nothing changes for the call, or the last disposer that it holds is called. */
  ghost predicate HoldsOn(s: State, t: State, call: Id)
    requires Holds(s, call) && Holds(t, call)
  {
    var before, after := s.calls[call].Held(), t.calls[call].Held();
    || after == before
    || (&& before != [] && after == before[..|before| - 1]
        && var id := before[|before| - 1]; id in t.registry && t.registry[id].runs >= 1)
  }

  lemma DisposeOneRecalls(s: State, t: State, other: Id, id: Id, call: Id)
    requires DoDisposeOne(s, other, id) == Some(t)
    ensures Recalls(s, t) && (Holds(s, call) && Holds(t, call) ==> HoldsOn(s, t, call))
  {
    hide Without;
  }

  lemma FailRecalls(s: State, t: State, other: Id, call: Id)
    requires DoFail(s, other) == Some(t)
    ensures Recalls(s, t) && (Holds(s, call) && Holds(t, call) ==> HoldsOn(s, t, call))
  {
  }

  lemma DisposeRecalls(s: State, t: State, other: Id, at: Id, thread: Id, call: Id)
    requires DoDispose(s, other, at, thread) == Some(t)
    ensures Recalls(s, t) && (Holds(s, call) && Holds(t, call) ==> HoldsOn(s, t, call))
  {
  }

  lemma RunRecalls(s: State, t: State, other: Id, call: Id)
    requires DoRunHeld(s, other) == Some(t)
    ensures Recalls(s, t) && (Holds(s, call) && Holds(t, call) ==> HoldsOn(s, t, call))
  {
  }

  lemma StepRecalls(s: State, t: State, step: Step, call: Id)
    requires Next(s, step) == Some(t)
    ensures Recalls(s, t) && (Holds(s, call) && Holds(t, call) ==> HoldsOn(s, t, call))
  {
    hide DoDisposeOne, DoFail, DoDispose, DoRunHeld;
    match step
    case CreateRoot(_) =>
    case CreateChild(_, _) =>
    case Register(_, _) =>
    case DisposeOne(other, id) => DisposeOneRecalls(s, t, other, id, call);
    case Enter(_, _) =>
    case Exit(_) =>
    case Begin(_, _) =>
    case Commit(_) =>
    case Fail(other) => FailRecalls(s, t, other, call);
    case Quiesce(_) =>
    case Dispose(other, at, thread) => DisposeRecalls(s, t, other, at, thread, call);
    case NextChild(_) =>
    case PassQuiet(_) =>
    case RunHeld(other) => RunRecalls(s, t, other, call);
    case Finish(_) =>
    case Detach(_) =>
    case Return(_) =>
  }

  /** What a call still holds is the first part of what it held, and everything after was called. */
  ghost predicate FromTheEnd(s: State, t: State, call: Id)
    requires Holds(s, call) && Holds(t, call)
  {
    var before, after := s.calls[call].Held(), t.calls[call].Held();
    && after <= before
    && forall k | |after| <= k < |before| :: before[k] in t.registry && t.registry[before[k]].runs >= 1
  }

  lemma FromTheEndNext(s: State, t: State, u: State, call: Id)
    requires Holds(s, call) && Holds(t, call) && Holds(u, call)
    requires FromTheEnd(s, t, call) && HoldsOn(t, u, call) && Recalls(t, u)
    ensures FromTheEnd(s, u, call)
  {
  }

  lemma {:induction false} EndsBackwards(steps: seq<Step>, i: nat, n: nat, call: Id)
    requires i <= n < |States(steps)| && forall j | i <= j <= n :: Holds(States(steps)[j], call)
    ensures FromTheEnd(States(steps)[i], States(steps)[n], call)
    decreases n
  {
    if i < n {
      EndsBackwards(steps, i, n - 1, call);
      TraceSteps(START, steps, Next, n - 1);
      hide Next, Recalls, HoldsOn, FromTheEnd, Holds;
      StepRecalls(States(steps)[n - 1], States(steps)[n], steps[n - 1], call);
      FromTheEndNext(States(steps)[i], States(steps)[n - 1], States(steps)[n], call);
    }
  }

  /** Under every interleaving a call runs the disposers that it has taken over from the last to
      the first: at any time those it still holds are the first ones and never ran, and each of
      the others ran exactly once. */
  lemma LatestFirst(steps: seq<Step>, i: nat, n: nat, call: Id)
    requires i <= n < |States(steps)| && forall j | i <= j <= n :: Holds(States(steps)[j], call)
    ensures Holds(States(steps)[i], call) && Holds(States(steps)[n], call)
    ensures var before, after, registry := States(steps)[i].calls[call].Held(), States(steps)[n].calls[call].Held(),
                                           States(steps)[n].registry;
            && after <= before
            && forall k | 0 <= k < |before| ::
                 before[k] in registry && registry[before[k]].runs == (if k < |after| then 0 else 1)
  {
    EndsBackwards(steps, i, n, call);
    AlwaysSafe(steps, n);
    UsedOnce(States(steps)[n], call);
  }

  lemma UsedOnce(s: State, call: Id)
    requires Safe(s) && Holds(s, call)
    ensures forall id | id in s.registry :: s.registry[id].runs <= 1
    ensures forall k | 0 <= k < |s.calls[call].Held()| ::
              s.calls[call].Held()[k] in s.registry && s.registry[s.calls[call].Held()[k]].runs == 0
  {
    hide Listed, Counted, Owned, NotLost;
    forall k | 0 <= k < |s.calls[call].Held()|
      ensures s.calls[call].Held()[k] in s.registry && s.registry[s.calls[call].Held()[k]].runs == 0
    {
      assert s.calls[call].Held()[k] in s.calls[call].Held();
    }
  }

  // ------------------------------------------------------- children in turn

  lemma PassedStays(s: State, t: State, step: Step, scope: Id, thread: Id)
    requires Passed(s, scope, thread) && Next(s, step) == Some(t)
    ensures Passed(t, scope, thread)
  {
  }

  predicate Disposing(s: State, call: Id) {
    call in s.calls && s.calls[call].Owner?
  }

  /** The children that a call has dealt with since are the last ones of those it had before it,
      and disposing of each of them has returned. */
  ghost predicate DealtFromTheEnd(s: State, t: State, call: Id)
    requires Disposing(s, call) && Disposing(t, call)
  {
    var before, after := s.calls[call].left, t.calls[call].left;
    && after <= before && t.calls[call].thread == s.calls[call].thread
    && forall k | |after| <= k < |before| :: Passed(t, before[k], t.calls[call].thread)
  }

  /** Either the call has the same children before it, or it is done with the last of them. */
  lemma StepDeals(s: State, t: State, step: Step, call: Id)
    requires Next(s, step) == Some(t) && Disposing(s, call) && Disposing(t, call)
    ensures t.calls[call].thread == s.calls[call].thread
    ensures var before, after := s.calls[call].left, t.calls[call].left;
            || after == before
            || (before != [] && after == before[..|before| - 1] && Passed(s, before[|before| - 1], s.calls[call].thread))
  {
  }

  lemma DealsOn(s: State, t: State, u: State, step: Step, call: Id)
    requires Disposing(s, call) && Disposing(t, call) && Disposing(u, call)
    requires DealtFromTheEnd(s, t, call) && Next(t, step) == Some(u)
    ensures DealtFromTheEnd(s, u, call)
  {
    StepDeals(t, u, step, call);
    var before, after := s.calls[call].left, u.calls[call].left;
    hide Next, Passed;
    forall k | |after| <= k < |before| ensures Passed(u, before[k], u.calls[call].thread) {
      PassedStays(t, u, step, before[k], u.calls[call].thread);
    }
  }

  /** Under every interleaving a call disposes of the children that it found from the last to the
      first, one after the other: it turns to a child only when disposing of all later ones has
      returned. */
  lemma {:induction false} LatestChildFirst(steps: seq<Step>, i: nat, n: nat, call: Id)
    requires i <= n < |States(steps)| && forall j | i <= j <= n :: Disposing(States(steps)[j], call)
    ensures Disposing(States(steps)[i], call) && Disposing(States(steps)[n], call)
    ensures DealtFromTheEnd(States(steps)[i], States(steps)[n], call)
    decreases n
  {
    assert Disposing(States(steps)[i], call) && Disposing(States(steps)[n], call);
    if i < n {
      LatestChildFirst(steps, i, n - 1, call);
      TraceSteps(START, steps, Next, n - 1);
      hide Next, DealtFromTheEnd, Disposing;
      DealsOn(States(steps)[i], States(steps)[n - 1], States(steps)[n], steps[n - 1], call);
    }
  }

  // ---------------------------------------------------------------- admission

  /** The step admits something to the scope. */
  predicate Admits(step: Step, scope: Id) {
    match step
    case Register(_, at) => at == scope
    case CreateChild(_, parent) => parent == scope
    case Enter(_, at) => at == scope
    case Begin(_, at) => at == scope
    case _ => false
  }

  lemma OnlyActiveAdmits(s: State, step: Step, scope: Id)
    requires Next(s, step).Some? && Admits(step, scope)
    ensures scope in s.scopes && s.scopes[scope].status.Active?
  {
  }

  /** Under every interleaving: once a scope was quiesced or somebody has begun to dispose of it, no
      registration, child, operation or transaction is admitted to it any more. */
  lemma AdmitsNoMore(steps: seq<Step>, i: nat, k: nat, scope: Id)
    requires i < k && k + 1 < |States(steps)|
    requires steps[i] == Quiesce(scope) || (steps[i].Dispose? && steps[i].scope == scope)
    ensures Shut(States(steps)[k], scope) && !Admits(steps[k], scope)
  {
    TraceSteps(START, steps, Next, i);
    TraceSteps(START, steps, Next, k);
    AlwaysSafe(steps, i);
    ShutsNow(States(steps)[i], States(steps)[i + 1], steps[i], scope);
    ClosedForGood(steps, i + 1, k, scope);
    if Admits(steps[k], scope) {
      OnlyActiveAdmits(States(steps)[k], steps[k], scope);
    }
  }

  lemma ShutsNow(s: State, t: State, step: Step, scope: Id)
    requires Safe(s) && Next(s, step) == Some(t)
    requires step == Quiesce(scope) || (step.Dispose? && step.scope == scope)
    ensures Shut(t, scope)
  {
    hide Listed, Ticketed, Counted;
  }

  // ------------------------------------------------------ disposal that returns

  /** The disposal of the scope is done, or the call is still at it or waits for it. */
  ghost predicate AtIt(s: State, call: Id, scope: Id) {
    || (scope in s.scopes && s.scopes[scope].status.Disposed?)
    || (call in s.calls && (s.calls[call] == Waiter(scope) || (s.calls[call].Owner? && s.calls[call].scope == scope)))
  }

  lemma DisposeIsAtIt(s: State, t: State, call: Id, scope: Id, thread: Id)
    requires DoDispose(s, call, scope, thread) == Some(t) && s.scopes[scope].disposing != Some(thread)
    ensures AtIt(t, call, scope)
  {
  }

  lemma StepAtIt(s: State, t: State, step: Step, call: Id, scope: Id)
    requires AtIt(s, call, scope) && Owned(s) && Next(s, step) == Some(t)
    ensures AtIt(t, call, scope)
  {
  }

  /** Under every interleaving, a call that disposes of a scope returns only when the scope is
      disposed, whoever does it; only on a thread that is itself disposing of the scope it returns
      at once. */
  lemma {:induction false} DisposeReturns(steps: seq<Step>, i: nat, n: nat, call: Id, scope: Id, thread: Id)
    requires i < n < |States(steps)| && steps[i] == Dispose(call, scope, thread)
    ensures scope in States(steps)[i].scopes
    ensures States(steps)[i].scopes[scope].disposing != Some(thread) ==> AtIt(States(steps)[n], call, scope)
    ensures States(steps)[i].scopes[scope].disposing == Some(thread) ==> States(steps)[i + 1] == States(steps)[i]
    decreases n
  {
    TraceSteps(START, steps, Next, n - 1);
    if n == i + 1 {
      if States(steps)[i].scopes[scope].disposing != Some(thread) {
        DisposeIsAtIt(States(steps)[i], States(steps)[n], call, scope, thread);
      }
    } else {
      DisposeReturns(steps, i, n - 1, call, scope, thread);
      if States(steps)[i].scopes[scope].disposing != Some(thread) {
        AlwaysSafe(steps, n - 1);
        hide AtIt, Next;
        StepAtIt(States(steps)[n - 1], States(steps)[n], steps[n - 1], call, scope);
      }
    }
  }
}
