/** The loop that commits each step's events, executes its effect and feeds the result back
    to the kernel, and what holds over all of its runs. */
module AgentLoop {
  import opened Outcomes
  import opened Text
  import opened IndexSort
  import opened OperationIds
  import opened AgentEffects
  import opened OperationLedger
  import opened AgentKernel
  import opened AgentServices
  import opened AgentRun

  /** What the world contributes to one turn of the loop: the effect's result, whether the
      turn was cancelled before or after it, and the verdict of the progress guard. */
  datatype Tick = Tick(cancelledBefore: bool, result: EffectResult, cancelledAfter: bool, guardStops: bool)

  // --------------------------------------------------------- results of tools

  function Sources(invocations: seq<Invocation>, immediates: seq<Immediate>): seq<(nat, ToolAction)> {
    seq(|immediates|, i requires 0 <= i < |immediates| => (immediates[i].sourceIndex, immediates[i].original))
    + seq(|invocations|, i requires 0 <= i < |invocations| => (invocations[i].sourceIndex, invocations[i].original))
  }

  function Zip(actions: seq<ToolAction>, observations: seq<Observation>): seq<(ToolAction, Observation)> {
    seq(if |actions| <= |observations| then |actions| else |observations|,
        i requires 0 <= i < |actions| && i < |observations| => (actions[i], observations[i]))
  }

  function ImmediatePairs(immediates: seq<Immediate>): seq<(ToolAction, Observation)> {
    Values(ByIndex(seq(|immediates|, i requires 0 <= i < |immediates| =>
      (immediates[i].sourceIndex, (immediates[i].original, immediates[i].observation)))))
  }

  /** Each finished action with its observation, in source order. */
  function ToolResultPairs(effect: Effect, result: EffectResult): seq<(ToolAction, Observation)> {
    if result.ToolsPrepared? then
      if result.invocations != [] then [] else ImmediatePairs(result.immediates)
    else if result.ToolsCompleted? && effect.ExecuteTools? then
      Zip(Values(ByIndex(Sources(effect.invocations, effect.immediates))), result.observations)
    else []
  }

  predicate Interrupted(result: EffectResult, cancelled: bool)
    requires result.ToolsCompleted?
  {
    cancelled || exists o | o in result.observations :: o.ErrorKind() == "interrupted"
  }

  predicate SafetyLimitReached(cursor: Cursor, limit: Option<int>) {
    limit.Some? && !cursor.continuation.ToComplete? && limit.value > 0 && cursor.step >= limit.value
  }

  /** The result that the loop hands to the kernel. */
  function LoopResult(step: KernelStep, tick: Tick, limit: Option<int>): EffectResult
    requires step.effect.Some?
  {
    var effect := step.effect.value;
    if tick.cancelledBefore then
      EffectFailed(effect.id, Cancelled, "stop_event set", [], [], 0)
    else if ToolResultPairs(effect, tick.result) == [] then
      tick.result
    else if tick.result.ToolsCompleted? && Interrupted(tick.result, tick.cancelledAfter) then
      Stopped(tick.result, Cancelled, "tool execution interrupted", 0)
    else if tick.guardStops then
      Stopped(tick.result, GuardStopped, "no progress", 0)
    else if SafetyLimitReached(step.cursor, limit) then
      Stopped(tick.result, SafetyLimit, "reached loop safety limit without completion signal", limit.value)
    else
      tick.result
  }

  /** A tool result turned into a failure keeps its events and commit tokens. */
  function Stopped(result: EffectResult, kind: FailureKind, message: string, turnsUsed: int): EffectResult {
    EffectFailed(result.effect, kind, message, result.events, result.CommitTokens(), turnsUsed)
  }

  /** A failure made by the loop and not by a service. */
  predicate IsStop(effect: Effect, result: EffectResult) {
    result.EffectFailed? && !result.kind.ContextLimit? && result.effect == effect.id
  }

  /** The loop hands on the delivered result, or stops with the events it brought. */
  lemma LoopResultCases(step: KernelStep, tick: Tick, limit: Option<int>)
    requires step.effect.Some?
    requires !tick.cancelledBefore ==> tick.result.effect == step.effect.value.id
    ensures var result := LoopResult(step, tick, limit);
            || (result == tick.result && !tick.cancelledBefore)
            || (&& IsStop(step.effect.value, result)
                && result.events == if tick.cancelledBefore then [] else tick.result.events)
    ensures !tick.cancelledBefore && ToolResultPairs(step.effect.value, tick.result) == [] ==>
              LoopResult(step, tick, limit) == tick.result
  {
    hide ToolResultPairs, Interrupted, SafetyLimitReached;
  }

  // ------------------------------------------------------------ nothing lost

  /** A step begins with the events that came with the accepted result, and carries its
      commit tokens. */
  lemma AcceptKeeps(cursor: Cursor, result: EffectResult)
    requires Accept(cursor, result).Ok?
    ensures result.events <= Accept(cursor, result).value.events
    ensures Accept(cursor, result).value.tokens == result.CommitTokens()
  {
    hide ToolPlanned, InvocationsStarted, TransitionEvents, UnclosedOperations, ImmediateObservations, NextMode, StepOpened,
         ClosedBy, Strip, IsLength;
  }

  /** What a service delivered is in the next committed step, also when the loop turned the
      result into a failure. */
  lemma DeliveredIsKept(step: KernelStep, tick: Tick, limit: Option<int>)
    requires step.effect.Some? && !tick.cancelledBefore && tick.result.effect == step.effect.value.id
    requires Accept(step.cursor, LoopResult(step, tick, limit)).Ok?
    ensures var next := Accept(step.cursor, LoopResult(step, tick, limit)).value;
            tick.result.events <= next.events && next.tokens == tick.result.CommitTokens()
  {
    LoopResultCases(step, tick, limit);
    StoppedKeeps(step, tick, limit);
    hide Accept, LoopResult;
    AcceptKeeps(step.cursor, LoopResult(step, tick, limit));
  }

  lemma StoppedKeeps(step: KernelStep, tick: Tick, limit: Option<int>)
    requires step.effect.Some? && !tick.cancelledBefore
    ensures LoopResult(step, tick, limit).events == tick.result.events
    ensures LoopResult(step, tick, limit).CommitTokens() == tick.result.CommitTokens()
  {
    var result := LoopResult(step, tick, limit);
    var turns := if limit.Some? then limit.value else 0;
    StopKeeps(tick.result, Cancelled, "tool execution interrupted", 0);
    StopKeeps(tick.result, GuardStopped, "no progress", 0);
    StopKeeps(tick.result, SafetyLimit, "reached loop safety limit without completion signal", turns);
    hide ToolResultPairs, Interrupted, SafetyLimitReached, Stopped;
  }

  lemma StopKeeps(result: EffectResult, kind: FailureKind, message: string, turnsUsed: int)
    ensures Stopped(result, kind, message, turnsUsed).events == result.events
    ensures Stopped(result, kind, message, turnsUsed).CommitTokens() == result.CommitTokens()
  {
  }

  // -------------------------------------------------------------------- runs

  ghost predicate Fed(step: KernelStep, tick: Tick) {
    step.effect.Some? && (tick.cancelledBefore || Serves(step.effect.value, tick.result))
  }

  ghost predicate IsRun(steps: seq<KernelStep>, ticks: seq<Tick>, limit: Option<int>) {
    && |steps| == |ticks| + 1
    && forall i | 0 <= i < |ticks| ::
         Fed(steps[i], ticks[i]) && Accept(steps[i].cursor, LoopResult(steps[i], ticks[i], limit)) == Ok(steps[i + 1])
  }

  /** The events that a run has committed. */
  function Committed(steps: seq<KernelStep>): seq<Event> {
    if steps == [] then [] else Committed(steps[..|steps| - 1]) + steps[|steps| - 1].events
  }

  // -------------------------------------------------- shape and order of steps

  lemma PairsExist(effect: Effect, result: EffectResult)
    requires Serves(effect, result)
    requires effect.PrepareTools? ==> effect.batch.actions != []
    requires effect.ExecuteTools? ==> effect.invocations != []
    ensures ToolResultPairs(effect, result) != [] <==>
              result.ToolsCompleted? || (result.ToolsPrepared? && result.invocations == [])
  {
    if result.ToolsPrepared? && result.invocations == [] {
      var items := seq(|result.immediates|, i requires 0 <= i < |result.immediates| =>
        (result.immediates[i].sourceIndex, (result.immediates[i].original, result.immediates[i].observation)));
      ByIndexSorts(items);
    } else if result.ToolsCompleted? {
      ByIndexSorts(Sources(effect.invocations, effect.immediates));
    }
  }

  // ------------------------------------------- one turn of the loop, tracked

  lemma NeutralCloses(events: seq<Event>)
    requires Neutral(events)
    ensures ClosedBy(events) == {}
  {
  }

  /** A failure whose events touch no operation. */
  lemma QuietFailure(ledger: Ledger, step: KernelStep, outside: set<OperationId>, result: EffectResult)
    requires Shaped(step) && Tracks(ledger, step, outside) && step.effect.Some?
    requires result.EffectFailed? && !result.kind.ContextLimit? && Neutral(result.events)
    ensures var next := AcceptFailure(step.cursor, result);
            Shaped(next) && Tracks(Replay(ledger, next.events), next, outside)
  {
    NeutralCloses(result.events);
    ReplayNeutral(ledger, result.events);
    FailureStep(ledger, step, outside, result);
  }

  lemma ProviderTick(ledger: Ledger, step: KernelStep, outside: set<OperationId>, result: EffectResult)
    requires Shaped(step) && Tracks(ledger, step, outside)
    requires step.effect.Some? && step.effect.value.RequestProvider? && Serves(step.effect.value, result)
    ensures Accept(step.cursor, result).Ok?
    ensures var next := Accept(step.cursor, result).value;
            Shaped(next) && Tracks(Replay(ledger, next.events), next, outside)
  {
    var effect := step.effect.value;
    if result.ProviderCompleted? {
      ReplyStep(ledger, step, outside, result);
    } else if result.kind.ContextLimit? && !step.cursor.compactRetryUsed {
      RetryStep(ledger, step, outside, result);
    } else {
      FailedRequest(ledger, step, outside, result);
    }
  }

  lemma FailedServed(effect: Effect, result: EffectResult) returns (interrupted: Event, rest: seq<Event>)
    requires effect.RequestProvider? && Serves(effect, result) && result.EffectFailed? && Neutral(effect.deferred)
    ensures interrupted.Closing() && interrupted.id == EffectOp(effect.id) && Neutral(rest)
    ensures result.events == [interrupted] + rest
  {
    var answer :| result == ProviderResult(effect, answer);
    interrupted, rest := result.events[0], if answer.contextLimit then effect.deferred else [];
  }

  /** A request that failed for good has closed its own operation. */
  lemma FailedRequest(ledger: Ledger, step: KernelStep, outside: set<OperationId>, result: EffectResult)
    requires Shaped(step) && Tracks(ledger, step, outside)
    requires step.effect.Some? && step.effect.value.RequestProvider? && Serves(step.effect.value, result)
    requires result.EffectFailed? && !(result.kind.ContextLimit? && !step.cursor.compactRetryUsed)
    ensures var next := AcceptFailure(step.cursor, result);
            Shaped(next) && Tracks(Replay(ledger, next.events), next, outside)
  {
    assert EffectOp(step.effect.value.id) != step.cursor.StepId();
    hide *;
    ReplyApart(ledger, step, outside);
    OwnAndNew(ledger, step, outside);
    var interrupted, rest := FailedServed(step.effect.value, result);
    ProviderClosed(ledger, interrupted, rest);
    ClosedByConcat([interrupted], rest);
    NeutralCloses(rest);
    ClosesOne(interrupted);
    FailureStep(ledger, step, outside, result);
  }

  /** The result of a preparation, handed on or stopped by the loop. */
  lemma PreparedResult(ledger: Ledger, step: KernelStep, outside: set<OperationId>, delivered: EffectResult,
                       result: EffectResult)
    requires Shaped(step) && Tracks(ledger, step, outside)
    requires step.effect.Some? && step.effect.value.PrepareTools?
    requires Serves(step.effect.value, delivered) && NewInteraction(ledger, delivered)
    requires result == delivered
          || (!delivered.InteractionSuspended? && IsStop(step.effect.value, result) && result.events == delivered.events)
    ensures Accept(step.cursor, result).Ok?
    ensures var next := Accept(step.cursor, result).value;
            Shaped(next) && Tracks(Replay(ledger, next.events), next, outside)
  {
    if result.EffectFailed? {
      QuietFailure(ledger, step, outside, result);
    } else if result.InteractionSuspended? {
      SuspendedLedger(ledger, step, outside, result, AcceptInteraction(step.cursor, result));
    } else {
      PreparedStep(ledger, step, outside, result);
    }
  }

  lemma PrepareTick(ledger: Ledger, step: KernelStep, outside: set<OperationId>, tick: Tick, limit: Option<int>)
    requires Shaped(step) && Tracks(ledger, step, outside)
    requires step.effect.Some? && step.effect.value.PrepareTools?
    requires !tick.cancelledBefore && Serves(step.effect.value, tick.result) && NewInteraction(ledger, tick.result)
    ensures Accept(step.cursor, LoopResult(step, tick, limit)).Ok?
    ensures var next := Accept(step.cursor, LoopResult(step, tick, limit)).value;
            Shaped(next) && Tracks(Replay(ledger, next.events), next, outside)
  {
    PairsExist(step.effect.value, tick.result);
    LoopResultCases(step, tick, limit);
    hide LoopResult, ToolResultPairs, Accept, Tracks;
    PreparedResult(ledger, step, outside, tick.result, LoopResult(step, tick, limit));
  }

  lemma ExecuteTick(ledger: Ledger, step: KernelStep, outside: set<OperationId>, tick: Tick, limit: Option<int>)
    requires Shaped(step) && Tracks(ledger, step, outside)
    requires step.effect.Some? && step.effect.value.ExecuteTools?
    requires !tick.cancelledBefore && Serves(step.effect.value, tick.result)
    ensures Accept(step.cursor, LoopResult(step, tick, limit)).Ok?
    ensures var next := Accept(step.cursor, LoopResult(step, tick, limit)).value;
            Shaped(next) && Tracks(Replay(ledger, next.events), next, outside)
  {
    LoopResultCases(step, tick, limit);
    hide LoopResult, ToolResultPairs, Tracks, ServesExecute;
    var result := LoopResult(step, tick, limit);
    if result.EffectFailed? {
      StoppedTools(ledger, step, outside, tick.result, result);
    } else {
      ExecutedStep(ledger, step, outside, result);
    }
  }

  /** A finished batch that the loop turned into a failure: its own events have already
      closed every invocation. */
  lemma StoppedTools(ledger: Ledger, step: KernelStep, outside: set<OperationId>, delivered: EffectResult,
                     result: EffectResult)
    requires Shaped(step) && Tracks(ledger, step, outside)
    requires step.effect.Some? && step.effect.value.ExecuteTools? && Serves(step.effect.value, delivered)
    requires result.EffectFailed? && !result.kind.ContextLimit? && result.events == delivered.events
    ensures var next := AcceptFailure(step.cursor, result);
            Shaped(next) && Tracks(Replay(ledger, next.events), next, outside)
  {
    var patches := ExecutedLedger(ledger, step, outside, delivered);
    NoStepAmongTools(step.effect.value.invocations, step.cursor.message.value, step.cursor.StepId());
    OwnIdsOutside(step, outside, ledger);
    assert Ids(step.effect.value.invocations) <= OpenAt(step);
    NoPatches(step, ledger, outside, patches);
    FailureStep(ledger, step, outside, result);
  }

  lemma NoPatches(step: KernelStep, ledger: Ledger, outside: set<OperationId>, patches: set<OperationId>)
    requires Shaped(step) && Tracks(ledger, step, outside) && step.effect.Some?
    requires forall id | id in patches :: id.PatchOp?
    ensures patches !! ledger.open && step.cursor.StepId() !in patches
  {
  }

  /** Whatever happens in one turn of the loop, the next step leaves exactly its own
      operations open. */
  lemma TickTracks(ledger: Ledger, step: KernelStep, outside: set<OperationId>, tick: Tick, limit: Option<int>)
    requires Shaped(step) && Tracks(ledger, step, outside) && Fed(step, tick)
    requires !tick.cancelledBefore ==> NewInteraction(ledger, tick.result)
    ensures Accept(step.cursor, LoopResult(step, tick, limit)).Ok?
    ensures var next := Accept(step.cursor, LoopResult(step, tick, limit)).value;
            Shaped(next) && Tracks(Replay(ledger, next.events), next, outside)
  {
    if tick.cancelledBefore {
      QuietFailure(ledger, step, outside, LoopResult(step, tick, limit));
    } else {
      PairsExist(step.effect.value, tick.result);
      match step.effect.value
      case AssembleContext(_, _, _, _) => ContextStep(ledger, step, outside, tick.result);
      case RequestProvider(_, _, _) => ProviderTick(ledger, step, outside, tick.result);
      case PrepareTools(_, _) => PrepareTick(ledger, step, outside, tick, limit);
      case ExecuteTools(_, _, _) => ExecuteTick(ledger, step, outside, tick, limit);
    }
  }

  lemma RunPrefix(steps: seq<KernelStep>, ticks: seq<Tick>, limit: Option<int>, n: nat)
    requires IsRun(steps, ticks, limit) && n <= |ticks|
    ensures IsRun(steps[..n + 1], ticks[..n], limit)
  {
  }

  lemma CommittedNext(steps: seq<KernelStep>)
    requires steps != []
    ensures Committed(steps) == Committed(steps[..|steps| - 1]) + steps[|steps| - 1].events
    ensures |steps| == 1 ==> Committed(steps) == steps[0].events
  {
    if |steps| == 1 {
      assert steps[..0] == [] && [] + steps[0].events == steps[0].events;
    }
  }

  lemma LastTurn(steps: seq<KernelStep>, ticks: seq<Tick>, limit: Option<int>)
    requires IsRun(steps, ticks, limit) && ticks != []
    ensures var n := |ticks|;
            && |steps| == n + 1 && IsRun(steps[..n], ticks[..n - 1], limit)
            && Fed(steps[n - 1], ticks[n - 1])
            && Accept(steps[n - 1].cursor, LoopResult(steps[n - 1], ticks[n - 1], limit)) == Ok(steps[n])
  {
    hide Fed, Accept, LoopResult;
    RunPrefix(steps, ticks, limit, |ticks| - 1);
  }
}
