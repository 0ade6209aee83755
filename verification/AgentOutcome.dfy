/** Why a run ends: the reason of its outcome, told from what happened in the last turn. */
module AgentOutcome {
  import opened Outcomes
  import opened Text
  import opened OperationIds
  import opened AgentEffects
  import opened AgentKernel
  import opened AgentServices
  import opened AgentRun
  import opened AgentLoop
  import opened AgentProgress

  predicate EndsWith(next: KernelStep, reason: TransitionReason) {
    next.outcome.Some? && next.outcome.value.reason == reason
  }

  /** The batch came to its end in this turn. */
  predicate BatchOver(tick: Tick) {
    !tick.cancelledBefore
    && (tick.result.ToolsCompleted? || (tick.result.ToolsPrepared? && tick.result.invocations == []))
  }

  /** The turn was cancelled, or its tools were, or one of them was interrupted. */
  predicate WasCancelled(tick: Tick) {
    tick.cancelledBefore
    || (tick.result.ToolsCompleted?
        && (tick.cancelledAfter || exists o | o in tick.result.observations :: o.ErrorKind() == "interrupted"))
  }

  /** The limit counts the steps of a run that may go on after its tools. */
  predicate AtLimit(cursor: Cursor, limit: Option<int>) {
    cursor.continuation.ToContext? && limit.Some? && 0 < limit.value <= cursor.step
  }

  lemma LoopStops(tick: Tick, cursor: Cursor, limit: Option<int>)
    ensures WasCancelled(tick) <==>
              tick.cancelledBefore || (tick.result.ToolsCompleted? && Interrupted(tick.result, tick.cancelledAfter))
    ensures SafetyLimitReached(cursor, limit) <==> AtLimit(cursor, limit)
  {
  }

  /** The batch ended, and neither cancellation nor the guard stepped in. */
  predicate GoesOn(tick: Tick) {
    BatchOver(tick) && !WasCancelled(tick) && !tick.guardStops
  }

  predicate FinalReply(tick: Tick) {
    !tick.cancelledBefore && tick.result.ProviderCompleted? && tick.result.reply.actions == []
  }

  /** The request failed, and not in a way that is tried once more. */
  predicate FailedForGood(step: KernelStep, tick: Tick) {
    !tick.cancelledBefore && tick.result.EffectFailed?
    && !(tick.result.kind.ContextLimit? && !step.cursor.compactRetryUsed)
  }

  ghost predicate EndsAsTold(step: KernelStep, tick: Tick, limit: Option<int>, next: KernelStep) {
    && (EndsWith(next, Aborted) <==> WasCancelled(tick))
    && (EndsWith(next, MaxTurns) <==> GoesOn(tick) && AtLimit(step.cursor, limit))
    && (EndsWith(next, PermissionWait) <==>
          !tick.cancelledBefore && tick.result.InteractionSuspended? && tick.result.suspendedOn.kind.Permission?)
    && (EndsWith(next, UserInputWait) <==>
          !tick.cancelledBefore && tick.result.InteractionSuspended? && tick.result.suspendedOn.kind.UserInput?)
    && (EndsWith(next, Completed) <==>
          (FinalReply(tick) && Strip(tick.result.reply.content) != "")
          || (GoesOn(tick) && step.cursor.continuation.ToComplete?))
    && (EndsWith(next, GuardStop) <==>
          (FinalReply(tick) && Strip(tick.result.reply.content) == "")
          || (BatchOver(tick) && !WasCancelled(tick) && tick.guardStops)
          || FailedForGood(step, tick))
    && !EndsWith(next, CompactRetry)
  }

  /** A failure by the loop ends the run with the reason that belongs to its kind. */
  lemma StopEnds(step: KernelStep, result: EffectResult)
    requires step.effect.Some? && IsStop(step.effect.value, result)
    ensures EndsWith(AcceptFailure(step.cursor, result), FailureReason(result.kind))
  {
  }

  /** What the loop makes of a finished batch. */
  lemma BatchResult(step: KernelStep, tick: Tick, limit: Option<int>)
    requires step.effect.Some? && BatchOver(tick) && ToolResultPairs(step.effect.value, tick.result) != []
    requires tick.result.effect == step.effect.value.id
    ensures var result := LoopResult(step, tick, limit);
            if WasCancelled(tick) then IsStop(step.effect.value, result) && result.kind.Cancelled?
            else if tick.guardStops then IsStop(step.effect.value, result) && result.kind.GuardStopped?
            else if AtLimit(step.cursor, limit) then IsStop(step.effect.value, result) && result.kind.SafetyLimit?
            else result == tick.result
  {
    LoopStops(tick, step.cursor, limit);
    hide ToolResultPairs, Interrupted, SafetyLimitReached, WasCancelled, AtLimit;
  }

  lemma AdvanceEnds(cursor: Cursor, observations: seq<Observation>, events: seq<Event>, tokens: seq<int>, closeTools: bool)
    requires cursor.expected.Some?
    ensures var next := AdvanceAfterTools(cursor, observations, events, tokens, closeTools);
            if cursor.continuation.ToComplete? then EndsWith(next, Completed) else next.outcome.None?
  {
  }

  lemma StoppedBatch(step: KernelStep, tick: Tick, limit: Option<int>, result: EffectResult, next: KernelStep)
    requires BatchOver(tick) && result.EffectFailed? && EndsWith(next, FailureReason(result.kind))
    requires if WasCancelled(tick) then result.kind.Cancelled?
             else if tick.guardStops then result.kind.GuardStopped?
             else AtLimit(step.cursor, limit) && result.kind.SafetyLimit?
    ensures EndsAsTold(step, tick, limit, next)
  {
    hide Strip;
  }

  lemma FinishedBatch(step: KernelStep, tick: Tick, limit: Option<int>, next: KernelStep)
    requires GoesOn(tick) && !AtLimit(step.cursor, limit)
    requires if step.cursor.continuation.ToComplete? then EndsWith(next, Completed) else next.outcome.None?
    ensures EndsAsTold(step, tick, limit, next)
  {
    hide Strip;
  }

  lemma BatchEnds(step: KernelStep, tick: Tick, limit: Option<int>, next: KernelStep)
    requires Shaped(step) && Fed(step, tick) && BatchOver(tick)
    requires Accept(step.cursor, LoopResult(step, tick, limit)) == Ok(next)
    ensures EndsAsTold(step, tick, limit, next)
  {
    PairsExist(step.effect.value, tick.result);
    BatchResult(step, tick, limit);
    var result := LoopResult(step, tick, limit);
    hide LoopResult, Serves, ToolResultPairs, Shaped, Interrupted, Strip, EndsAsTold, AtLimit, AcceptFailure,
         AdvanceAfterTools, EndsWith, WasCancelled;
    if IsStop(step.effect.value, result) {
      StopEnds(step, result);
      StoppedBatch(step, tick, limit, result, next);
    } else {
      if result.ToolsCompleted? {
        AdvanceEnds(step.cursor, result.observations, result.events, result.tokens, true);
      } else {
        AdvanceEnds(step.cursor, ImmediateObservations(result.immediates),
                    result.events + [EffectFinished(step.cursor, ToolPreparation)], result.tokens, false);
      }
      FinishedBatch(step, tick, limit, next);
    }
  }

  lemma PassedOn(step: KernelStep, tick: Tick, limit: Option<int>)
    requires Shaped(step) && Fed(step, tick) && !tick.cancelledBefore && !BatchOver(tick)
    ensures LoopResult(step, tick, limit) == tick.result && !WasCancelled(tick)
  {
    PairsExist(step.effect.value, tick.result);
    LoopResultCases(step, tick, limit);
  }

  lemma ResultEnds(step: KernelStep, tick: Tick, limit: Option<int>, next: KernelStep)
    requires Shaped(step) && Fed(step, tick) && !tick.cancelledBefore && !BatchOver(tick) && !WasCancelled(tick)
    requires Accept(step.cursor, tick.result) == Ok(next)
    ensures EndsAsTold(step, tick, limit, next)
  {
    hide ToolResultPairs, Strip, AtLimit, Shaped, AcceptFailure, AcceptProvider, EndsAsTold;
    match tick.result
    case ProviderCompleted(_, _, _, _) => ReplyEnds(step, tick, limit, next);
    case EffectFailed(_, _, _, _, _, _) => FailureEnds(step, tick, limit, next);
    case _ => OtherEnds(step, tick, limit, next);
  }

  lemma ReplyEnds(step: KernelStep, tick: Tick, limit: Option<int>, next: KernelStep)
    requires !tick.cancelledBefore && tick.result.ProviderCompleted? && next == AcceptProvider(step.cursor, tick.result)
    ensures EndsAsTold(step, tick, limit, next)
  {
    hide Strip, AtLimit, IsLength, TransitionEvents, ToolPlanned;
  }

  lemma OtherEnds(step: KernelStep, tick: Tick, limit: Option<int>, next: KernelStep)
    requires !tick.cancelledBefore && !BatchOver(tick) && !WasCancelled(tick)
    requires Accept(step.cursor, tick.result) == Ok(next)
    requires !tick.result.ProviderCompleted? && !tick.result.EffectFailed?
    ensures EndsAsTold(step, tick, limit, next)
  {
    hide Strip, AtLimit, IsLength, TransitionEvents, AcceptFailure, AcceptProvider,
         AdvanceAfterTools, ImmediateObservations, InvocationsStarted;
  }

  lemma FailureEnds(step: KernelStep, tick: Tick, limit: Option<int>, next: KernelStep)
    requires Fed(step, tick) && !tick.cancelledBefore && !WasCancelled(tick) && tick.result.EffectFailed?
    requires next == AcceptFailure(step.cursor, tick.result)
    ensures EndsAsTold(step, tick, limit, next)
  {
    hide ToolResultPairs, Strip, AtLimit, UnclosedOperations, TransitionEvents;
  }

  /** A run ends as aborted, at the limit, waiting, completed or stopped by the guard exactly
      when the last turn was of that sort; in every other turn it goes on. */
  lemma WhyRunsEnd(step: KernelStep, tick: Tick, limit: Option<int>, next: KernelStep)
    requires Shaped(step) && Fed(step, tick)
    requires Accept(step.cursor, LoopResult(step, tick, limit)) == Ok(next)
    ensures EndsAsTold(step, tick, limit, next)
  {
    if tick.cancelledBefore {
      LoopResultCases(step, tick, limit);
      StopEnds(step, LoopResult(step, tick, limit));
    } else if BatchOver(tick) {
      BatchEnds(step, tick, limit, next);
    } else {
      PassedOn(step, tick, limit);
      ResultEnds(step, tick, limit, next);
    }
  }

  /** The events close the step, and end with what the outcome waits for and its savepoint. */
  ghost predicate EndsLogged(events: seq<Event>, cursor: Cursor, outcome: Transition) {
    var tail := TransitionEvents(cursor, outcome);
    var n := |events| - |tail|;
    && n >= 0 && events[n..] == tail
    && exists e :: e in events[..n] && e.Closing() && e.id == cursor.StepId()
  }

  ghost predicate Logged(cursor: Cursor, next: KernelStep) {
    next.outcome.Some? ==> EndsLogged(next.events, cursor, next.outcome.value)
  }

  lemma ReplyLogged(cursor: Cursor, result: EffectResult)
    requires result.ProviderCompleted?
    ensures Logged(cursor, AcceptProvider(cursor, result))
  {
    hide ToolPlanned, IsLength, TransitionEvents, Strip;
    var next := AcceptProvider(cursor, result);
    if next.outcome.Some? {
      Ends(cursor, next, result.events + [next.events[|result.events|]],
           StepFinished(cursor, ReasonText(next.outcome.value.reason), false), []);
    }
  }

  lemma AdvanceLogged(cursor: Cursor, observations: seq<Observation>, events: seq<Event>, tokens: seq<int>, closeTools: bool)
    requires cursor.expected.Some?
    ensures Logged(cursor, AdvanceAfterTools(cursor, observations, events, tokens, closeTools))
  {
    hide NextMode, TransitionEvents, StepOpened;
    var next := AdvanceAfterTools(cursor, observations, events, tokens, closeTools);
    if next.outcome.Some? {
      Ends(cursor, next, events + (if closeTools then [EffectFinished(cursor, ToolRun)] else []),
           StepFinished(cursor, "completed", false), []);
    }
  }

  lemma FailureLogged(cursor: Cursor, result: EffectResult)
    requires result.EffectFailed?
    ensures Logged(cursor, AcceptFailure(cursor, result))
  {
    hide UnclosedOperations, ClosedBy, TransitionEvents;
    var next, reason := AcceptFailure(cursor, result), FailureReason(result.kind);
    if next.outcome.Some? {
      Ends(cursor, next, result.events + UnclosedOperations(cursor, ClosedBy(result.events), ReasonText(reason)),
           StepFinished(cursor, ReasonText(reason), reason.Aborted?), []);
    }
  }

  lemma WaitLogged(cursor: Cursor, result: EffectResult)
    requires result.InteractionSuspended? && cursor.expected.Some?
    ensures Logged(cursor, AcceptInteraction(cursor, result))
  {
    hide TransitionEvents;
    var next := AcceptInteraction(cursor, result);
    Ends(cursor, next, result.events, StepFinished(cursor, ReasonText(next.outcome.value.reason), false),
         [EffectFinished(cursor, PhaseOperation(cursor.phase))]);
  }

  /** The last step of a run closes its own step and records its outcome. */
  lemma AcceptLogs(cursor: Cursor, result: EffectResult)
    requires Accept(cursor, result).Ok?
    ensures Logged(cursor, Accept(cursor, result).value)
  {
    hide AcceptProvider, AcceptFailure, AcceptInteraction, AdvanceAfterTools, ImmediateObservations, InvocationsStarted;
    match result
    case ProviderCompleted(_, _, _, _) => ReplyLogged(cursor, result);
    case ContextAssembled(_, _, _) =>
    case ToolsPrepared(_, _, _, _, _) =>
      AdvanceLogged(cursor, ImmediateObservations(result.immediates), result.events + [EffectFinished(cursor, ToolPreparation)],
                    result.tokens, false);
    case ToolsCompleted(_, observations, events, tokens) => AdvanceLogged(cursor, observations, events, tokens, true);
    case InteractionSuspended(_, _, _, _) => WaitLogged(cursor, result);
    case EffectFailed(_, _, _, _, _, _) => FailureLogged(cursor, result);
  }

  lemma Ends(cursor: Cursor, next: KernelStep, front: seq<Event>, closing: Event, more: seq<Event>)
    requires next.outcome.Some? && closing.Closing() && closing.id == cursor.StepId()
    requires next.events == front + [closing] + more + TransitionEvents(cursor, next.outcome.value)
    ensures Logged(cursor, next)
  {
    hide TransitionEvents;
    var tail := TransitionEvents(cursor, next.outcome.value);
    var n := |next.events| - |tail|;
    assert next.events[..n] == front + [closing] + more;
    assert next.events[n..] == tail;
    assert closing in next.events[..n];
  }

  lemma LoggedLater(before: seq<Event>, events: seq<Event>, cursor: Cursor, outcome: Transition)
    requires EndsLogged(events, cursor, outcome)
    ensures EndsLogged(before + events, cursor, outcome)
  {
    hide TransitionEvents;
    var n := |events| - |TransitionEvents(cursor, outcome)|;
    var e :| e in events[..n] && e.Closing() && e.id == cursor.StepId();
    assert (before + events)[..|before| + n] == before + events[..n];
    assert (before + events)[|before| + n..] == events[n..];
    assert e in (before + events)[..|before| + n];
  }

  /** A run has an outcome at its last step only, and then what it has committed closes that
      turn's step and ends with the outcome: the operation of the interaction that is waited
      for, and a closed savepoint around the transition. */
  lemma OutcomeIsLogged(steps: seq<KernelStep>, ticks: seq<Tick>, limit: Option<int>)
    requires IsRun(steps, ticks, limit) && Shaped(steps[0]) && steps[0].effect.Some?
    ensures forall i | 0 <= i < |ticks| :: steps[i].outcome.None?
    ensures steps[|ticks|].outcome.Some? ==>
              |ticks| > 0 && EndsLogged(Committed(steps), steps[|ticks| - 1].cursor, steps[|ticks|].outcome.value)
  {
    var n := |ticks|;
    forall i | 0 <= i < n ensures steps[i].outcome.None? {
      assert Fed(steps[i], ticks[i]);
      NoOutcomeYet(steps, ticks, limit, i);
    }
    if n > 0 && steps[n].outcome.Some? {
      hide *;
      CommittedNext(steps);
      LastTurn(steps, ticks, limit);
      AcceptLogs(steps[n - 1].cursor, LoopResult(steps[n - 1], ticks[n - 1], limit));
      LastLogged(steps, n, steps[n - 1].cursor);
    }
  }

  lemma LastLogged(steps: seq<KernelStep>, n: nat, cursor: Cursor)
    requires |steps| == n + 1 && Logged(cursor, steps[n]) && steps[n].outcome.Some?
    requires Committed(steps) == Committed(steps[..n]) + steps[n].events
    ensures EndsLogged(Committed(steps), cursor, steps[n].outcome.value)
  {
    hide EndsLogged, Committed;
    LoggedLater(Committed(steps[..n]), steps[n].events, cursor, steps[n].outcome.value);
  }

  /** What still has an effect to execute has no outcome. */
  lemma NoOutcomeYet(steps: seq<KernelStep>, ticks: seq<Tick>, limit: Option<int>, i: nat)
    requires IsRun(steps, ticks, limit) && i < |ticks| && Shaped(steps[0]) && steps[i].effect.Some?
    ensures steps[i].outcome.None?
  {
    if i > 0 {
      hide LoopResult, Fed, Accept;
      assert Accept(steps[i - 1].cursor, LoopResult(steps[i - 1], ticks[i - 1], limit)) == Ok(steps[i]);
      EffectOrOutcome(steps[i - 1].cursor, LoopResult(steps[i - 1], ticks[i - 1], limit));
    }
  }

  lemma EffectOrOutcome(cursor: Cursor, result: EffectResult)
    requires Accept(cursor, result).Ok?
    ensures Accept(cursor, result).value.effect.Some? ==> Accept(cursor, result).value.outcome.None?
  {
    hide TransitionEvents, UnclosedOperations, ImmediateObservations, NextMode, StepOpened, ClosedBy, ToolPlanned,
         InvocationsStarted, IsLength, Strip;
  }

  // -------------------------------------------------------------- the mode

  predicate ChangesMode(o: Observation) {
    o.data.Fields? && o.data.modeChanged && Strip(o.data.selectedMode) != ""
  }

  /** After a batch the mode is the one that the last observation to change it chose. */
  lemma {:induction false} LastModeCounts(mode: string, observations: seq<Observation>, i: nat)
    requires i <= |observations| && forall j | i <= j < |observations| :: !ChangesMode(observations[j])
    ensures i == 0 ==> NextMode(mode, observations) == mode
    ensures i > 0 && ChangesMode(observations[i - 1]) ==>
              NextMode(mode, observations) == Strip(observations[i - 1].data.selectedMode)
    decreases |observations|
  {
    hide Strip;
    var n := |observations|;
    if i < n {
      assert !ChangesMode(observations[n - 1]);
      LastModeCounts(mode, observations[..n - 1], i);
    }
  }
}
