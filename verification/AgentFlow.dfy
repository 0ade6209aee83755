/** What a run carries from turn to turn: numbers, mode, what was asked for and what was
    delivered for it, and what its outcome tells. */
module AgentFlow {
  import opened Outcomes
  import opened Text
  import opened OperationIds
  import opened AgentEffects
  import opened OperationLedger
  import opened AgentKernel
  import opened AgentServices
  import opened AgentRun
  import opened AgentLoop
  import opened AgentProgress
  import opened AgentDrive
  import opened AgentOutcome

  // ---------------------------------------------------------- one more effect

  /** The effect that follows in a run that goes on: after a context the request, with what the
      context has deferred; after a request the preparation or, once, the compacted context;
      after a preparation the execution of exactly what was prepared; after a batch the context
      of the next step. */
  ghost predicate NextEffect(step: KernelStep, tick: Tick, next: KernelStep)
    requires step.effect.Some? && next.effect.Some?
  {
    var result := tick.result;
    && !tick.cancelledBefore
    && match step.effect.value
       case AssembleContext(_, _, _, _) =>
         && result.ContextAssembled? && next.effect.value.RequestProvider?
         && next.effect.value.deferred == result.deferred && next.effect.value.stream == step.cursor.stream
       case RequestProvider(_, _, _) =>
         if result.ProviderCompleted? then
           next.effect.value.PrepareTools? && next.effect.value.batch.actions == result.reply.actions
         else
           && result.EffectFailed? && result.kind.ContextLimit? && !step.cursor.compactRetryUsed
           && next.effect.value.AssembleContext? && next.effect.value.forceCompact
       case PrepareTools(_, _) =>
         && result.ToolsPrepared?
         && if result.invocations != [] then
              && next.effect.value.ExecuteTools?
              && next.effect.value.invocations == result.invocations && next.effect.value.immediates == result.immediates
            else next.effect.value.AssembleContext? && !next.effect.value.forceCompact
       case ExecuteTools(_, _, _) =>
         result.ToolsCompleted? && next.effect.value.AssembleContext? && !next.effect.value.forceCompact
  }

  lemma ServedNext(step: KernelStep, tick: Tick, next: KernelStep)
    requires Shaped(step) && step.effect.Some? && !tick.cancelledBefore && Serves(step.effect.value, tick.result)
    requires Accept(step.cursor, tick.result) == Ok(next) && next.effect.Some?
    ensures NextEffect(step, tick, next)
  {
    hide ToolPlanned, InvocationsStarted, TransitionEvents, UnclosedOperations, ImmediateObservations, NextMode, StepOpened,
         ClosedBy, Strip, IsLength, Named, Neutral, ContextEvents;
  }

  /** In every run the effects follow each other in that way. */
  lemma EffectsFollow(step: KernelStep, tick: Tick, limit: Option<int>, next: KernelStep)
    requires Shaped(step) && Fed(step, tick) && Accept(step.cursor, LoopResult(step, tick, limit)) == Ok(next)
    requires next.effect.Some?
    ensures NextEffect(step, tick, next)
    ensures LoopResult(step, tick, limit) == tick.result
  {
    if !tick.cancelledBefore {
      LoopResultCases(step, tick, limit);
    }
    hide NextEffect, Shaped, LoopResult, Accept;
    NoEffectAfterStop(step, LoopResult(step, tick, limit));
    StoppedOrNot(step, tick, limit);
    ServedNext(step, tick, next);
  }

  lemma StoppedOrNot(step: KernelStep, tick: Tick, limit: Option<int>)
    requires Fed(step, tick)
    ensures (LoopResult(step, tick, limit) == tick.result && !tick.cancelledBefore)
         || IsStop(step.effect.value, LoopResult(step, tick, limit))
  {
    if !tick.cancelledBefore {
      LoopResultCases(step, tick, limit);
    }
  }

  lemma NoEffectAfterStop(step: KernelStep, result: EffectResult)
    requires step.effect.Some? && Accept(step.cursor, result).Ok?
    ensures IsStop(step.effect.value, result) ==> Accept(step.cursor, result).value.effect.None?
  {
    hide TransitionEvents, UnclosedOperations, ClosedBy;
  }

  // -------------------------------------------------------------- numbers

  /** How many batches have come to an end. */
  function BatchCount(ticks: seq<Tick>): nat {
    if ticks == [] then 0
    else BatchCount(ticks[..|ticks| - 1]) + if BatchOver(ticks[|ticks| - 1]) then 1 else 0
  }

  /** A turn of a run that goes on: steps count batches, attempts count requests, and everything
      that the run was begun with stays. */
  ghost predicate Counts(step: KernelStep, tick: Tick, next: KernelStep) {
    && next.cursor.step == step.cursor.step + (if BatchOver(tick) then 1 else 0)
    && next.cursor.attempt == step.cursor.attempt + (if Requests(next) then 1 else 0)
    && next.cursor.turnId == step.cursor.turnId && next.cursor.turn == step.cursor.turn
    && next.cursor.workflow == step.cursor.workflow && next.cursor.stream == step.cursor.stream
    && next.cursor.continuation == step.cursor.continuation
  }

  lemma TurnCounts(step: KernelStep, tick: Tick, limit: Option<int>, next: KernelStep)
    requires Shaped(step) && Fed(step, tick) && Accept(step.cursor, LoopResult(step, tick, limit)) == Ok(next)
    requires next.effect.Some?
    ensures Counts(step, tick, next)
  {
    EffectsFollow(step, tick, limit, next);
    HasEffect(step, tick);
    hide *;
    AcceptCounts(step, tick, next);
  }

  lemma AcceptCounts(step: KernelStep, tick: Tick, next: KernelStep)
    requires step.effect.Some? && next.effect.Some? && NextEffect(step, tick, next)
    requires Accept(step.cursor, tick.result) == Ok(next)
    ensures Counts(step, tick, next)
  {
    hide ToolPlanned, InvocationsStarted, TransitionEvents, UnclosedOperations, ImmediateObservations, NextMode, StepOpened,
         ClosedBy, Strip, IsLength;
  }

  /** Along every run the number of the step counts the batches that have come to an end, and
      the attempt counts the requests: both go up one by one. */
  lemma {:induction false} RunCounts(steps: seq<KernelStep>, ticks: seq<Tick>, limit: Option<int>)
    requires IsRun(steps, ticks, limit) && steps[|ticks|].effect.Some? && !Requests(steps[0])
    requires Shaped(steps[0]) && (steps[0].effect.Some? ==> Steady(steps[0].cursor))
    ensures var first, last := steps[0].cursor, steps[|ticks|].cursor;
            && last.step == first.step + BatchCount(ticks)
            && last.attempt == first.attempt + RequestCount(steps)
            && last.turnId == first.turnId && last.workflow == first.workflow && last.stream == first.stream
    decreases |ticks|
  {
    var n := |ticks|;
    if n == 0 {
      NothingCounted(steps);
    } else {
      hide *;
      RunPrefix(steps, ticks, limit, n - 1);
      RunForward(steps, ticks, limit, n - 1);
      LastTurn(steps, ticks, limit);
      HasEffect(steps[n - 1], ticks[n - 1]);
      RunCounts(steps[..n], ticks[..n - 1], limit);
      TurnCounts(steps[n - 1], ticks[n - 1], limit, steps[n]);
      CountsAdd(steps, ticks);
    }
  }

  lemma NothingCounted(steps: seq<KernelStep>)
    requires |steps| == 1 && !Requests(steps[0])
    ensures RequestCount(steps) == 0 && BatchCount([]) == 0
  {
    assert steps[..0] == [];
  }

  lemma CountsAdd(steps: seq<KernelStep>, ticks: seq<Tick>)
    requires ticks != [] && |steps| == |ticks| + 1
    requires var n := |ticks|; Counts(steps[n - 1], ticks[n - 1], steps[n])
    ensures var n := |ticks|; var before, after := steps[n - 1].cursor, steps[n].cursor;
            && after.step - before.step == BatchCount(ticks) - BatchCount(ticks[..n - 1])
            && after.attempt - before.attempt == RequestCount(steps) - RequestCount(steps[..n])
            && after.turnId == before.turnId && after.workflow == before.workflow && after.stream == before.stream
  {
    hide BatchOver, Requests;
  }

  lemma HasEffect(step: KernelStep, tick: Tick)
    requires Fed(step, tick)
    ensures step.effect.Some?
  {
  }

  /** The effect is the one that the run was asked for: contexts and batches in its workflow,
      requests with streaming or without. */
  predicate AsAsked(effect: Effect, workflow: string, stream: bool) {
    match effect
    case AssembleContext(_, _, w, _) => w == workflow
    case RequestProvider(_, s, _) => s == stream
    case PrepareTools(_, batch) => batch.workflow == workflow
    case ExecuteTools(_, _, _) => true
  }

  lemma LastAsAsked(steps: seq<KernelStep>, ticks: seq<Tick>, limit: Option<int>)
    requires IsRun(steps, ticks, limit) && steps[|ticks|].effect.Some?
    requires !Requests(steps[0]) && Shaped(steps[0]) && (steps[0].effect.Some? ==> Steady(steps[0].cursor))
    ensures var first, last := steps[0].cursor, steps[|ticks|];
            && last.cursor.turnId == first.turnId && last.cursor.attempt == first.attempt + RequestCount(steps)
            && last.cursor.step == first.step + BatchCount(ticks)
            && AsAsked(last.effect.value, first.workflow, first.stream)
  {
    RunCounts(steps, ticks, limit);
    RunForward(steps, ticks, limit, |ticks|);
    ShapedAsAsked(steps[|ticks|]);
    hide *;
  }

  lemma ShapedAsAsked(step: KernelStep)
    requires Shaped(step) && step.effect.Some?
    ensures AsAsked(step.effect.value, step.cursor.workflow, step.cursor.stream)
  {
    hide Neutral, Named;
  }

  /** A run of a user turn is carried out as it was asked for, and first in the mode that was
      given; its steps count on from the first one. */
  lemma StartedAsAsked(steps: seq<KernelStep>, ticks: seq<Tick>, limit: Option<int>, turnId: string, mode: string,
                       workflow: string, stream: bool, stepIndex: int)
    requires IsRun(steps, ticks, limit) && steps[0] == Start(turnId, mode, workflow, stream, stepIndex)
    requires steps[|ticks|].effect.Some?
    ensures var last := steps[|ticks|];
            && last.cursor.turnId == turnId && last.cursor.attempt == RequestCount(steps)
            && last.cursor.step == (if stepIndex < 1 then 1 else stepIndex) + BatchCount(ticks)
            && AsAsked(last.effect.value, workflow, stream)
    ensures steps[0].effect.Some? && steps[0].effect.value.AssembleContext? && steps[0].effect.value.mode == mode
  {
    LastAsAsked(steps, ticks, limit);
    hide IsRun, Shaped, Steady, AsAsked, BatchCount, RequestCount;
  }

  /** A resumed run goes on in the mode and the workflow of its batch. */
  lemma ResumedAsAsked(steps: seq<KernelStep>, ticks: seq<Tick>, limit: Option<int>, pending: Pending, batch: PrepareBatch,
                       turnId: string, stream: bool, stepIndex: int)
    requires IsRun(steps, ticks, limit) && steps[0] == ResumePreparation(pending, batch, turnId, stream, stepIndex)
    requires Shaped(steps[0]) && Steady(steps[0].cursor) && steps[|ticks|].effect.Some?
    ensures var last := steps[|ticks|];
            && last.cursor.turnId == turnId && last.cursor.attempt == RequestCount(steps)
            && last.cursor.step == (if stepIndex < 1 then 1 else stepIndex) + BatchCount(ticks)
            && AsAsked(last.effect.value, batch.workflow, stream)
    ensures steps[0].cursor.mode == batch.mode && steps[0].cursor.continuation == batch.continuation
  {
    LastAsAsked(steps, ticks, limit);
    hide IsRun, Shaped, Steady, AsAsked, BatchCount, RequestCount;
  }

  // ----------------------------------------------------------------- mode

  /** The observations of the batch that ended in this turn, in the order of its actions. */
  function ObservationsOf(tick: Tick): seq<Observation> {
    if tick.result.ToolsCompleted? then tick.result.observations
    else if tick.result.ToolsPrepared? then ImmediateObservations(tick.result.immediates)
    else []
  }

  /** `mode` is what the last observation to change it chose, or else the mode of before. */
  ghost predicate ModeChosen(mode: string, before: string, observations: seq<Observation>) {
    if exists i :: 0 <= i < |observations| && ChangesMode(observations[i]) then
      exists i :: 0 <= i < |observations| && ChangesMode(observations[i]) && mode == Strip(observations[i].data.selectedMode)
                  && forall j | i < j < |observations| :: !ChangesMode(observations[j])
    else mode == before
  }

  lemma {:induction false} LastChange(observations: seq<Observation>) returns (i: nat)
    ensures i <= |observations| && (i > 0 ==> ChangesMode(observations[i - 1]))
    ensures forall j | i <= j < |observations| :: !ChangesMode(observations[j])
    decreases |observations|
  {
    hide ChangesMode;
    i := |observations|;
    if i > 0 && !ChangesMode(observations[i - 1]) {
      var front := observations[..i - 1];
      var k := LastChange(front);
      assert forall j | 0 <= j < |front| :: front[j] == observations[j];
      i := k;
    }
  }

  lemma NextModeChosen(mode: string, observations: seq<Observation>)
    ensures ModeChosen(NextMode(mode, observations), mode, observations)
  {
    var i := LastChange(observations);
    LastModeCounts(mode, observations, i);
    hide NextMode, Strip, ChangesMode;
    if i > 0 {
      assert ChangesMode(observations[i - 1]);
    }
  }

  /** The mode changes only when a batch ends, and then to what its last observation to choose
      one has chosen; the context of the next step is assembled in it, and an outcome that ends
      a command names it. */
  lemma ModeFollows(step: KernelStep, tick: Tick, limit: Option<int>, next: KernelStep)
    requires Shaped(step) && Fed(step, tick) && Accept(step.cursor, LoopResult(step, tick, limit)) == Ok(next)
    ensures next.effect.Some? ==>
              && ModeChosen(next.cursor.mode, step.cursor.mode, if BatchOver(tick) then ObservationsOf(tick) else [])
              && (next.effect.value.AssembleContext? ==>
                    next.effect.value.mode == next.cursor.mode && next.effect.value.workflow == next.cursor.workflow)
    ensures next.outcome.Some? ==>
              ModeChosen(next.outcome.value.nextMode, step.cursor.mode,
                         if BatchOver(tick) && next.outcome.value.reason.Completed? then ObservationsOf(tick) else [])
  {
    NextModeChosen(step.cursor.mode, ObservationsOf(tick));
    NextModeChosen(step.cursor.mode, []);
    HasEffect(step, tick);
    hide *;
    StoppedOrNot(step, tick, limit);
    ModeAccepted(step.cursor, LoopResult(step, tick, limit));
    ModeOfTurn(step.cursor.mode, tick);
    if IsStop(step.effect.value, LoopResult(step, tick, limit)) {
      StopNotCompleted(step, LoopResult(step, tick, limit));
      NoEffectAfterStop(step, LoopResult(step, tick, limit));
    }
  }

  lemma ModeOfTurn(before: string, tick: Tick)
    ensures !tick.cancelledBefore ==>
              ModeAfter(before, tick.result) == NextMode(before, if BatchOver(tick) then ObservationsOf(tick) else [])
    ensures NextMode(before, []) == before
  {
    hide ImmediateObservations;
  }

  lemma StopNotCompleted(step: KernelStep, result: EffectResult)
    requires step.effect.Some? && IsStop(step.effect.value, result) && Accept(step.cursor, result).Ok?
    ensures var next := Accept(step.cursor, result).value;
            next.outcome.Some? ==> !next.outcome.value.reason.Completed?
    ensures ModeAfter(step.cursor.mode, result) == step.cursor.mode
  {
    hide TransitionEvents, UnclosedOperations, ClosedBy;
  }

  /** The mode after a result that the kernel accepts. */
  function ModeAfter(before: string, result: EffectResult): string {
    match result
    case ToolsCompleted(_, observations, _, _) => NextMode(before, observations)
    case ToolsPrepared(_, invocations, immediates, _, _) =>
      if invocations == [] then NextMode(before, ImmediateObservations(immediates)) else before
    case _ => before
  }

  lemma AdvancedMode(cursor: Cursor, observations: seq<Observation>, events: seq<Event>, tokens: seq<int>, closeTools: bool)
    requires cursor.expected.Some?
    ensures var next, mode := AdvanceAfterTools(cursor, observations, events, tokens, closeTools), NextMode(cursor.mode, observations);
            && next.cursor.mode == mode && next.cursor.workflow == cursor.workflow
            && (next.effect.Some? ==>
                  && next.effect.value.AssembleContext? && next.effect.value.mode == mode
                  && next.effect.value.workflow == cursor.workflow)
            && (next.outcome.Some? ==> next.outcome.value.nextMode == mode && next.outcome.value.reason.Completed?)
  {
    hide NextMode, TransitionEvents, StepOpened;
  }

  lemma ModeAccepted(cursor: Cursor, result: EffectResult)
    requires Accept(cursor, result).Ok?
    ensures var next, mode := Accept(cursor, result).value, ModeAfter(cursor.mode, result);
            && next.cursor.mode == mode && next.cursor.workflow == cursor.workflow
            && (next.effect.Some? && next.effect.value.AssembleContext? ==>
                  next.effect.value.mode == mode && next.effect.value.workflow == cursor.workflow)
            && (next.outcome.Some? ==> next.outcome.value.nextMode == mode)
  {
    match result
    case ToolsCompleted(_, observations, events, tokens) => AdvancedMode(cursor, observations, events, tokens, true);
    case ToolsPrepared(_, _, immediates, events, tokens) =>
      AdvancedMode(cursor, ImmediateObservations(immediates), events + [EffectFinished(cursor, ToolPreparation)], tokens, false);
    case _ =>
    hide NextMode, AdvanceAfterTools, TransitionEvents, ImmediateObservations, InvocationsStarted, UnclosedOperations, ClosedBy,
         ToolPlanned, IsLength, Strip;
  }

  // -------------------------------------------------------------- outcomes

  const EMPTY_REPLY := "provider returned empty assistant response without tool calls"

  /** What the outcome of a run tells: the text of the final reply, the interaction that is
      waited for and nothing else, and how many turns were used. */
  ghost predicate OutcomeTold(step: KernelStep, tick: Tick, limit: Option<int>, outcome: Transition) {
    && (AgentOutcome.FinalReply(tick) && outcome.reason.Completed? ==> outcome.message == tick.result.reply.content)
    && (AgentOutcome.FinalReply(tick) && outcome.reason.GuardStop? ==> outcome.message == EMPTY_REPLY)
    && outcome.pending == (if !tick.cancelledBefore && tick.result.InteractionSuspended? then Some(tick.result.suspendedOn) else None)
    && (outcome.reason.MaxTurns? ==> limit == Some(outcome.turnsUsed))
    && (!outcome.reason.MaxTurns? && (tick.cancelledBefore || !tick.result.EffectFailed?) ==> outcome.turnsUsed == step.cursor.step)
    && (FailedForGood(step, tick) ==> outcome.message == tick.result.message)
  }

  /** What the kernel makes of an accepted result that ends the run. */
  ghost predicate OutcomeOf(outcome: Transition, cursor: Cursor, result: EffectResult) {
    && outcome.pending == (if result.InteractionSuspended? then Some(result.suspendedOn) else None)
    && (result.ProviderCompleted? && outcome.reason.Completed? ==> outcome.message == result.reply.content)
    && (result.ProviderCompleted? && outcome.reason.GuardStop? ==> outcome.message == EMPTY_REPLY)
    && (result.EffectFailed? ==>
          && outcome.message == result.message
          && outcome.turnsUsed == (if result.turnsUsed != 0 then result.turnsUsed else cursor.step)
          && (outcome.reason.MaxTurns? <==> result.kind.SafetyLimit?))
    && (!result.EffectFailed? ==> outcome.turnsUsed == cursor.step && !outcome.reason.MaxTurns?)
  }

  lemma OutcomeAccepted(cursor: Cursor, result: EffectResult)
    requires Accept(cursor, result).Ok? && Accept(cursor, result).value.outcome.Some?
    ensures OutcomeOf(Accept(cursor, result).value.outcome.value, cursor, result)
    ensures Accept(cursor, result).value.effect.None? && Accept(cursor, result).value.cursor.expected.None?
  {
    hide ToolPlanned, InvocationsStarted, TransitionEvents, UnclosedOperations, ImmediateObservations, NextMode, StepOpened,
         ClosedBy, Strip, IsLength;
  }

  /** The result that ends a run: a failure counts the turns of the limit if it was reached. */
  lemma StopTells(step: KernelStep, tick: Tick, limit: Option<int>)
    requires Fed(step, tick)
    ensures var result := LoopResult(step, tick, limit);
            && (result.EffectFailed? && result != tick.result ==>
                  if result.kind.SafetyLimit? then limit == Some(result.turnsUsed) && result.turnsUsed > 0
                  else result.turnsUsed == 0)
            && (AgentOutcome.FinalReply(tick) ==> result == tick.result)
            && (FailedForGood(step, tick) ==> result == tick.result)
            && (!tick.cancelledBefore && tick.result.InteractionSuspended? ==> result == tick.result)
  {
    hide Serves, Interrupted;
  }

  lemma ServiceFailure(step: KernelStep, tick: Tick)
    requires Fed(step, tick) && !tick.cancelledBefore && tick.result.EffectFailed?
    ensures !tick.result.kind.SafetyLimit?
  {
    hide Named, Neutral, NonBlank, Asks, AllCompletionEvents;
  }

  lemma OutcomeTells(step: KernelStep, tick: Tick, limit: Option<int>, next: KernelStep)
    requires Shaped(step) && Fed(step, tick) && Accept(step.cursor, LoopResult(step, tick, limit)) == Ok(next)
    requires next.outcome.Some?
    ensures OutcomeTold(step, tick, limit, next.outcome.value)
    ensures next.effect.None? && next.cursor.expected.None?
  {
    StoppedOrNot(step, tick, limit);
    StopTells(step, tick, limit);
    OutcomeAccepted(step.cursor, LoopResult(step, tick, limit));
    if !tick.cancelledBefore && tick.result.EffectFailed? {
      ServiceFailure(step, tick);
    }
    hide LoopResult, Accept, Serves, Shaped, Strip;
  }

  /** The request of the turn was answered. */
  predicate Replied(tick: Tick) {
    !tick.cancelledBefore && tick.result.ProviderCompleted?
  }

  /** The final text of a run is the content of the last reply, or empty without one. */
  lemma {:induction false} FinalTextTold(ticks: seq<Tick>) returns (i: nat)
    ensures (forall j | 0 <= j < |ticks| :: !Replied(ticks[j])) ==> FinalText(ticks) == ""
    ensures (exists j :: 0 <= j < |ticks| && Replied(ticks[j])) ==>
              && i < |ticks| && Replied(ticks[i]) && FinalText(ticks) == ticks[i].result.reply.content
              && forall j | i < j < |ticks| :: !Replied(ticks[j])
    decreases |ticks|
  {
    i := 0;
    if ticks != [] {
      var n := |ticks| - 1;
      var k := FinalTextTold(ticks[..n]);
      i := if Replied(ticks[n]) then n else k;
      assert forall j | 0 <= j < n :: ticks[..n][j] == ticks[j];
    }
  }

  /** A request that failed at the limit of the context, the first time in a run: the log notes the
      retry with the message of the failure, and the compacted context of the same step is started. */
  lemma RetryNoted(step: KernelStep, tick: Tick, limit: Option<int>, next: KernelStep)
    requires Shaped(step) && Fed(step, tick) && Accept(step.cursor, LoopResult(step, tick, limit)) == Ok(next)
    requires !tick.cancelledBefore && tick.result.EffectFailed? && tick.result.kind.ContextLimit?
    requires !step.cursor.compactRetryUsed
    ensures next.outcome.None? && next.effect.Some? && next.effect.value.AssembleContext? && next.effect.value.forceCompact
    ensures var cursor, compacted := step.cursor, EffectOp(next.effect.value.id);
            next.events == tick.result.events
                           + [LoopTransition(Transition(CompactRetry, tick.result.message, None, cursor.mode, cursor.step)),
                              OperationStarted(compacted, ContextAssembly, cursor.turnId, cursor.step, "")]
  {
    LoopResultCases(step, tick, limit);
    hide Serves, Shaped, ClosedBy, TransitionEvents, UnclosedOperations;
    assert ToolResultPairs(step.effect.value, tick.result) == [];
    hide LoopResult;
  }

  // ------------------------------------------------------- deferred events

  /** What assembling a context has deferred is written to the log right after the request is
      closed, with the reply or with the failure that leads to a compacted context; another
      failure drops it. */
  lemma DeferredReachesLog(steps: seq<KernelStep>, ticks: seq<Tick>, limit: Option<int>, i: nat)
    requires IsRun(steps, ticks, limit) && i + 1 < |ticks| && !ticks[i].cancelledBefore && !ticks[i + 1].cancelledBefore
    requires Shaped(steps[0]) && (steps[0].effect.Some? ==> Steady(steps[0].cursor))
    requires steps[i].effect.Some? && steps[i].effect.value.AssembleContext?
    ensures ticks[i].result.ContextAssembled?
    ensures var deferred, result := ticks[i].result.deferred, ticks[i + 1].result;
            if result.ProviderCompleted? || (result.EffectFailed? && result.kind.ContextLimit?) then
              |steps[i + 2].events| > |deferred| && steps[i + 2].events[1..|deferred| + 1] == deferred
            else
              result.EffectFailed? && |result.events| == 1
  {
    RunForward(steps, ticks, limit, i);
    RunForward(steps, ticks, limit, i + 1);
    assert Fed(steps[i], ticks[i]) && Fed(steps[i + 1], ticks[i + 1]);
    hide IsRun, Accept, LoopResult, Shaped, NextEffect;
    EffectsFollow(steps[i], ticks[i], limit, steps[i + 1]);
    AfterContext(steps[i], ticks[i], steps[i + 1]);
    RequestDelivers(steps[i + 1], ticks[i + 1]);
    DeliveredIsKept(steps[i + 1], ticks[i + 1], limit);
    var result, events := ticks[i + 1].result.events, steps[i + 2].events;
    assert result <= events;
  }

  lemma AfterContext(step: KernelStep, tick: Tick, next: KernelStep)
    requires step.effect.Some? && step.effect.value.AssembleContext? && next.effect.Some? && NextEffect(step, tick, next)
    ensures tick.result.ContextAssembled? && next.effect.value.RequestProvider?
    ensures next.effect.value.deferred == tick.result.deferred
  {
  }

  lemma RequestDelivers(step: KernelStep, tick: Tick)
    requires Fed(step, tick) && !tick.cancelledBefore && step.effect.value.RequestProvider?
    ensures var deferred, result := step.effect.value.deferred, tick.result;
            && result.effect == step.effect.value.id
            && if result.ProviderCompleted? || (result.EffectFailed? && result.kind.ContextLimit?) then
                 |result.events| == |deferred| + 1 && result.events[1..] == deferred
               else
                 result.EffectFailed? && |result.events| == 1
  {
  }
}
