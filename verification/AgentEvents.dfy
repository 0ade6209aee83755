/** What the kernel's own events say: the turn, step and kind of every operation that they start
    or close, and whether they close it as finished or as interrupted. */
module AgentEvents {
  import opened Outcomes
  import opened Text
  import opened OperationIds
  import opened AgentEffects
  import opened OperationLedger
  import opened AgentKernel
  import opened AgentServices
  import opened AgentRun
  import opened AgentLoop
  import opened AgentProgress

  /** The kind that goes with an id. */
  predicate KindFits(id: OperationId, kind: OperationKind) {
    match id
    case StepOp(_, _) => kind.AgentStep?
    case SavepointOp(_, _, _) => kind.SavePoint?
    case PendingOp(_) => kind.PendingInteraction?
    case ToolOp(_, _) => kind.ToolCall?
    case EffectOp(effect) =>
      (match effect.kind
       case Context => kind.ContextAssembly?
       case CompactContext => kind.ContextAssembly?
       case Provider => kind.ProviderRequest?
       case ToolPrepare => kind.ToolPreparation?
       case Tools => kind.ToolRun?)
    case _ => false
  }

  /** A start names the turn as it was given, and the step that its operation belongs to; no step
      but the next one is begun. */
  predicate StartFits(e: Event, cursor: Cursor) {
    && (e.StepStarted? ==> e == StepStarted(cursor.turnId, cursor.step + 1))
    && (e.OperationStarted? ==>
          && e.turn == cursor.turnId && KindFits(e.id, e.kind)
          && match e.id
             case StepOp(turn, step) => turn == cursor.turn && e.step == step == cursor.step + 1
             case EffectOp(effect) => e.step == effect.step
             case SavepointOp(turn, step, _) => turn == cursor.turnId && e.step == step == cursor.step
             case _ => e.step == cursor.step)
  }

  /** An operation is closed as finished, but for what a failure leaves open: that is closed as
      interrupted, with the reason of the failure. The step itself is interrupted only when the
      run was aborted. */
  predicate CloseFits(e: Event, cursor: Cursor, failure: Option<TransitionReason>) {
    e.Closing() ==>
      && KindFits(e.id, e.kind)
      && if e.id == cursor.StepId() then e.OperationInterrupted? == (failure == Some(Aborted))
         else if e.id.SavepointOp? || failure.None? then e.OperationFinished?
         else e.OperationInterrupted? && e.reason == ReasonText(failure.value)
  }

  ghost predicate Fit(events: seq<Event>, cursor: Cursor, failure: Option<TransitionReason>) {
    forall e | e in events :: StartFits(e, cursor) && CloseFits(e, cursor, failure)
  }

  lemma FitConcat(a: seq<Event>, b: seq<Event>, cursor: Cursor, failure: Option<TransitionReason>)
    requires Fit(a, cursor, failure) && Fit(b, cursor, failure)
    ensures Fit(a + b, cursor, failure)
  {
  }

  /** The failure that the result ends the run with, if it does. */
  function FailureOf(cursor: Cursor, result: EffectResult): Option<TransitionReason> {
    if result.EffectFailed? && !(result.kind.ContextLimit? && !cursor.compactRetryUsed) then Some(FailureReason(result.kind))
    else None
  }

  lemma TransitionFits(cursor: Cursor, transition: Transition, failure: Option<TransitionReason>)
    ensures Fit(TransitionEvents(cursor, transition), cursor, failure)
  {
    hide ReasonText;
  }

  lemma OpeningFits(cursor: Cursor, next: Cursor, kind: OperationKind)
    requires next.expected.Some? && next.turnId == cursor.turnId && KindFits(EffectOp(next.expected.value), kind)
    requires next.expected.value.step == next.step
    ensures Fit([EffectStarted(next, kind)], cursor, None)
  {
  }

  lemma NextStepFits(cursor: Cursor, next: Cursor)
    requires next.turnId == cursor.turnId && next.turn == cursor.turn && next.step == cursor.step + 1
    ensures Fit(StepOpened(next), cursor, None)
  {
  }

  lemma {:induction false} UnclosedFits(ids: seq<OperationId>, closed: set<OperationId>, cursor: Cursor, reason: TransitionReason)
    requires forall id | id in ids :: id.ToolOp?
    ensures Fit(UnclosedInvocations(ids, closed, ReasonText(reason)), cursor, Some(reason))
  {
    hide ReasonText;
    if ids != [] {
      UnclosedFits(ids[1..], closed, cursor, reason);
      assert ids[0] in ids;
    }
  }

  /** Phase and expected effect of a step that waits for a result. */
  lemma PhaseFits(step: KernelStep)
    requires Shaped(step) && step.effect.Some?
    ensures step.cursor.expected.Some? && step.cursor.expected.value.step == step.cursor.step
    ensures KindFits(EffectOp(step.cursor.expected.value), PhaseOperation(step.cursor.phase))
    ensures forall id | id in RunningTools(step.cursor) :: id.ToolOp?
  {
    hide Neutral;
  }

  lemma AdvanceFits(cursor: Cursor, observations: seq<Observation>, events: seq<Event>, tokens: seq<int>, closeTools: bool)
    returns (rest: seq<Event>)
    requires cursor.expected.Some? && (closeTools ==> KindFits(EffectOp(cursor.expected.value), ToolRun))
    ensures AdvanceAfterTools(cursor, observations, events, tokens, closeTools).events == events + rest
    ensures Fit(rest, cursor, None)
  {
    var next := AdvanceAfterTools(cursor, observations, events, tokens, closeTools);
    var finished := if closeTools then [EffectFinished(cursor, ToolRun)] else [];
    assert Fit(finished, cursor, None);
    hide NextMode, TransitionEvents, StepOpened, Fit;
    if next.outcome.Some? {
      TransitionFits(cursor, next.outcome.value, None);
      var closing := [StepFinished(cursor, "completed", false)];
      StepCloses(cursor, "completed");
      FitConcat(finished, closing, cursor, None);
      FitConcat(finished + closing, TransitionEvents(cursor, next.outcome.value), cursor, None);
      rest := finished + closing + TransitionEvents(cursor, next.outcome.value);
    } else {
      OpeningFits(cursor, next.cursor, ContextAssembly);
      NextStepFits(cursor, next.cursor);
      var closing, opening := [StepFinished(cursor, "tool_calls", false)], [EffectStarted(next.cursor, ContextAssembly)];
      StepCloses(cursor, "tool_calls");
      FitConcat(finished, closing, cursor, None);
      FitConcat(StepOpened(next.cursor), opening, cursor, None);
      FitConcat(finished + closing, StepOpened(next.cursor) + opening, cursor, None);
      rest := finished + closing + (StepOpened(next.cursor) + opening);
    }
  }

  lemma StepCloses(cursor: Cursor, reason: string)
    ensures Fit([StepFinished(cursor, reason, false)], cursor, None)
  {
  }

  lemma FitThree(a: seq<Event>, b: seq<Event>, c: seq<Event>, cursor: Cursor)
    requires Fit(a, cursor, None) && Fit(b, cursor, None) && Fit(c, cursor, None)
    ensures Fit(a + b + c, cursor, None)
  {
    FitConcat(a, b, cursor, None);
    FitConcat(a + b, c, cursor, None);
  }

  lemma ReplyFits(step: KernelStep, result: EffectResult) returns (rest: seq<Event>)
    requires result.ProviderCompleted?
    ensures AcceptProvider(step.cursor, result).events == result.events + rest && Fit(rest, step.cursor, None)
  {
    var cursor := step.cursor;
    var said := [AssistantMessage(MessageId(cursor.turn, cursor.step, cursor.attempt), result.parent, result.reply.content,
                                  result.reply.actions)];
    assert Fit(said, cursor, None);
    if result.reply.actions == [] {
      rest := LastReplyFits(cursor, result, said);
    } else {
      rest := CallsReplyFits(cursor, result, said);
    }
  }

  lemma LastReplyFits(cursor: Cursor, result: EffectResult, said: seq<Event>) returns (rest: seq<Event>)
    requires result.ProviderCompleted? && result.reply.actions == [] && Fit(said, cursor, None)
    requires said == [AssistantMessage(MessageId(cursor.turn, cursor.step, cursor.attempt), result.parent, result.reply.content,
                                       result.reply.actions)]
    ensures AcceptProvider(cursor, result).events == result.events + rest && Fit(rest, cursor, None)
  {
    var outcome := AcceptProvider(cursor, result).outcome.value;
    TransitionFits(cursor, outcome, None);
    StepCloses(cursor, ReasonText(outcome.reason));
    hide TransitionEvents, Strip, Fit, ReasonText, StepFinished;
    var closing := [StepFinished(cursor, ReasonText(outcome.reason), false)];
    FitThree(said, closing, TransitionEvents(cursor, outcome), cursor);
    rest := said + closing + TransitionEvents(cursor, outcome);
  }

  lemma CallsReplyFits(cursor: Cursor, result: EffectResult, said: seq<Event>) returns (rest: seq<Event>)
    requires result.ProviderCompleted? && result.reply.actions != [] && Fit(said, cursor, None)
    requires said == [AssistantMessage(MessageId(cursor.turn, cursor.step, cursor.attempt), result.parent, result.reply.content,
                                       result.reply.actions)]
    ensures AcceptProvider(cursor, result).events == result.events + rest && Fit(rest, cursor, None)
  {
    assert Fit(ToolPlanned(result.reply.actions), cursor, None);
    hide IsLength, ToolPlanned, CallIds, Fit;
    var next := AcceptProvider(cursor, result);
    OpeningFits(cursor, next.cursor, ToolPreparation);
    hide EffectStarted;
    var opening := [EffectStarted(next.cursor, ToolPreparation)];
    FitThree(said, ToolPlanned(result.reply.actions), opening, cursor);
    rest := said + ToolPlanned(result.reply.actions) + opening;
  }

  /** The start of each prepared invocation names its call. */
  ghost predicate CallsFit(events: seq<Event>, invocations: seq<Invocation>) {
    forall e | e in events && e.OperationStarted? ::
      if e.id.ToolOp? then exists x :: x in invocations && x.id == e.id && x.providerCallId == e.call else e.call == ""
  }

  lemma PreparedFits(step: KernelStep, result: EffectResult) returns (rest: seq<Event>)
    requires Shaped(step) && step.effect.Some? && step.effect.value.PrepareTools?
    requires result.ToolsPrepared? && Named(result.invocations, step.cursor.message.value)
    ensures AcceptPrepared(step.cursor, result).events == result.events + rest
    ensures Fit(rest, step.cursor, None)
  {
    var cursor := step.cursor;
    PhaseFits(step);
    var finished := [EffectFinished(cursor, ToolPreparation)];
    assert Fit(finished, cursor, None);
    hide AdvanceAfterTools, ImmediateObservations, Shaped, Fit, Named;
    if result.invocations == [] {
      var more := AdvanceFits(cursor, ImmediateObservations(result.immediates), result.events + finished, result.tokens, false);
      FitConcat(finished, more, cursor, None);
      rest := finished + more;
    } else {
      rest := InvocationsFit(cursor, result, cursor.message.value, finished);
    }
  }

  /** Prepared invocations are opened one each, with their own calls. */
  lemma InvocationsFit(cursor: Cursor, result: EffectResult, message: MessageId, finished: seq<Event>) returns (rest: seq<Event>)
    requires cursor.expected.Some? && result.ToolsPrepared? && result.invocations != [] && Named(result.invocations, message)
    requires finished == [EffectFinished(cursor, ToolPreparation)] && Fit(finished, cursor, None)
    ensures AcceptPrepared(cursor, result).events == result.events + rest
    ensures Fit(rest, cursor, None) && CallsFit(rest, result.invocations)
  {
    var next := AcceptPrepared(cursor, result);
    StartsFit(cursor, next.cursor, result.invocations, message);
    OpeningFits(cursor, next.cursor, ToolRun);
    hide InvocationsStarted, Fit, Named, ProviderCallIds, InvocationIds;
    var starts, opening := InvocationsStarted(next.cursor, result.invocations), [EffectStarted(next.cursor, ToolRun)];
    FitThree(finished, starts, opening, cursor);
    rest := finished + starts + opening;
    assert forall e | e in rest :: e in finished || e in starts || e in opening;
  }

  lemma StartsFit(cursor: Cursor, next: Cursor, invocations: seq<Invocation>, message: MessageId)
    requires Named(invocations, message) && next.turnId == cursor.turnId && next.step == cursor.step
    ensures Fit(InvocationsStarted(next, invocations), cursor, None) && CallsFit(InvocationsStarted(next, invocations), invocations)
  {
    forall e | e in InvocationsStarted(next, invocations)
      ensures StartFits(e, cursor) && e.OperationStarted? && e.id.ToolOp?
              && exists x :: x in invocations && x.id == e.id && x.providerCallId == e.call
    {
      var i :| 0 <= i < |invocations| && InvocationsStarted(next, invocations)[i] == e;
      assert invocations[i] in invocations;
    }
  }

  lemma FailureFits(step: KernelStep, result: EffectResult) returns (rest: seq<Event>)
    requires Shaped(step) && step.effect.Some? && result.EffectFailed?
    ensures AcceptFailure(step.cursor, result).events == result.events + rest
    ensures Fit(rest, step.cursor, FailureOf(step.cursor, result))
  {
    var cursor, next := step.cursor, AcceptFailure(step.cursor, result);
    PhaseFits(step);
    if next.outcome.Some? {
      var reason := FailureReason(result.kind);
      var closing := [StepFinished(cursor, ReasonText(reason), reason.Aborted?)];
      var closed := ClosedBy(result.events);
      var effect := UnclosedEffect(cursor, closed, ReasonText(reason));
      assert Fit(closing, cursor, Some(reason));
      assert Fit(effect, cursor, Some(reason));
      UnclosedFits(RunningTools(cursor), closed, cursor, reason);
      TransitionFits(cursor, next.outcome.value, Some(reason));
      hide TransitionEvents, ClosedBy, UnclosedEffect, UnclosedInvocations, RunningTools, Shaped, Fit, ReasonText;
      var tools := UnclosedInvocations(RunningTools(cursor), closed, ReasonText(reason));
      FitConcat(effect, tools, cursor, Some(reason));
      FitConcat(effect + tools, closing, cursor, Some(reason));
      FitConcat(effect + tools + closing, TransitionEvents(cursor, next.outcome.value), cursor, Some(reason));
      rest := effect + tools + closing + TransitionEvents(cursor, next.outcome.value);
    } else {
      OpeningFits(cursor, next.cursor, ContextAssembly);
      rest := next.events[|result.events|..];
    }
  }

  /** A result that is not a stop belongs to its effect. */
  ghost predicate Belongs(step: KernelStep, result: EffectResult) {
    && step.effect.Some? && step.cursor.expected.Some?
    && (result.ToolsPrepared? ==> step.effect.value.PrepareTools? && step.cursor.message.Some?
                                  && Named(result.invocations, step.cursor.message.value))
    && (result.ToolsCompleted? ==> KindFits(EffectOp(step.cursor.expected.value), ToolRun))
  }

  lemma ResultBelongs(step: KernelStep, tick: Tick, result: EffectResult)
    requires Shaped(step) && Fed(step, tick)
    requires (result == tick.result && !tick.cancelledBefore) || IsStop(step.effect.value, result)
    ensures Belongs(step, result)
  {
    hide Neutral, Named, NonBlank, Asks, AllCompletionEvents;
  }

  /** The events that the kernel adds to those of an accepted result. */
  lemma AcceptFits(step: KernelStep, result: EffectResult, next: KernelStep) returns (rest: seq<Event>)
    requires Shaped(step) && Belongs(step, result) && Accept(step.cursor, result) == Ok(next)
    ensures next.events == result.events + rest && Fit(rest, step.cursor, FailureOf(step.cursor, result))
  {
    PhaseFits(step);
    hide Shaped, AcceptProvider, AcceptPrepared, AcceptInteraction, AcceptFailure, AdvanceAfterTools, Fit, KindFits, Named;
    match result
    case ContextAssembled(_, _, _) => rest := ContextFits(step, result);
    case ProviderCompleted(_, _, _, _) => rest := ReplyFits(step, result);
    case ToolsPrepared(_, _, _, _, _) => rest := PreparedFits(step, result);
    case ToolsCompleted(_, observations, events, tokens) => rest := AdvanceFits(step.cursor, observations, events, tokens, true);
    case InteractionSuspended(_, _, _, _) => rest := WaitFits(step, result);
    case EffectFailed(_, _, _, _, _, _) => rest := FailureFits(step, result);
  }

  /** The same in an accepted turn of any run, whatever the loop makes of the service's result. */
  lemma KernelEventsFit(step: KernelStep, tick: Tick, limit: Option<int>, next: KernelStep) returns (rest: seq<Event>)
    requires Shaped(step) && Fed(step, tick) && Accept(step.cursor, LoopResult(step, tick, limit)) == Ok(next)
    ensures var result := LoopResult(step, tick, limit);
            next.events == result.events + rest && Fit(rest, step.cursor, FailureOf(step.cursor, result))
  {
    var result := LoopResult(step, tick, limit);
    if !tick.cancelledBefore {
      LoopResultCases(step, tick, limit);
    }
    ResultBelongs(step, tick, result);
    hide LoopResult, Shaped, Fed, Accept, Belongs, Fit;
    rest := AcceptFits(step, result, next);
  }

  lemma ContextFits(step: KernelStep, result: EffectResult) returns (rest: seq<Event>)
    requires result.ContextAssembled?
    ensures AcceptContext(step.cursor, result).events == result.events + rest && Fit(rest, step.cursor, None)
  {
    OpeningFits(step.cursor, AcceptContext(step.cursor, result).cursor, ProviderRequest);
    rest := [EffectStarted(AcceptContext(step.cursor, result).cursor, ProviderRequest)];
  }

  lemma WaitFits(step: KernelStep, result: EffectResult) returns (rest: seq<Event>)
    requires Shaped(step) && step.effect.Some? && result.InteractionSuspended?
    ensures step.cursor.expected.Some?
    ensures AcceptInteraction(step.cursor, result).events == result.events + rest && Fit(rest, step.cursor, None)
  {
    var cursor := step.cursor;
    PhaseFits(step);
    var next := AcceptInteraction(cursor, result);
    TransitionFits(cursor, next.outcome.value, None);
    var closing := [StepFinished(cursor, ReasonText(next.outcome.value.reason), false),
                    EffectFinished(cursor, PhaseOperation(cursor.phase))];
    assert Fit(closing, cursor, None);
    hide TransitionEvents, Shaped, Fit;
    FitConcat(closing, TransitionEvents(cursor, next.outcome.value), cursor, None);
    rest := closing + TransitionEvents(cursor, next.outcome.value);
  }

  // ------------------------------------------------------------- first steps

  /** What the events of a first step name; only the interaction that was waited for is closed. */
  ghost predicate BeginsFit(first: KernelStep, answered: Option<string>) {
    forall e | e in first.events ::
      && (e.StepStarted? ==> e == StepStarted(first.cursor.turnId, first.cursor.step))
      && (e.OperationStarted? ==>
            && e.turn == first.cursor.turnId && e.step == first.cursor.step && e.call == "" && KindFits(e.id, e.kind)
            && (e.id == first.cursor.StepId() || (e.id.EffectOp? && Some(e.id.effect) == first.cursor.expected)))
      && (e.Closing() ==>
            answered.Some? && e == OperationFinished(PendingOp(answered.value), PendingInteraction))
  }

  /** The events of a first step: the step is opened, something that is no operation is said or an
      answer closes its interaction, and the effect is started. */
  lemma FirstStepFits(first: KernelStep, said: seq<Event>, kind: OperationKind, answered: Option<string>)
    requires first.cursor.expected.Some? && KindFits(EffectOp(first.cursor.expected.value), kind)
    requires first.events == StepOpened(first.cursor) + said + [EffectStarted(first.cursor, kind)]
    requires forall e | e in said ::
               !e.StepStarted? && !e.OperationStarted?
               && (e.Closing() ==> answered.Some? && e == OperationFinished(PendingOp(answered.value), PendingInteraction))
    ensures BeginsFit(first, answered)
  {
    forall e | e in first.events ensures e in StepOpened(first.cursor) || e in said || e == EffectStarted(first.cursor, kind) {
    }
  }

  lemma StartNames(turnId: string, mode: string, workflow: string, stream: bool, stepIndex: int)
    ensures BeginsFit(Start(turnId, mode, workflow, stream, stepIndex), None)
  {
    hide TurnText, BeginsFit, StepOpened;
    var first := Start(turnId, mode, workflow, stream, stepIndex);
    assert StepOpened(first.cursor) + [] == StepOpened(first.cursor);
    FirstStepFits(first, [], ContextAssembly, None);
  }

  lemma CommandNames(turnId: string, mode: string, workflow: string, action: ToolAction, parent: string, stepIndex: int)
    ensures BeginsFit(CommandTool(turnId, mode, workflow, action, parent, stepIndex), None)
  {
    hide TurnText, BeginsFit, StepOpened;
    var first := CommandTool(turnId, mode, workflow, action, parent, stepIndex);
    FirstStepFits(first, [AssistantMessage(first.cursor.message.value, parent, "", [action])] + ToolPlanned([action]),
                  ToolPreparation, None);
  }

  lemma ResumeNames(pending: Pending, batch: PrepareBatch, turnId: string, stream: bool, stepIndex: int)
    ensures BeginsFit(ResumePreparation(pending, batch, turnId, stream, stepIndex), Some(pending.interaction))
  {
    hide TurnText, BeginsFit, StepOpened, CallIds;
    var first := ResumePreparation(pending, batch, turnId, stream, stepIndex);
    FirstStepFits(first, [PendingResolution(pending.interaction),
                          OperationFinished(PendingOp(pending.interaction), PendingInteraction)],
                  ToolPreparation, Some(pending.interaction));
  }

  // ------------------------------------------------------------- invocations

  /** The operation of an executed invocation is interrupted if and only if its result was
      interrupted or discarded. */
  lemma InvocationEnds(invocation: Invocation, completion: Completion)
    ensures var events, kind := CompletionEvents(invocation, completion), completion.observation.ErrorKind();
            && events != []
            && var last := events[|events| - 1];
               && last.Closing() && last.id == invocation.id
               && (last.OperationInterrupted? <==> kind == "interrupted" || kind == "discarded")
               && (last.OperationInterrupted? ==> last.reason == kind)
  {
  }
}
