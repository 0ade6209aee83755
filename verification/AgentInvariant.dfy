/** What holds at every committed step of every run. */
module AgentInvariant {
  import opened Outcomes
  import opened Text
  import opened OperationIds
  import opened AgentEffects
  import opened Interactions
  import opened InteractionLedger
  import opened OperationLedger
  import opened AgentKernel
  import opened AgentServices
  import opened AgentRun
  import opened AgentLoop

  // -------------------------------------------------- the ids in a run's log

  /** Ids that only a run makes. */
  predicate Inner(id: OperationId) {
    !id.TurnOp? && !id.ModeStepOp? && !id.PendingOp?
  }

  ghost predicate AllInner(events: seq<Event>) {
    forall e | e in events && e.Operational() :: Inner(e.id)
  }

  lemma {:induction false} CompletionsInner(invocations: seq<Invocation>, completions: seq<Completion>)
    requires |invocations| == |completions|
    requires forall i | 0 <= i < |completions| :: completions[i].WellFormed()
    requires forall i | 0 <= i < |invocations| :: invocations[i].id.ToolOp?
    ensures AllInner(AllCompletionEvents(invocations, completions))
    decreases |invocations|
  {
    if invocations != [] {
      assert AllInner(CompletionEvents(invocations[0], completions[0]));
      CompletionsInner(invocations[1..], completions[1..]);
    }
  }

  lemma ServicesInner(cursor: Cursor, effect: Effect, result: EffectResult)
    requires Pairs(cursor, effect) && Serves(effect, result)
    ensures AllInner(result.events)
  {
    match effect
    case ExecuteTools(_, invocations, immediates) => ToolsInner(invocations, immediates, result);
    case AssembleContext(id, _, _, _) =>
      var replacements := ContextServed(effect, result);
      ContextInner(id, replacements);
    case RequestProvider(_, _, deferred) => ProviderInner(effect, result);
    case PrepareTools(_, batch) =>
  }

  lemma ContextInner(id: EffectId, replacements: nat)
    ensures AllInner(ContextEvents(id, replacements))
  {
  }

  lemma ProviderInner(effect: Effect, result: EffectResult)
    requires effect.RequestProvider? && Serves(effect, result) && Neutral(effect.deferred)
    ensures AllInner(result.events)
  {
  }

  lemma ToolsInner(invocations: seq<Invocation>, immediates: seq<Immediate>, result: EffectResult)
    requires ServesExecute(invocations, immediates, result)
    requires forall i | 0 <= i < |invocations| :: invocations[i].id.ToolOp?
    ensures AllInner(result.events)
  {
    var completions: seq<Completion> :|
      && |completions| == |invocations|
      && (forall i | 0 <= i < |completions| :: completions[i].WellFormed())
      && result.events == AllCompletionEvents(invocations, completions);
    CompletionsInner(invocations, completions);
  }

  ghost predicate AllKeyed(events: seq<Event>) {
    forall e | e in events && e.Operational() :: Keyed(e.id)
  }

  /** Events that close no interaction, with ids as the core makes them. */
  ghost predicate Plain(events: seq<Event>) {
    AllKeyed(events) && forall e | e in events :: !ClosesPending(e)
  }

  predicate NamedInteraction(result: EffectResult) {
    result.InteractionSuspended? ==> NonBlank(result.suspendedOn.interaction)
  }

  lemma TransitionPlain(cursor: Cursor, transition: Transition)
    requires transition.pending.Some? ==> NonBlank(transition.pending.value.interaction)
    ensures Plain(TransitionEvents(cursor, transition))
  {
  }

  lemma InnerConcat(first: seq<Event>, second: seq<Event>)
    requires AllInner(first) && AllInner(second)
    ensures AllInner(first + second)
  {
    hide Inner;
  }

  lemma {:induction false} UnclosedInner(ids: seq<OperationId>, closed: set<OperationId>, reason: string)
    requires forall i | 0 <= i < |ids| :: Inner(ids[i])
    ensures AllInner(UnclosedInvocations(ids, closed, reason))
  {
    if ids != [] {
      UnclosedInner(ids[1..], closed, reason);
    }
  }

  lemma PlainConcat(first: seq<Event>, second: seq<Event>)
    requires Plain(first) && Plain(second)
    ensures Plain(first + second)
  {
    hide ClosesPending, Keyed;
  }

  lemma InnerIsPlain(events: seq<Event>)
    requires AllInner(events)
    ensures Plain(events)
  {
  }

  /** The end of a run: its own events, the close of its step, and the transition. */
  lemma EndPlain(events: seq<Event>, closing: seq<Event>, cursor: Cursor, outcome: Transition)
    requires AllInner(events) && AllInner(closing)
    requires outcome.pending.Some? ==> NonBlank(outcome.pending.value.interaction)
    ensures Plain(events + closing + TransitionEvents(cursor, outcome))
  {
    hide *;
    InnerConcat(events, closing);
    InnerIsPlain(events + closing);
    TransitionPlain(cursor, outcome);
    PlainConcat(events + closing, TransitionEvents(cursor, outcome));
  }

  lemma FailurePlain(cursor: Cursor, effect: Effect, result: EffectResult)
    requires Pairs(cursor, effect) && result.EffectFailed? && AllInner(result.events)
    ensures Plain(AcceptFailure(cursor, result).events)
  {
    if result.kind.ContextLimit? && !cursor.compactRetryUsed {
      RetryPlain(cursor, result);
    } else {
      FinalFailurePlain(cursor, effect, result);
    }
  }

  lemma RetryPlain(cursor: Cursor, result: EffectResult)
    requires result.EffectFailed? && result.kind.ContextLimit? && !cursor.compactRetryUsed && AllInner(result.events)
    ensures Plain(AcceptFailure(cursor, result).events)
  {
    var next := AcceptFailure(cursor, result);
    var last := [next.events[|result.events|], next.events[|result.events| + 1]];
    assert next.events == result.events + last && AllInner(last);
    hide *;
    InnerConcat(result.events, last);
    InnerIsPlain(result.events + last);
  }

  lemma FinalFailurePlain(cursor: Cursor, effect: Effect, result: EffectResult)
    requires Pairs(cursor, effect) && result.EffectFailed? && AllInner(result.events)
    requires !(result.kind.ContextLimit? && !cursor.compactRetryUsed)
    ensures Plain(AcceptFailure(cursor, result).events)
  {
    var reason := FailureReason(result.kind);
    var unclosed := UnclosedOperations(cursor, ClosedBy(result.events), ReasonText(reason));
    FailureEventsInner(cursor, effect, ClosedBy(result.events), ReasonText(reason));
    hide UnclosedOperations, ClosedBy, ReasonText, Pairs, AllInner, Plain, TransitionEvents, FailureReason;
    InnerConcat(result.events, unclosed);
    EndPlain(result.events + unclosed, [StepFinished(cursor, ReasonText(reason), reason.Aborted?)], cursor,
             AcceptFailure(cursor, result).outcome.value);
  }

  lemma FailureEventsInner(cursor: Cursor, effect: Effect, closed: set<OperationId>, reason: string)
    requires Pairs(cursor, effect)
    ensures AllInner(UnclosedOperations(cursor, closed, reason))
    ensures forall interrupted | interrupted in [true, false] :: AllInner([StepFinished(cursor, reason, interrupted)])
  {
    assert forall i | 0 <= i < |RunningTools(cursor)| :: Inner(RunningTools(cursor)[i]);
    UnclosedInner(RunningTools(cursor), closed, reason);
    assert AllInner(UnclosedEffect(cursor, closed, reason));
    InnerConcat(UnclosedEffect(cursor, closed, reason), UnclosedInvocations(RunningTools(cursor), closed, reason));
  }

  lemma AdvancePlain(cursor: Cursor, observations: seq<Observation>, events: seq<Event>, tokens: seq<int>,
                     closeTools: bool)
    requires cursor.expected.Some? && AllInner(events)
    ensures Plain(AdvanceAfterTools(cursor, observations, events, tokens, closeTools).events)
  {
    var next := AdvanceAfterTools(cursor, observations, events, tokens, closeTools);
    var tools := if closeTools then [EffectFinished(cursor, ToolRun)] else [];
    StepEventsInner(cursor, next.cursor);
    hide NextMode, TransitionEvents, Plain, AllInner, StepFinished, EffectFinished, StepOpened, EffectStarted;
    NoneInner();
    InnerConcat(events, tools);
    if next.outcome.Some? {
      var closing := [StepFinished(cursor, "completed", false)];
      EndPlain(events + tools, closing, cursor, next.outcome.value);
    } else {
      var more := [StepFinished(cursor, "tool_calls", false)]
                  + (StepOpened(next.cursor) + [EffectStarted(next.cursor, ContextAssembly)]);
      InnerConcat(events + tools, more);
      InnerIsPlain(events + tools + more);
      assert next.events == events + tools + more;
    }
  }

  lemma NoneInner()
    ensures AllInner([])
  {
  }

  /** The events between one step and the next. */
  lemma StepEventsInner(cursor: Cursor, next: Cursor)
    requires cursor.expected.Some?
    ensures AllInner([EffectFinished(cursor, ToolRun)])
    ensures AllInner([StepFinished(cursor, "completed", false)])
    ensures next.expected.Some? ==>
              AllInner([StepFinished(cursor, "tool_calls", false)]
                       + (StepOpened(next) + [EffectStarted(next, ContextAssembly)]))
  {
  }

  lemma PreparedPlain(cursor: Cursor, result: EffectResult)
    requires cursor.expected.Some? && result.ToolsPrepared? && AllInner(result.events)
    requires forall i | 0 <= i < |result.invocations| :: result.invocations[i].id.ToolOp?
    ensures Plain(AcceptPrepared(cursor, result).events)
  {
    var finished := [EffectFinished(cursor, ToolPreparation)];
    assert AllInner(finished);
    InnerConcat(result.events, finished);
    hide AdvanceAfterTools, ImmediateObservations, Plain;
    if result.invocations == [] {
      AdvancePlain(cursor, ImmediateObservations(result.immediates), result.events + finished, result.tokens, false);
    } else {
      var next := AcceptPrepared(cursor, result);
      var more := InvocationsStarted(next.cursor, result.invocations) + [EffectStarted(next.cursor, ToolRun)];
      assert AllInner(more);
      InnerConcat(result.events + finished, more);
      InnerIsPlain(result.events + finished + more);
      assert next.events == result.events + finished + more;
    }
  }

  lemma ProviderPlain(cursor: Cursor, result: EffectResult)
    requires result.ProviderCompleted? && AllInner(result.events)
    ensures Plain(AcceptProvider(cursor, result).events)
  {
    var next := AcceptProvider(cursor, result);
    hide Plain, Inner, TransitionEvents;
    var said := [next.events[|result.events|]];
    InnerConcat(result.events, said);
    if next.outcome.Some? {
      FinalReplyPlain(cursor, ReasonText(next.outcome.value.reason));
      EndPlain(result.events + said, [StepFinished(cursor, ReasonText(next.outcome.value.reason), false)], cursor,
               next.outcome.value);
    } else {
      var more := ToolPlanned(result.reply.actions) + [EffectStarted(next.cursor, ToolPreparation)];
      EffectStartInner(next.cursor, ToolPreparation);
      InnerConcat(ToolPlanned(result.reply.actions), [EffectStarted(next.cursor, ToolPreparation)]);
      InnerConcat(result.events + said, more);
      InnerIsPlain(result.events + said + more);
      assert next.events == result.events + said + more;
    }
  }

  lemma EffectStartInner(cursor: Cursor, kind: OperationKind)
    requires cursor.expected.Some?
    ensures AllInner([EffectStarted(cursor, kind)])
  {
  }

  lemma FinalReplyPlain(cursor: Cursor, reason: string)
    ensures AllInner([StepFinished(cursor, reason, false)])
  {
  }

  lemma InteractionPlain(cursor: Cursor, result: EffectResult)
    requires cursor.expected.Some? && result.InteractionSuspended? && AllInner(result.events) && NamedInteraction(result)
    ensures Plain(AcceptInteraction(cursor, result).events)
  {
    var outcome := AcceptInteraction(cursor, result).outcome.value;
    var closing := [StepFinished(cursor, ReasonText(outcome.reason), false),
                    EffectFinished(cursor, PhaseOperation(cursor.phase))];
    assert AllInner(closing);
    EndPlain(result.events, closing, cursor, outcome);
  }

  lemma ResultPlain(cursor: Cursor, effect: Effect, result: EffectResult)
    requires Pairs(cursor, effect) && result.effect == effect.id
    requires AllInner(result.events) && NamedInteraction(result)
    requires result.ToolsPrepared? ==> forall i | 0 <= i < |result.invocations| :: result.invocations[i].id.ToolOp?
    ensures Accept(cursor, result).Ok? && Plain(Accept(cursor, result).value.events)
  {
    match result
    case ContextAssembled(_, _, _) =>
    case ProviderCompleted(_, _, _, _) => ProviderPlain(cursor, result);
    case ToolsPrepared(_, _, _, _, _) => PreparedPlain(cursor, result);
    case ToolsCompleted(_, observations, events, tokens) => AdvancePlain(cursor, observations, events, tokens, true);
    case InteractionSuspended(_, _, _, _) => InteractionPlain(cursor, result);
    case EffectFailed(_, _, _, _, _, _) => FailurePlain(cursor, effect, result);
  }

  lemma TickPlain(step: KernelStep, tick: Tick, limit: Option<int>, next: KernelStep)
    requires Shaped(step) && Fed(step, tick)
    requires Accept(step.cursor, LoopResult(step, tick, limit)) == Ok(next)
    ensures Plain(next.events)
  {
    if !tick.cancelledBefore {
      ServicesInner(step.cursor, step.effect.value, tick.result);
    }
    LoopResultCases(step, tick, limit);
    hide LoopResult, Serves, Accept;
    ResultPlain(step.cursor, step.effect.value, LoopResult(step, tick, limit));
  }

  // --------------------------------------------------- the main invariant

  /** The result that the loop hands on is the one delivered, if that is a suspension. */
  lemma SuspensionPasses(step: KernelStep, tick: Tick, limit: Option<int>)
    requires step.effect.Some? && !tick.cancelledBefore && tick.result.InteractionSuspended?
    ensures LoopResult(step, tick, limit) == tick.result
  {
  }

  lemma SuspensionKeeps(cursor: Cursor, result: EffectResult)
    requires result.InteractionSuspended? && Accept(cursor, result).Ok?
    ensures result.events <= Accept(cursor, result).value.events
  {
  }

  /** The interaction of a committed suspension is new, because the reducer took the question. */
  lemma TickIsNew(ledger: Ledger, asked: Asked, step: KernelStep, tick: Tick, limit: Option<int>, next: KernelStep)
    requires Shaped(step) && Fed(step, tick) && ClosedWereAsked(ledger, asked)
    requires Accept(step.cursor, LoopResult(step, tick, limit)) == Ok(next) && Admitted(asked, next.events).Some?
    ensures !tick.cancelledBefore ==> NewInteraction(ledger, tick.result)
  {
    if !tick.cancelledBefore && tick.result.InteractionSuspended? {
      SuspensionPasses(step, tick, limit);
      SuspensionKeeps(step.cursor, tick.result);
      var rest := next.events[|tick.result.events|..];
      assert next.events == tick.result.events + rest;
      SuspensionAsks(step, tick);
      CommittedIsNew(ledger, asked, tick.result, rest);
    }
  }

  lemma SuspensionAsks(step: KernelStep, tick: Tick)
    requires Fed(step, tick) && !tick.cancelledBefore && tick.result.InteractionSuspended?
    ensures Asks(tick.result.events, tick.result.suspendedOn.interaction)
  {
    hide Asks;
  }

  lemma PlainAnswers(events: seq<Event>)
    requires Plain(events)
    ensures AnswersFirst(events)
  {
    hide ClosesPending;
  }

  /** One committed turn of the loop: whatever happens in it, the next step leaves exactly
      its own operations open. */
  lemma CommittedTick(ledger: Ledger, asked: Asked, step: KernelStep, outside: set<OperationId>, tick: Tick,
                      limit: Option<int>, next: KernelStep)
    requires Shaped(step) && Tracks(ledger, step, outside) && Fed(step, tick) && ClosedWereAsked(ledger, asked)
    requires Accept(step.cursor, LoopResult(step, tick, limit)) == Ok(next) && Admitted(asked, next.events).Some?
    ensures Shaped(next) && Tracks(Replay(ledger, next.events), next, outside)
    ensures ClosedWereAsked(Replay(ledger, next.events), Admitted(asked, next.events).value)
  {
    hide *;
    TickIsNew(ledger, asked, step, tick, limit, next);
    TickTracks(ledger, step, outside, tick, limit);
    TickPlain(step, tick, limit, next);
    PlainAnswers(next.events);
    AnsweredKept(ledger, asked, next.events);
  }

  /** The open-operation invariant, at every committed step of every run: open are exactly
      the operations outside the run and those that the step itself leaves open. `base` and
      `asked` are what the log says before the run; that the events of the run are in the log
      means that the reducer has admitted them. */
  lemma {:induction false} OpenOperations(base: Ledger, asked: Asked, steps: seq<KernelStep>, ticks: seq<Tick>,
                                          limit: Option<int>, outside: set<OperationId>)
    requires IsRun(steps, ticks, limit) && Admitted(asked, Committed(steps)).Some?
    requires Shaped(steps[0]) && Tracks(Replay(base, steps[0].events), steps[0], outside)
    requires ClosedWereAsked(base, asked) && AnswersFirst(steps[0].events)
    ensures |steps| == |ticks| + 1 && Shaped(steps[|ticks|])
    ensures Tracks(Replay(base, Committed(steps)), steps[|ticks|], outside)
    ensures ClosedWereAsked(Replay(base, Committed(steps)), Admitted(asked, Committed(steps)).value)
    decreases |ticks|
  {
    var n := |ticks|;
    assert |steps| == n + 1;
    hide *;
    CommittedNext(steps);
    if n == 0 {
      AnsweredKept(base, asked, steps[0].events);
    } else {
      LastTurn(steps, ticks, limit);
      AdmittedConcat(asked, Committed(steps[..n]), steps[n].events);
      OpenOperations(base, asked, steps[..n], ticks[..n - 1], limit, outside);
      CommittedTick(Replay(base, Committed(steps[..n])), Admitted(asked, Committed(steps[..n])).value, steps[n - 1],
                    outside, ticks[n - 1], limit, steps[n]);
      ReplayConcat(base, Committed(steps[..n]), steps[n].events);
    }
  }
}
