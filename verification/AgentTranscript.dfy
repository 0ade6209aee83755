/** The conversation that a run writes to the log: what the assistant said, the calls it planned,
    and one result for each of them. */
module AgentTranscript {
  import opened Outcomes
  import opened Text
  import opened IndexSort
  import opened OperationIds
  import opened AgentEffects
  import opened OperationLedger
  import opened AgentKernel
  import opened AgentServices
  import opened AgentRun
  import opened AgentLoop
  import opened ToolPreparation
  import opened ToolExecution
  import opened ToolResults
  import opened ToolClearance
  import opened ToolConversation
  import opened AgentProgress
  import opened AgentFlow
  import opened AgentBatches

  predicate Spoken(event: Event) {
    event.AssistantMessage? || event.ToolCallPlanned? || event.ToolResult?
  }

  /** The part of a log that makes up the conversation. */
  function Transcript(events: seq<Event>): seq<Event> {
    if events == [] then []
    else Transcript(events[..|events| - 1]) + if Spoken(events[|events| - 1]) then [events[|events| - 1]] else []
  }

  lemma {:induction false} TranscriptConcat(a: seq<Event>, b: seq<Event>)
    ensures Transcript(a + b) == Transcript(a) + Transcript(b)
    decreases |b|
  {
    if b == [] {
      assert a + b == a;
    } else {
      var n := |b| - 1;
      assert (a + b)[..|a| + n] == a + b[..n];
      TranscriptConcat(a, b[..n]);
      hide Spoken;
    }
  }

  ghost predicate Silent(events: seq<Event>) {
    forall e | e in events :: !Spoken(e)
  }

  lemma {:induction false} SilentSaysNothing(events: seq<Event>)
    requires Silent(events)
    ensures Transcript(events) == []
    decreases |events|
  {
    if events != [] {
      SilentSaysNothing(events[..|events| - 1]);
    }
  }

  ghost predicate AllSpoken(events: seq<Event>) {
    forall e | e in events :: Spoken(e)
  }

  lemma {:induction false} SpokenIsKept(events: seq<Event>)
    requires AllSpoken(events)
    ensures Transcript(events) == events
    decreases |events|
  {
    if events != [] {
      SpokenIsKept(events[..|events| - 1]);
      assert events == events[..|events| - 1] + [events[|events| - 1]];
    }
  }

  // ------------------------------------------------------------ the kernel

  /** What a reply makes the assistant say. */
  function Said(cursor: Cursor, result: EffectResult): seq<Event> {
    if result.ProviderCompleted? then
      [AssistantMessage(MessageId(cursor.turn, cursor.step, cursor.attempt), result.parent, result.reply.content,
                        result.reply.actions)]
      + seq(|result.reply.actions|, i requires 0 <= i < |result.reply.actions| =>
              ToolCallPlanned(result.reply.actions[i].callId, result.reply.actions[i].name))
    else []
  }

  lemma {:induction false} SilentClosings(cursor: Cursor, ids: seq<OperationId>, closed: set<OperationId>, reason: string)
    ensures Silent(UnclosedInvocations(ids, closed, reason))
  {
    if ids != [] {
      SilentClosings(cursor, ids[1..], closed, reason);
    }
  }

  lemma {:induction false} SilentConcat(a: seq<Event>, b: seq<Event>)
    requires Silent(a) && Silent(b)
    ensures Silent(a + b)
  {
  }

  lemma SilentParts(cursor: Cursor, transition: Transition, closed: set<OperationId>, reason: string)
    ensures Silent(TransitionEvents(cursor, transition)) && Silent(StepOpened(cursor))
    ensures Silent(UnclosedOperations(cursor, closed, reason))
  {
    SilentClosings(cursor, RunningTools(cursor), closed, reason);
    hide RunningTools, UnclosedInvocations;
  }

  /** The events after those that came with the result, but for what the assistant says. */
  lemma AfterSaid(a: seq<Event>, said: seq<Event>, rest: seq<Event>)
    requires AllSpoken(said) && Silent(rest)
    ensures Transcript(a + said + rest) == Transcript(a) + said
  {
    TranscriptConcat(a + said, rest);
    TranscriptConcat(a, said);
    SpokenIsKept(said);
    SilentSaysNothing(rest);
  }

  lemma AfterNothing(a: seq<Event>, rest: seq<Event>)
    requires Silent(rest)
    ensures Transcript(a + rest) == Transcript(a)
  {
    TranscriptConcat(a, rest);
    SilentSaysNothing(rest);
  }

  /** The kernel adds to the conversation only what a reply says, and loses nothing of it. */
  lemma KernelSays(cursor: Cursor, result: EffectResult)
    requires Accept(cursor, result).Ok?
    ensures Transcript(Accept(cursor, result).value.events) == Transcript(result.events) + Said(cursor, result)
  {
    assert Transcript(result.events) + [] == Transcript(result.events);
    hide AcceptProvider, AcceptFailure, AdvanceAfterTools, Transcript, TransitionEvents, ImmediateObservations;
    match result
    case ContextAssembled(_, _, _) => AfterNothing(result.events, [EffectStarted(AcceptContext(cursor, result).cursor, ProviderRequest)]);
    case ProviderCompleted(_, _, _, _) => ReplySays(cursor, result);
    case ToolsPrepared(_, _, _, _, _) => PreparedSays(cursor, result);
    case ToolsCompleted(_, observations, events, tokens) => AdvanceSays(cursor, observations, events, tokens, true);
    case InteractionSuspended(_, _, _, _) => WaitSays(cursor, result);
    case EffectFailed(_, _, _, _, _, _) => FailureSays(cursor, result);
  }

  lemma WaitSays(cursor: Cursor, result: EffectResult)
    requires result.InteractionSuspended? && cursor.expected.Some?
    ensures Transcript(AcceptInteraction(cursor, result).events) == Transcript(result.events)
  {
    var next := AcceptInteraction(cursor, result);
    SilentParts(cursor, next.outcome.value, {}, "");
    hide TransitionEvents, Transcript;
    var rest := [StepFinished(cursor, ReasonText(next.outcome.value.reason), false),
                 EffectFinished(cursor, PhaseOperation(cursor.phase))];
    assert next.events == result.events + (rest + TransitionEvents(cursor, next.outcome.value));
    SilentConcat(rest, TransitionEvents(cursor, next.outcome.value));
    AfterNothing(result.events, rest + TransitionEvents(cursor, next.outcome.value));
  }

  lemma PreparedSays(cursor: Cursor, result: EffectResult)
    requires result.ToolsPrepared? && cursor.expected.Some?
    ensures Transcript(AcceptPrepared(cursor, result).events) == Transcript(result.events)
  {
    hide Transcript, AdvanceAfterTools, ImmediateObservations;
    var finished := [EffectFinished(cursor, ToolPreparation)];
    AfterNothing(result.events, finished);
    if result.invocations == [] {
      AdvanceSays(cursor, ImmediateObservations(result.immediates), result.events + finished, result.tokens, false);
    } else {
      var next := AcceptPrepared(cursor, result);
      var rest := InvocationsStarted(next.cursor, result.invocations) + [EffectStarted(next.cursor, ToolRun)];
      assert Silent(rest);
      hide InvocationsStarted;
      assert next.events == result.events + finished + rest;
      AfterNothing(result.events + finished, rest);
    }
  }

  lemma FailureSays(cursor: Cursor, result: EffectResult)
    requires result.EffectFailed?
    ensures Transcript(AcceptFailure(cursor, result).events) == Transcript(result.events)
  {
    var next := AcceptFailure(cursor, result);
    hide Transcript, ClosedBy, UnclosedOperations, TransitionEvents;
    if next.outcome.Some? {
      var reason := next.outcome.value.reason;
      var unclosed := UnclosedOperations(cursor, ClosedBy(result.events), ReasonText(reason));
      var finished := [StepFinished(cursor, ReasonText(reason), reason.Aborted?)];
      SilentParts(cursor, next.outcome.value, ClosedBy(result.events), ReasonText(reason));
      SilentConcat(unclosed, finished);
      SilentConcat(unclosed + finished, TransitionEvents(cursor, next.outcome.value));
      assert next.events == result.events + (unclosed + finished + TransitionEvents(cursor, next.outcome.value));
      AfterNothing(result.events, unclosed + finished + TransitionEvents(cursor, next.outcome.value));
    } else {
      var rest := next.events[|result.events|..];
      assert next.events == result.events + rest && Silent(rest);
      AfterNothing(result.events, rest);
    }
  }

  lemma AdvanceSays(cursor: Cursor, observations: seq<Observation>, events: seq<Event>, tokens: seq<int>, closeTools: bool)
    requires cursor.expected.Some?
    ensures Transcript(AdvanceAfterTools(cursor, observations, events, tokens, closeTools).events) == Transcript(events)
  {
    hide Transcript, NextMode, TransitionEvents, StepOpened;
    var finished := if closeTools then [EffectFinished(cursor, ToolRun)] else [];
    AfterNothing(events, finished);
    var next := AdvanceAfterTools(cursor, observations, events, tokens, closeTools);
    if next.outcome.Some? {
      var rest := LastEvents(cursor, next.outcome.value);
      assert next.events == events + finished + rest;
      AfterNothing(events + finished, rest);
    } else {
      var rest := EventsBetween(cursor, next.cursor);
      assert next.events == events + finished + rest;
      AfterNothing(events + finished, rest);
    }
  }

  lemma LastEvents(cursor: Cursor, outcome: Transition) returns (rest: seq<Event>)
    ensures rest == [StepFinished(cursor, "completed", false)] + TransitionEvents(cursor, outcome) && Silent(rest)
  {
    SilentParts(cursor, outcome, {}, "");
    hide TransitionEvents;
    SilentConcat([StepFinished(cursor, "completed", false)], TransitionEvents(cursor, outcome));
    rest := [StepFinished(cursor, "completed", false)] + TransitionEvents(cursor, outcome);
  }

  lemma EventsBetween(cursor: Cursor, next: Cursor) returns (rest: seq<Event>)
    requires next.expected.Some?
    ensures rest == [StepFinished(cursor, "tool_calls", false)] + (StepOpened(next) + [EffectStarted(next, ContextAssembly)])
    ensures Silent(rest)
  {
    SilentParts(next, Transition(Completed, "", None, "", 0), {}, "");
    hide StepOpened;
    var closing, opening := [StepFinished(cursor, "tool_calls", false)], [EffectStarted(next, ContextAssembly)];
    SilentConcat(StepOpened(next), opening);
    SilentConcat(closing, StepOpened(next) + opening);
    rest := closing + (StepOpened(next) + opening);
  }

  lemma ReplySays(cursor: Cursor, result: EffectResult)
    requires result.ProviderCompleted?
    ensures Transcript(AcceptProvider(cursor, result).events) == Transcript(result.events) + Said(cursor, result)
  {
    var rest := ReplyRest(cursor, result);
    var said := Said(cursor, result);
    assert AllSpoken(said);
    hide AcceptProvider, Said, AllSpoken, Silent, Transcript;
    AfterSaid(result.events, said, rest);
  }

  lemma ReplyRest(cursor: Cursor, result: EffectResult) returns (rest: seq<Event>)
    requires result.ProviderCompleted?
    ensures Silent(rest) && AcceptProvider(cursor, result).events == result.events + Said(cursor, result) + rest
  {
    var next := AcceptProvider(cursor, result);
    if next.outcome.Some? {
      SilentParts(cursor, next.outcome.value, {}, "");
      rest := [StepFinished(cursor, ReasonText(next.outcome.value.reason), false)] + TransitionEvents(cursor, next.outcome.value);
      hide TransitionEvents, IsLength, Strip, ReasonText;
    } else {
      hide IsLength, Strip, ToolPlanned, CallIds;
      rest := [EffectStarted(next.cursor, ToolPreparation)];
    }
  }

  // ---------------------------------------------------------- the services

  function ResultOf(action: ToolAction, observation: Observation): Event {
    ToolResult(action.callId, action.name, observation)
  }

  function ImmediateResults(immediates: seq<Immediate>): seq<Event> {
    seq(|immediates|, i requires 0 <= i < |immediates| => ResultOf(immediates[i].original, immediates[i].observation))
  }

  lemma ImmediateSays(x: Immediate)
    ensures Transcript(ImmediateEvents(x)) == [ResultOf(x.original, x.observation)]
  {
    var said := [ResultOf(x.original, x.observation)];
    assert AllSpoken(said);
    SpokenIsKept(said);
    if x.observation.ErrorKind() == "permission_denied" {
      SilentSaysNothing([StateEvent("interaction")]);
      TranscriptConcat([StateEvent("interaction")], said);
    } else {
      assert ImmediateEvents(x) == said;
    }
  }

  /** A preparation reports the result of each action that it settles itself. */
  lemma {:induction false} PreparationSays(world: World, batch: PrepareBatch, handlers: Handlers, i: nat, progress: Progress, base: nat)
    requires base <= |progress.immediate| && Transcript(progress.events) == ImmediateResults(progress.immediate[base..])
    ensures var later := PrepareFrom(world, batch, handlers, i, progress).progress;
            base <= |later.immediate| && Transcript(later.events) == ImmediateResults(later.immediate[base..])
    decreases |batch.actions| - i
  {
    hide OutcomeAt, Transcript, ImmediateEvents;
    if i < |batch.actions| {
      var outcome := OutcomeAt(world, batch, i, handlers);
      if !outcome.Waiting? {
        if outcome.Done? {
          ImmediateSays(outcome.immediate);
          TranscriptConcat(progress.events, ImmediateEvents(outcome.immediate));
          assert (progress.immediate + [outcome.immediate])[base..] == progress.immediate[base..] + [outcome.immediate];
        }
        PreparationSays(world, batch, handlers, i + 1, Add(progress, outcome), base);
      }
    }
  }

  function EntryResults(entries: seq<(nat, Entry)>): seq<Event> {
    seq(|entries|, i requires 0 <= i < |entries| =>
      ResultOf(entries[i].1.invocation.original, entries[i].1.completion.observation))
  }

  lemma CompletionSays(invocation: Invocation, completion: Completion)
    ensures Transcript(CompletionEvents(invocation, completion)) == [ResultOf(invocation.original, completion.observation)]
  {
    var said := [ResultOf(invocation.original, completion.observation)];
    var rest := (if completion.replaced then [StateEvent("content_replacement")] else [])
                + (if completion.patch.Some? then PatchEvents(completion.patch.value) else [])
                + [ToolClosed(invocation.id, completion.observation)];
    assert CompletionEvents(invocation, completion) == [] + said + rest;
    assert AllSpoken(said) && Silent(rest);
    AfterSaid([], said, rest);
  }

  /** An execution reports the result of each invocation once, in source order. */
  lemma {:induction false} ExecutionSays(entries: seq<(nat, Entry)>)
    ensures Transcript(EntryEvents(entries)) == EntryResults(entries)
  {
    if entries != [] {
      hide Transcript, CompletionEvents;
      CompletionSays(entries[0].1.invocation, entries[0].1.completion);
      TranscriptConcat(CompletionEvents(entries[0].1.invocation, entries[0].1.completion), EntryEvents(entries[1..]));
      ExecutionSays(entries[1..]);
      assert EntryResults(entries) == [ResultOf(entries[0].1.invocation.original, entries[0].1.completion.observation)]
                                      + EntryResults(entries[1..]);
    } else {
      assert EntryEvents(entries) == [] && Transcript([]) == [];
    }
  }

  // ------------------------------------------------------ one result for each

  function PairResults(pairs: seq<(ToolAction, Observation)>): seq<Event> {
    seq(|pairs|, k requires 0 <= k < |pairs| => ResultOf(pairs[k].0, pairs[k].1))
  }

  function SlotResult(slot: Slot): Event {
    ResultOf(slot.1.0, slot.1.1)
  }

  /** The results that a batch reports are those of its pairs, each once. */
  lemma SlotsSay(slots: seq<Slot>)
    ensures multiset(Mapped(slots, SlotResult)) == multiset(PairResults(Values(ByIndex(slots))))
  {
    ByIndexSorts(slots);
    PermutedMap(ByIndex(slots), slots, SlotResult);
    assert Mapped(ByIndex(slots), SlotResult) == PairResults(Values(ByIndex(slots)));
  }

  lemma ExecutedSaysOnce(invocations: seq<Invocation>, immediates: seq<Immediate>, effect: EffectId, entries: seq<(nat, Entry)>)
    requires AscendingInvocations(invocations) && multiset(Keys(entries)) == multiset(Indexed(invocations))
    ensures var pairs := ToolResultPairs(ExecuteTools(effect, invocations, immediates), Collect(effect, immediates, entries));
            multiset(ImmediateResults(immediates) + EntryResults(ByIndex(entries))) == multiset(PairResults(pairs))
  {
    hide ToolResultPairs, Collect, Keys, Indexed, ByIndex;
    PairsAreSorted(effect, invocations, immediates, entries);
    var slots := ImmediateSlots(immediates) + EntrySlots(ByIndex(entries));
    SlotsSay(slots);
    assert Mapped(slots, SlotResult) == ImmediateResults(immediates) + EntryResults(ByIndex(entries));
  }

  lemma PreparedSaysOnce(effect: Effect, result: EffectResult)
    requires result.ToolsPrepared? && result.invocations == []
    ensures multiset(ImmediateResults(result.immediates)) == multiset(PairResults(ToolResultPairs(effect, result)))
  {
    var slots := ImmediateSlots(result.immediates);
    assert slots == seq(|result.immediates|, i requires 0 <= i < |result.immediates| =>
        (result.immediates[i].sourceIndex, (result.immediates[i].original, result.immediates[i].observation)));
    SlotsSay(slots);
    hide ByIndex;
    forall i | 0 <= i < |slots| ensures Mapped(slots, SlotResult)[i] == ImmediateResults(result.immediates)[i] {
    }
    assert Mapped(slots, SlotResult) == ImmediateResults(result.immediates);
  }

  // ---------------------------------------------------------------- in a run

  /** A turn writes to the log what its result brought, and what a reply says. */
  lemma TurnSays(step: KernelStep, tick: Tick, limit: Option<int>, next: KernelStep)
    requires step.effect.Some? && !tick.cancelledBefore && tick.result.effect == step.effect.value.id
    requires Accept(step.cursor, LoopResult(step, tick, limit)) == Ok(next)
    ensures Transcript(next.events) == Transcript(tick.result.events) + Said(step.cursor, tick.result)
  {
    StoppedKeeps(step, tick, limit);
    LoopResultCases(step, tick, limit);
    ReplyPasses(step, tick, limit);
    hide LoopResult, Accept, Transcript, Said;
    KernelSays(step.cursor, LoopResult(step, tick, limit));
  }

  lemma ReplyPasses(step: KernelStep, tick: Tick, limit: Option<int>)
    requires step.effect.Some? && !tick.cancelledBefore
    ensures Said(step.cursor, LoopResult(step, tick, limit)) == Said(step.cursor, tick.result)
  {
    hide Interrupted, SafetyLimitReached;
  }

  lemma PreparedTurnSays(step: KernelStep, tick: Tick, around: Surroundings, limit: Option<int>, next: KernelStep)
    requires step.effect.Some? && step.effect.value.PrepareTools? && Serviced(step, tick, around) && !tick.cancelledBefore
    requires Accept(step.cursor, LoopResult(step, tick, limit)) == Ok(next) && tick.result.ToolsPrepared?
    ensures ImmediateResults(step.effect.value.batch.immediatePrefix) + Transcript(next.events)
         == ImmediateResults(tick.result.immediates)
  {
    var batch := step.effect.value.batch;
    hide LoopResult, Accept, Transcript, ImmediateResults, InteractionId, PrepareFrom, Executed;
    TurnSays(step, tick, limit, next);
    NoneSaid();
    PreparationSays(around.world, batch, around.handlers, batch.startIndex, Prefix(batch), |batch.immediatePrefix|);
    PrefixStays(around.world, batch, around.handlers);
    var immediates := PrepareAll(around.world, batch, around.handlers).progress.immediate;
    JoinedResults(batch.immediatePrefix, immediates);
    assert Transcript(tick.result.events) + [] == Transcript(tick.result.events);
  }

  lemma NoneSaid()
    ensures Transcript([]) == [] && ImmediateResults([]) == []
  {
  }

  lemma JoinedResults(front: seq<Immediate>, all: seq<Immediate>)
    requires front <= all
    ensures ImmediateResults(front) + ImmediateResults(all[|front|..]) == ImmediateResults(all)
  {
  }

  lemma PrefixStays(world: World, batch: PrepareBatch, handlers: Handlers)
    ensures batch.immediatePrefix <= PrepareAll(world, batch, handlers).progress.immediate
    ensures batch.immediatePrefix[|batch.immediatePrefix|..] == []
  {
    hide PrepareFrom;
    Extends(world, batch, handlers, batch.startIndex, Prefix(batch));
  }

  /** What follows from a preparation that has settled every action itself. */
  lemma SettledOnce(steps: seq<KernelStep>, ticks: seq<Tick>, limit: Option<int>, around: seq<Surroundings>, j: nat)
    requires IsServed(steps, ticks, limit, around) && j < |ticks| && !ticks[j].cancelledBefore
    requires steps[j].effect.Some? && steps[j].effect.value.PrepareTools?
    requires ticks[j].result.ToolsPrepared? && ticks[j].result.invocations == []
    ensures |steps| == |ticks| + 1
    ensures multiset(ImmediateResults(steps[j].effect.value.batch.immediatePrefix) + Transcript(steps[j + 1].events))
         == multiset(PairResults(ToolResultPairs(steps[j].effect.value, ticks[j].result)))
  {
    hide *;
    LastServed(steps, ticks, limit, around, j + 1);
    PreparedTurnSays(steps[j], ticks[j], around[j], limit, steps[j + 1]);
    PreparedSaysOnce(steps[j].effect.value, ticks[j].result);
  }

  lemma ExecutedTurnSays(step: KernelStep, tick: Tick, around: Surroundings, limit: Option<int>, next: KernelStep)
    requires Shaped(step) && step.effect.Some? && step.effect.value.ExecuteTools? && Serviced(step, tick, around)
    requires !tick.cancelledBefore && Accept(step.cursor, LoopResult(step, tick, limit)) == Ok(next)
    ensures multiset(ImmediateResults(step.effect.value.immediates) + Transcript(next.events))
         == multiset(PairResults(ToolResultPairs(step.effect.value, tick.result)))
  {
    var ExecuteTools(id, invocations, immediates) := step.effect.value;
    var tools := around.tools;
    var groups :| Partitions(groups, invocations) && PatchesOnly(RunGroups(tools, groups, false))
                  && tick.result == Collect(id, immediates, RunGroups(tools, groups, false));
    var entries := RunGroups(tools, groups, false);
    assert AscendingInvocations(invocations);
    assert tick.result.events == EntryEvents(ByIndex(entries));
    hide Serviced, LoopResult, Accept, Transcript, RunGroups, Collect, ToolResultPairs, ImmediateResults, PairResults, ByIndex;
    RunPermutes(tools, groups, false);
    TurnSays(step, tick, limit, next);
    ExecutionSays(ByIndex(entries));
    assert EntryResults(ByIndex(entries)) + [] == EntryResults(ByIndex(entries));
    ExecutedSaysOnce(invocations, immediates, id, entries);
  }

  lemma Handed(step: KernelStep, tick: Tick, next: KernelStep)
    requires step.effect.Some? && step.effect.value.PrepareTools? && next.effect.Some? && NextEffect(step, tick, next)
    requires tick.result.ToolsPrepared? && tick.result.invocations != []
    ensures next.effect.value.ExecuteTools?
    ensures next.effect.value.invocations == tick.result.invocations && next.effect.value.immediates == tick.result.immediates
  {
  }

  lemma PreparedIsSlotted(step: KernelStep, tick: Tick, around: Surroundings) returns (progress: Progress)
    requires step.effect.Some? && step.effect.value.PrepareTools? && Batched(step) && Serviced(step, tick, around)
    requires !tick.cancelledBefore && tick.result.ToolsPrepared?
    ensures var batch := step.effect.value.batch; Slotted(batch, |batch.actions|, progress)
    ensures tick.result.invocations == progress.prepared && tick.result.immediates == progress.immediate
  {
    var batch := step.effect.value.batch;
    hide Slotted, PrepareFrom, Sound;
    SittingPlaces(Sitting(around.world, around.handlers, batch));
    progress := PrepareAll(around.world, batch, around.handlers).progress;
  }

  lemma PairsOfBatch(batch: PrepareBatch, progress: Progress, step: KernelStep, tick: Tick, around: Surroundings)
    requires Slotted(batch, |batch.actions|, progress)
    requires step.effect.Some? && step.effect.value.ExecuteTools? && Serviced(step, tick, around) && !tick.cancelledBefore
    requires step.effect.value.invocations == progress.prepared && step.effect.value.immediates == progress.immediate
    ensures var pairs := ToolResultPairs(step.effect.value, tick.result);
            |pairs| == |batch.actions| && forall k | 0 <= k < |pairs| :: pairs[k].0 == batch.actions[k]
  {
    var ExecuteTools(id, invocations, immediates) := step.effect.value;
    var tools := around.tools;
    var groups :| Partitions(groups, invocations) && PatchesOnly(RunGroups(tools, groups, false))
                  && tick.result == Collect(id, immediates, RunGroups(tools, groups, false));
    hide Slotted, RunGroups, Collect, ToolResultPairs;
    RunPermutes(tools, groups, false);
    PairsAreOwn(batch, progress, id, RunGroups(tools, groups, false));
  }

  /** In every run in which a prepared batch is executed, the log holds one result for each of
      its actions: those settled before the run, those that the preparation settled and those of
      the executed invocations are together the results of the batch, each once and under the
      call that asked for it. */
  lemma EachCallAnswered(steps: seq<KernelStep>, ticks: seq<Tick>, limit: Option<int>, around: seq<Surroundings>, j: nat)
    requires IsServed(steps, ticks, limit, around) && j + 1 < |ticks|
    requires Shaped(steps[0]) && Batched(steps[0]) && (steps[0].effect.Some? ==> Steady(steps[0].cursor))
    requires !ticks[j].cancelledBefore && !ticks[j + 1].cancelledBefore
    requires steps[j].effect.Some? && steps[j].effect.value.PrepareTools?
    requires ticks[j].result.ToolsPrepared? && ticks[j].result.invocations != []
    ensures |steps| == |ticks| + 1 && steps[j + 1].effect.Some?
    ensures var batch, pairs := steps[j].effect.value.batch, ToolResultPairs(steps[j + 1].effect.value, ticks[j + 1].result);
            && |pairs| == |batch.actions|
            && (forall k | 0 <= k < |pairs| :: pairs[k].0 == batch.actions[k])
            && multiset(ImmediateResults(batch.immediatePrefix) + Transcript(steps[j + 1].events) + Transcript(steps[j + 2].events))
               == multiset(PairResults(pairs))
  {
    hide *;
    LastServed(steps, ticks, limit, around, j + 1);
    LastServed(steps, ticks, limit, around, j + 2);
    ServedIsRun(steps, ticks, limit, around, j + 1);
    ServedIsRun(steps, ticks, limit, around, j);
    ServicedIsFed(steps[j], ticks[j], around[j]);
    EffectsFollow(steps[j], ticks[j], limit, steps[j + 1]);
    Handed(steps[j], ticks[j], steps[j + 1]);
    PreparedTurnSays(steps[j], ticks[j], around[j], limit, steps[j + 1]);
    ExecutedTurnSays(steps[j + 1], ticks[j + 1], around[j + 1], limit, steps[j + 2]);
    var progress := PreparedIsSlotted(steps[j], ticks[j], around[j]);
    PairsOfBatch(steps[j].effect.value.batch, progress, steps[j + 1], ticks[j + 1], around[j + 1]);
  }
}
