/** Runs of the turn machine: which operations are open at every committed step. */
module AgentRun {
  import opened Outcomes
  import opened Text
  import opened OperationIds
  import opened AgentEffects
  import opened Interactions
  import opened InteractionLedger
  import opened OperationLedger
  import opened AgentKernel
  import opened AgentServices

  // ------------------------------------------------- what a step leaves open

  /** Cursor and effect agree, in a step that hands out an effect. */
  ghost predicate Pairs(cursor: Cursor, effect: Effect) {
    && cursor.expected == Some(effect.id)
    && effect.id.turn == cursor.turn && effect.id.step == cursor.step && effect.id.attempt == cursor.attempt
    && match effect
       case AssembleContext(id, mode, workflow, force) =>
         && cursor.phase.InContext? && id.kind == (if force then CompactContext else Context)
         && mode == cursor.mode && workflow == cursor.workflow
       case RequestProvider(id, stream, deferred) =>
         cursor.phase.InProvider? && id.kind.Provider? && stream == cursor.stream && Neutral(deferred)
       case PrepareTools(id, batch) =>
         && cursor.phase.InToolPrepare? && id.kind.ToolPrepare?
         && cursor.message == Some(batch.message) && NotAhead(cursor, batch.message)
         && batch.actions != [] && cursor.callIds == CallIds(batch.actions)
         && batch.mode == cursor.mode && batch.workflow == cursor.workflow
       case ExecuteTools(id, invocations, _) =>
         && cursor.phase.InToolExecute? && id.kind.Tools?
         && cursor.message.Some? && Named(invocations, cursor.message.value)
         && cursor.invocationIds == InvocationIds(invocations)
         && |cursor.callIds| == |cursor.invocationIds|
         && invocations != []
  }

  /** A batch comes from this step or, when it is resumed, from an earlier one. */
  predicate NotAhead(cursor: Cursor, message: MessageId) {
    message.turn == cursor.turn ==> message.step <= cursor.step
  }

  ghost predicate Shaped(step: KernelStep) {
    if step.effect.Some? then step.outcome.None? && Pairs(step.cursor, step.effect.value)
    else step.outcome.Some? && step.cursor.expected.None?
  }

  function Ids(invocations: seq<Invocation>): set<OperationId> {
    set i | 0 <= i < |invocations| :: invocations[i].id
  }

  /** The operations that are open after the step: its step, its effect and, while tools
      run, their invocations; at an outcome only the interaction waited for. */
  function OpenAt(step: KernelStep): set<OperationId> {
    if step.effect.Some? then
      {step.cursor.StepId(), EffectOp(step.effect.value.id)}
      + (if step.effect.value.ExecuteTools? then Ids(step.effect.value.invocations) else {})
    else if step.outcome.Some? && step.outcome.value.pending.Some? then
      {PendingOp(step.outcome.value.pending.value.interaction)}
    else {}
  }

  // ------------------------------------------------------- order and freshness

  function Rank(kind: EffectKind): nat {
    match kind
    case Context => 0
    case Provider => 1
    case CompactContext => 2
    case ToolPrepare => 3
    case Tools => 4
  }

  /** The order in which one run hands out its effects. */
  predicate Before(a: EffectId, b: EffectId) {
    || a.step < b.step
    || (a.step == b.step && (a.attempt < b.attempt || (a.attempt == b.attempt && Rank(a.kind) < Rank(b.kind))))
  }

  /** Ids that belong to the rest of the run, including the step the cursor is in. */
  predicate Reserved(cursor: Cursor, id: OperationId) {
    match id
    case StepOp(turn, step) => turn == cursor.turn && step >= cursor.step
    case EffectOp(effect) => effect.turn == cursor.turn && effect.step >= cursor.step
    case SnapshotOp(context) => context.turn == cursor.turn && context.step >= cursor.step
    case SavepointOp(turn, step, _) => turn == cursor.turnId && step >= cursor.step
    case ToolOp(message, _) =>
      (message.turn == cursor.turn && message.step >= cursor.step) || cursor.message == Some(message)
    case _ => false
  }

  /** Ids that may still be started, so must not have been used yet. */
  predicate Unused(cursor: Cursor, id: OperationId) {
    match id
    case StepOp(turn, step) => turn == cursor.turn && step > cursor.step
    case EffectOp(effect) =>
      effect.turn == cursor.turn && cursor.expected.Some? && Before(cursor.expected.value, effect)
    case ToolOp(message, _) =>
      || (message.turn == cursor.turn && message.step > cursor.step)
      || (message.turn == cursor.turn && message.step == cursor.step &&
          ((cursor.phase.InContext? && message.attempt > cursor.attempt) ||
           (cursor.phase.InProvider? && message.attempt >= cursor.attempt)))
      || (cursor.phase.InToolPrepare? && cursor.message == Some(message))
    case _ => false
  }

  /** Operations that one batch of events both starts and finishes. */
  predicate Transient(id: OperationId) {
    id.SnapshotOp? || id.SavepointOp? || id.PatchOp?
  }

  /** Operations that the run leaves alone: none of its own, and no patch, whose id a later
      call may take again. */
  ghost predicate Apart(cursor: Cursor, outside: set<OperationId>) {
    forall id | id in outside :: !Reserved(cursor, id) && !id.PatchOp?
  }

  /** The log so far, seen from a step with an effect: open are exactly the step's own
      operations and those of `outside`, which the run does not own. */
  ghost predicate Tracks(ledger: Ledger, step: KernelStep, outside: set<OperationId>) {
    && ledger.open == outside + OpenAt(step)
    && (step.effect.Some? ==>
        && Apart(step.cursor, outside)
        && (forall id | ledger.Knows(id) :: !Unused(step.cursor, id)))
  }

  // ------------------------------------------------------- blocks of events

  lemma StepOpening(ledger: Ledger, cursor: Cursor, kind: OperationKind)
    requires cursor.expected.Some?
    requires cursor.StepId() !in ledger.closed && EffectOp(cursor.expected.value) !in ledger.closed
    ensures Replay(ledger, StepOpened(cursor) + [EffectStarted(cursor, kind)])
         == ledger.(open := ledger.open + {cursor.StepId(), EffectOp(cursor.expected.value)})
  {
    var opening := StepOpened(cursor);
    ReplayConcat(ledger, opening, [EffectStarted(cursor, kind)]);
    ReplayTwo(ledger, opening[0], opening[1]);
    ReplayOne(Replay(ledger, opening), EffectStarted(cursor, kind));
  }

  /** An operation opening and closed in one batch leaves no trace but its id. */
  lemma Paired(ledger: Ledger, id: OperationId, opening: Event, middle: Event, closing: Event)
    requires opening.OperationStarted? && opening.id == id
    requires closing.Closing() && closing.id == id
    requires !middle.Operational()
    requires id !in ledger.open
    ensures Replay(ledger, [opening, middle, closing]) == ledger.(closed := ledger.closed + {id})
  {
    ReplayThree(ledger, opening, middle, closing);
  }

  /** The events of a transition, seen by the ledger. */
  lemma TransitionLedger(ledger: Ledger, cursor: Cursor, transition: Transition)
    requires SavepointOp(cursor.turnId, cursor.step, transition.reason) !in ledger.open
    ensures var after := Replay(ledger, TransitionEvents(cursor, transition));
            && after.open == ledger.open +
                 (if transition.pending.Some? && transition.pending.value.interaction != ""
                     && PendingOp(transition.pending.value.interaction) !in ledger.closed
                  then {PendingOp(transition.pending.value.interaction)} else {})
  {
    var opening, saved := PendingOpened(cursor, transition), Savepoint(cursor, transition);
    ReplayConcat(ledger, opening, saved);
    if opening != [] {
      ReplayOne(ledger, opening[0]);
    }
    var middle := Replay(ledger, opening);
    Paired(middle, saved[0].id, saved[0], saved[1], saved[2]);
  }

  lemma CloseOne(ledger: Ledger, events: seq<Event>, closing: Event)
    requires closing.Closing()
    ensures Replay(ledger, events + [closing])
         == Ledger(Replay(ledger, events).open - {closing.id}, Replay(ledger, events).closed + {closing.id})
  {
    ReplayConcat(ledger, events, [closing]);
    ReplayOne(Replay(ledger, events), closing);
  }

  lemma OpenOne(ledger: Ledger, events: seq<Event>, opening: Event)
    requires opening.OperationStarted? && opening.id !in Replay(ledger, events).closed
    ensures Replay(ledger, events + [opening])
         == Ledger(Replay(ledger, events).open + {opening.id}, Replay(ledger, events).closed)
  {
    ReplayConcat(ledger, events, [opening]);
    ReplayOne(Replay(ledger, events), opening);
  }

  lemma ContextLedger(ledger: Ledger, id: EffectId, replacements: nat)
    requires SnapshotOp(id) !in ledger.open
    ensures Replay(ledger, ContextEvents(id, replacements))
         == Ledger(ledger.open - {EffectOp(id)}, ledger.closed + {EffectOp(id), SnapshotOp(id)})
  {
    var first := [OperationFinished(EffectOp(id), ContextAssembly)];
    var pair := [OperationStarted(SnapshotOp(id), ContextSnapshot, id.turn, id.step, ""),
                 StateEvent("context_snapshot"),
                 OperationFinished(SnapshotOp(id), ContextSnapshot)];
    var tail := seq(replacements, _ => StateEvent("content_replacement"));
    ReplayConcat(ledger, first + pair, tail);
    ReplayConcat(ledger, first, pair);
    ReplayOne(ledger, first[0]);
    Paired(Replay(ledger, first), SnapshotOp(id), pair[0], pair[1], pair[2]);
    ReplayNeutral(Replay(ledger, first + pair), tail);
  }

  function PatchIds(completions: seq<Completion>): set<OperationId> {
    set i | 0 <= i < |completions| && completions[i].patch.Some? :: completions[i].patch.value
  }

  lemma CompletionLedger(ledger: Ledger, invocation: Invocation, completion: Completion)
    requires completion.WellFormed() && !invocation.id.PatchOp?
    requires forall id | id in ledger.open :: !id.PatchOp?
    ensures var after := Replay(ledger, CompletionEvents(invocation, completion));
            && after.open == ledger.open - {invocation.id}
            && after.closed == ledger.closed + {invocation.id}
                 + (if completion.patch.Some? then {completion.patch.value} else {})
  {
    var head := [ToolResult(invocation.original.callId, invocation.original.name, completion.observation)]
                + (if completion.replaced then [StateEvent("content_replacement")] else []);
    var patch := if completion.patch.Some? then PatchEvents(completion.patch.value) else [];
    assert Neutral(head);
    ReplayNeutral(ledger, head);
    ReplayConcat(ledger, head, patch);
    if completion.patch.Some? {
      Paired(ledger, completion.patch.value, patch[0], patch[1], patch[2]);
    }
    CloseOne(ledger, head + patch, ToolClosed(invocation.id, completion.observation));
  }

  lemma {:induction false} AllCompletionsLedger(ledger: Ledger, invocations: seq<Invocation>, completions: seq<Completion>)
    requires |invocations| == |completions|
    requires forall i | 0 <= i < |completions| :: completions[i].WellFormed()
    requires forall i | 0 <= i < |invocations| :: !invocations[i].id.PatchOp?
    requires forall id | id in ledger.open :: !id.PatchOp?
    ensures var after := Replay(ledger, AllCompletionEvents(invocations, completions));
            && after.open == ledger.open - Ids(invocations)
            && after.closed == ledger.closed + Ids(invocations) + PatchIds(completions)
    decreases |invocations|
  {
    if invocations != [] {
      var first := CompletionEvents(invocations[0], completions[0]);
      CompletionLedger(ledger, invocations[0], completions[0]);
      ReplayConcat(ledger, first, AllCompletionEvents(invocations[1..], completions[1..]));
      AllCompletionsLedger(Replay(ledger, first), invocations[1..], completions[1..]);
      SplitIds(invocations);
      SplitPatchIds(completions);
    }
  }

  lemma SplitIds(invocations: seq<Invocation>)
    requires invocations != []
    ensures Ids(invocations) == {invocations[0].id} + Ids(invocations[1..])
  {
    forall id | id in Ids(invocations) ensures id in {invocations[0].id} + Ids(invocations[1..]) {
      var i :| 0 <= i < |invocations| && invocations[i].id == id;
      assert i > 0 ==> invocations[1..][i - 1].id == id;
    }
    forall id | id in Ids(invocations[1..]) ensures id in Ids(invocations) {
      var i :| 0 <= i < |invocations[1..]| && invocations[1..][i].id == id;
      assert invocations[i + 1].id == id;
    }
  }

  lemma SplitPatchIds(completions: seq<Completion>)
    requires completions != []
    ensures PatchIds(completions) == (if completions[0].patch.Some? then {completions[0].patch.value} else {})
                                     + PatchIds(completions[1..])
  {
    forall id | id in PatchIds(completions)
      ensures id in (if completions[0].patch.Some? then {completions[0].patch.value} else {}) + PatchIds(completions[1..])
    {
      var i :| 0 <= i < |completions| && completions[i].patch.Some? && completions[i].patch.value == id;
      assert i > 0 ==> completions[1..][i - 1].patch == Some(id);
    }
    forall id | id in PatchIds(completions[1..]) ensures id in PatchIds(completions) {
      var i :| 0 <= i < |completions[1..]| && completions[1..][i].patch.Some? && completions[1..][i].patch.value == id;
      assert completions[i + 1].patch == Some(id);
    }
  }

  // -------------------------------------------------------- one step at a time

  /** The next cursor of one run, in the sense that matters for the ids still unused. */
  ghost predicate Follows(cursor: Cursor, next: Cursor) {
    && next.turn == cursor.turn && next.turnId == cursor.turnId
    && cursor.expected.Some? && next.expected.Some?
    && Before(cursor.expected.value, next.expected.value)
    && cursor.expected.value.step == cursor.step && cursor.expected.value.attempt == cursor.attempt
    && next.expected.value.step == next.step && next.expected.value.attempt == next.attempt
    && next.step >= cursor.step
    && (next.step == cursor.step ==> next.attempt >= cursor.attempt)
    && (next.phase.InContext? && next.step == cursor.step ==> cursor.phase.InProvider?)
    && (next.phase.InProvider? ==> cursor.phase.InContext? && next.step == cursor.step && next.attempt == cursor.attempt + 1)
    && (next.phase.InToolPrepare? ==>
          && cursor.phase.InProvider? && next.step == cursor.step && next.attempt == cursor.attempt
          && next.message == Some(MessageId(cursor.turn, cursor.step, cursor.attempt)))
    && (next.message.Some? ==>
          next.message == cursor.message
          || next.message == Some(MessageId(cursor.turn, cursor.step, cursor.attempt)))
  }

  lemma UnusedShrinks(cursor: Cursor, next: Cursor, id: OperationId)
    requires Follows(cursor, next)
    requires Unused(next, id)
    ensures Unused(cursor, id)
  {
  }

  lemma ReservedShrinks(cursor: Cursor, next: Cursor, id: OperationId)
    requires Follows(cursor, next)
    requires Reserved(next, id)
    ensures Reserved(cursor, id)
  {
  }

  /** The step from one effect to the next: what remains is to say which operations the
      events opened and closed. */
  lemma Carry(ledger: Ledger, step: KernelStep, outside: set<OperationId>, next: KernelStep, after: Ledger,
              added: set<OperationId>)
    requires Tracks(ledger, step, outside) && step.effect.Some? && next.effect.Some?
    requires Follows(step.cursor, next.cursor)
    requires after.open == outside + OpenAt(next)
    requires after.open + after.closed <= ledger.open + ledger.closed + added
    requires forall id | id in added :: !Unused(next.cursor, id)
    ensures Tracks(after, next, outside)
  {
    forall id | id in outside ensures !Reserved(next.cursor, id) && !id.PatchOp? {
      if Reserved(next.cursor, id) {
        ReservedShrinks(step.cursor, next.cursor, id);
      }
    }
    forall id | after.Knows(id) ensures !Unused(next.cursor, id) {
      assert id in after.open + after.closed;
      if Unused(next.cursor, id) {
        UnusedShrinks(step.cursor, next.cursor, id);
      }
    }
  }

  /** What the run has open is its own, and what it may still start is new to the log. */
  lemma OwnAndNew(ledger: Ledger, step: KernelStep, outside: set<OperationId>)
    requires Shaped(step) && Tracks(ledger, step, outside) && step.effect.Some?
    ensures step.cursor.StepId() !in outside && EffectOp(step.effect.value.id) !in outside
    ensures SnapshotOp(step.effect.value.id) !in ledger.open
    ensures ledger.open == outside + OpenAt(step)
    ensures forall id | Unused(step.cursor, id) :: id !in ledger.open && id !in ledger.closed
  {
    assert forall id | Unused(step.cursor, id) :: !ledger.Knows(id);
    hide Unused;
  }

  /** The next effect is started, on top of what `events` have done. */
  lemma EffectOpened(ledger: Ledger, step: KernelStep, outside: set<OperationId>, next: KernelStep, events: seq<Event>,
                     opening: Event, added: set<OperationId>)
    requires Tracks(ledger, step, outside) && step.effect.Some? && next.effect.Some?
    requires Follows(step.cursor, next.cursor)
    requires opening.OperationStarted? && opening.id !in Replay(ledger, events).closed && next.events == events + [opening]
    requires Replay(ledger, events).open + {opening.id} == outside + OpenAt(next)
    requires Replay(ledger, events).open + Replay(ledger, events).closed <= ledger.open + ledger.closed + added
    requires forall id | id in added + {opening.id} :: !Unused(next.cursor, id)
    ensures Tracks(Replay(ledger, next.events), next, outside)
  {
    hide *;
    OpenOne(ledger, events, opening);
    Carry(ledger, step, outside, next, Replay(ledger, next.events), added + {opening.id});
  }

  lemma ContextServed(effect: Effect, result: EffectResult) returns (replacements: nat)
    requires effect.AssembleContext? && Serves(effect, result)
    ensures result.ContextAssembled? && result.effect == effect.id && Neutral(result.deferred)
    ensures result.events == ContextEvents(effect.id, replacements)
  {
    var r: nat, compacted: bool :| result == ContextResult(effect, r, compacted);
    replacements := r;
    assert Neutral(DeferredEvents(compacted));
  }

  lemma ContextFollows(step: KernelStep, result: EffectResult)
    requires Shaped(step) && step.effect.Some? && step.effect.value.AssembleContext?
    requires result.ContextAssembled? && Neutral(result.deferred)
    ensures var next, id := AcceptContext(step.cursor, result), step.effect.value.id;
            && Shaped(next) && next.effect.Some? && next.cursor.expected.Some? && Follows(step.cursor, next.cursor)
            && var opening := EffectStarted(next.cursor, ProviderRequest);
               && next.events == result.events + [opening] && opening.OperationStarted?
               && opening.id != EffectOp(id) && opening.id != SnapshotOp(id) && step.cursor.StepId() != EffectOp(id)
               && Unused(step.cursor, opening.id)
               && !Unused(next.cursor, opening.id) && !Unused(next.cursor, SnapshotOp(id))
               && OpenAt(step) == {step.cursor.StepId(), EffectOp(id)}
               && OpenAt(next) == {step.cursor.StepId(), opening.id}
  {
  }

  lemma ContextStep(ledger: Ledger, step: KernelStep, outside: set<OperationId>, result: EffectResult)
    requires Shaped(step) && Tracks(ledger, step, outside)
    requires step.effect.Some? && step.effect.value.AssembleContext? && Serves(step.effect.value, result)
    ensures var next := AcceptContext(step.cursor, result);
            Shaped(next) && Tracks(Replay(ledger, next.events), next, outside)
  {
    hide *;
    var replacements := ContextServed(step.effect.value, result);
    var next := AcceptContext(step.cursor, result);
    OwnAndNew(ledger, step, outside);
    ContextFollows(step, result);
    ContextLedger(ledger, step.effect.value.id, replacements);
    EffectOpened(ledger, step, outside, next, result.events, EffectStarted(next.cursor, ProviderRequest),
                 {SnapshotOp(step.effect.value.id)});
  }

  /** The end of a run: the step is closed, and the transition leaves only a pending
      interaction that is new to the log. */
  lemma Ending(ledger: Ledger, events: seq<Event>, cursor: Cursor, closing: Event, outcome: Transition,
               outside: set<OperationId>)
    requires closing.Closing() && closing.id == cursor.StepId()
    requires Replay(ledger, events).open == outside + {cursor.StepId()}
    requires Apart(cursor, outside)
    requires outcome.pending.Some? ==>
               outcome.pending.value.interaction != ""
               && PendingOp(outcome.pending.value.interaction) !in Replay(ledger, events).closed
    ensures Replay(ledger, events + [closing] + TransitionEvents(cursor, outcome)).open
         == outside + (if outcome.pending.Some? then {PendingOp(outcome.pending.value.interaction)} else {})
  {
    CloseOne(ledger, events, closing);
    var closed := Replay(ledger, events + [closing]);
    ReplayConcat(ledger, events + [closing], TransitionEvents(cursor, outcome));
    TransitionLedger(closed, cursor, outcome);
  }

  /** The provider's operation is closed, and its deferred events touch no operation. */
  lemma ProviderClosed(ledger: Ledger, closing: Event, rest: seq<Event>)
    requires closing.Closing() && Neutral(rest)
    ensures Replay(ledger, [closing] + rest) == Ledger(ledger.open - {closing.id}, ledger.closed + {closing.id})
  {
    ReplayConcat(ledger, [closing], rest);
    ReplayOne(ledger, closing);
    ReplayNeutral(Replay(ledger, [closing]), rest);
  }

  lemma NeutralTail(ledger: Ledger, events: seq<Event>, rest: seq<Event>)
    requires Neutral(rest)
    ensures Replay(ledger, events + rest) == Replay(ledger, events)
  {
    ReplayConcat(ledger, events, rest);
    ReplayNeutral(Replay(ledger, events), rest);
  }

  lemma ReplyServed(effect: Effect, result: EffectResult)
    requires effect.RequestProvider? && Serves(effect, result) && result.ProviderCompleted?
    ensures result.events == [OperationFinished(EffectOp(effect.id), ProviderRequest)] + effect.deferred
  {
  }

  lemma ReplyShape(cursor: Cursor, result: EffectResult) returns (said: Event)
    requires result.ProviderCompleted?
    ensures Neutral([said])
    ensures var next := AcceptProvider(cursor, result);
            && (result.reply.actions == [] ==>
                  && next.outcome.Some?
                  && next.events == result.events + [said]
                                    + [StepFinished(cursor, ReasonText(next.outcome.value.reason), false)]
                                    + TransitionEvents(cursor, next.outcome.value))
            && (result.reply.actions != [] ==>
                  && next.effect.Some? && next.cursor.expected.Some?
                  && next.events == result.events + [said] + ToolPlanned(result.reply.actions)
                                    + [EffectStarted(next.cursor, ToolPreparation)])
  {
    said := AssistantMessage(MessageId(cursor.turn, cursor.step, cursor.attempt), result.parent, result.reply.content,
                             result.reply.actions);
    hide TransitionEvents, ToolPlanned, IsLength, Strip, ReasonText;
  }

  lemma ReplyApart(ledger: Ledger, step: KernelStep, outside: set<OperationId>)
    requires Shaped(step) && Tracks(ledger, step, outside)
    requires step.effect.Some? && step.effect.value.RequestProvider?
    ensures ledger.open - {EffectOp(step.effect.value.id)} == outside + {step.cursor.StepId()}
    ensures Neutral(step.effect.value.deferred)
  {
  }

  lemma ReplyStep(ledger: Ledger, step: KernelStep, outside: set<OperationId>, result: EffectResult)
    requires Shaped(step) && Tracks(ledger, step, outside)
    requires step.effect.Some? && step.effect.value.RequestProvider? && Serves(step.effect.value, result)
    requires result.ProviderCompleted?
    ensures var next := AcceptProvider(step.cursor, result);
            Shaped(next) && Tracks(Replay(ledger, next.events), next, outside)
  {
    var closing := OperationFinished(EffectOp(step.effect.value.id), ProviderRequest);
    assert closing.Closing();
    hide *;
    ReplyServed(step.effect.value, result);
    ReplyApart(ledger, step, outside);
    ProviderClosed(ledger, closing, step.effect.value.deferred);
    var said := ReplyShape(step.cursor, result);
    NeutralTail(ledger, result.events, [said]);
    if result.reply.actions == [] {
      FinalReply(ledger, step, outside, result, result.events + [said], AcceptProvider(step.cursor, result));
    } else {
      ToolReply(ledger, step, outside, result, result.events + [said], AcceptProvider(step.cursor, result));
    }
  }

  lemma FinalReply(ledger: Ledger, step: KernelStep, outside: set<OperationId>, result: EffectResult, events: seq<Event>,
                   next: KernelStep)
    requires Shaped(step) && Tracks(ledger, step, outside) && step.effect.Some?
    requires result.ProviderCompleted? && result.reply.actions == [] && next == AcceptProvider(step.cursor, result)
    requires next.outcome.Some? && next.events == events
               + [StepFinished(step.cursor, ReasonText(next.outcome.value.reason), false)]
               + TransitionEvents(step.cursor, next.outcome.value)
    requires Replay(ledger, events).open == outside + {step.cursor.StepId()}
    ensures Shaped(next) && Tracks(Replay(ledger, next.events), next, outside)
  {
    assert step.cursor.StepId() !in outside;
    Ending(ledger, events, step.cursor, StepFinished(step.cursor, ReasonText(next.outcome.value.reason), false),
           next.outcome.value, outside);
  }

  lemma ToolReply(ledger: Ledger, step: KernelStep, outside: set<OperationId>, result: EffectResult, events: seq<Event>,
                  next: KernelStep)
    requires Shaped(step) && Tracks(ledger, step, outside)
    requires step.effect.Some? && step.effect.value.RequestProvider?
    requires result.ProviderCompleted? && result.reply.actions != [] && next == AcceptProvider(step.cursor, result)
    requires next.effect.Some? && next.cursor.expected.Some?
    requires next.events == events + ToolPlanned(result.reply.actions) + [EffectStarted(next.cursor, ToolPreparation)]
    requires Replay(ledger, events).open == outside + {step.cursor.StepId()}
    requires Replay(ledger, events).closed == ledger.closed + {EffectOp(step.effect.value.id)}
    ensures Shaped(next) && Tracks(Replay(ledger, next.events), next, outside)
  {
    NeutralTail(ledger, events, ToolPlanned(result.reply.actions));
    var opening := EffectStarted(next.cursor, ToolPreparation);
    assert Unused(step.cursor, opening.id);
    OpenOne(ledger, events + ToolPlanned(result.reply.actions), opening);
    assert Follows(step.cursor, next.cursor);
    hide ToolPlanned, IsLength;
    Carry(ledger, step, outside, next, Replay(ledger, next.events), {opening.id});
  }

  // ---------------------------------------------------------------- tool steps

  /** After a batch: `events` have closed everything but the step and, for an executed
      batch, its effect. */
  lemma Advance(ledger: Ledger, step: KernelStep, outside: set<OperationId>, observations: seq<Observation>,
                events: seq<Event>, tokens: seq<int>, closeTools: bool, added: set<OperationId>)
    requires Shaped(step) && Tracks(ledger, step, outside)
    requires step.effect.Some? && (step.effect.value.PrepareTools? || step.effect.value.ExecuteTools?)
    requires Replay(ledger, events).open
          == outside + {step.cursor.StepId()} + (if closeTools then {EffectOp(step.effect.value.id)} else {})
    requires Replay(ledger, events).closed <= ledger.open + ledger.closed + added
    requires forall id | id in added :: Transient(id)
    ensures var next := AdvanceAfterTools(step.cursor, observations, events, tokens, closeTools);
            Shaped(next) && Tracks(Replay(ledger, next.events), next, outside)
  {
    var cursor, effectOp := step.cursor, EffectOp(step.effect.value.id);
    var next := AdvanceAfterTools(cursor, observations, events, tokens, closeTools);
    assert effectOp !in outside && cursor.StepId() !in outside;
    var closing := events + (if closeTools then [EffectFinished(cursor, ToolRun)] else []);
    if closeTools {
      CloseOne(ledger, events, EffectFinished(cursor, ToolRun));
    } else {
      assert closing == events;
    }
    assert Replay(ledger, closing).open == outside + {cursor.StepId()};
    assert Replay(ledger, closing).closed <= ledger.open + ledger.closed + added;
    if cursor.continuation.ToComplete? {
      Ending(ledger, closing, cursor, StepFinished(cursor, "completed", false), next.outcome.value, outside);
    } else {
      NextStep(ledger, step, outside, closing, next, added);
    }
  }

  lemma NextStepFollows(step: KernelStep, next: KernelStep)
    requires Shaped(step) && step.effect.Some?
    requires step.effect.value.PrepareTools? || step.effect.value.ExecuteTools?
    requires next.effect.Some? && next.effect.value.AssembleContext? && Pairs(next.cursor, next.effect.value)
    requires next.cursor.turn == step.cursor.turn && next.cursor.turnId == step.cursor.turnId
    requires next.cursor.step == step.cursor.step + 1 && next.cursor.message.None?
    ensures Follows(step.cursor, next.cursor) && next.cursor.expected == Some(next.effect.value.id)
    ensures OpenAt(next) == {next.cursor.StepId(), EffectOp(next.effect.value.id)}
    ensures Unused(step.cursor, next.cursor.StepId()) && Unused(step.cursor, EffectOp(next.effect.value.id))
    ensures !Unused(next.cursor, next.cursor.StepId()) && !Unused(next.cursor, EffectOp(next.effect.value.id))
    ensures next.cursor.StepId() != step.cursor.StepId() && EffectOp(next.effect.value.id) != step.cursor.StepId()
  {
  }

  lemma TransientUsed(cursor: Cursor, id: OperationId)
    requires Transient(id)
    ensures !Unused(cursor, id)
  {
  }

  /** The step is closed and the next one opened with its context. */
  lemma NextStep(ledger: Ledger, step: KernelStep, outside: set<OperationId>, closing: seq<Event>, next: KernelStep,
                 added: set<OperationId>)
    requires Shaped(step) && Tracks(ledger, step, outside) && step.effect.Some?
    requires step.effect.value.PrepareTools? || step.effect.value.ExecuteTools?
    requires Replay(ledger, closing).open == outside + {step.cursor.StepId()}
    requires Replay(ledger, closing).closed <= ledger.open + ledger.closed + added
    requires step.cursor.StepId() in ledger.open
    requires forall id | id in added :: Transient(id)
    requires next.effect.Some? && next.effect.value.AssembleContext? && Pairs(next.cursor, next.effect.value)
    requires next.cursor.turn == step.cursor.turn && next.cursor.turnId == step.cursor.turnId
    requires next.cursor.step == step.cursor.step + 1 && next.cursor.message.None?
    requires next.cursor.expected.Some?
    requires next.events == closing + [StepFinished(step.cursor, "tool_calls", false)]
                              + (StepOpened(next.cursor) + [EffectStarted(next.cursor, ContextAssembly)])
    ensures Tracks(Replay(ledger, next.events), next, outside)
  {
    var finished := StepFinished(step.cursor, "tool_calls", false);
    assert finished.Closing() && finished.id == step.cursor.StepId();
    hide *;
    NextStepFollows(step, next);
    OwnAndNew(ledger, step, outside);
    var opening := {next.cursor.StepId(), EffectOp(next.effect.value.id)};
    forall id | id in opening ensures id !in added {
      if id in added {
        TransientIsNone(next, id);
      }
    }
    forall id | id in added ensures !Unused(next.cursor, id) {
      TransientUsed(next.cursor, id);
    }
    CloseOne(ledger, closing, finished);
    StepOpening(Replay(ledger, closing + [finished]), next.cursor, ContextAssembly);
    ReplayConcat(ledger, closing + [finished], StepOpened(next.cursor) + [EffectStarted(next.cursor, ContextAssembly)]);
    Carry(ledger, step, outside, next, Replay(ledger, next.events), added + opening);
  }

  lemma TransientIsNone(next: KernelStep, id: OperationId)
    requires Transient(id) && next.effect.Some?
    ensures id != next.cursor.StepId() && id != EffectOp(next.effect.value.id)
  {
  }

  lemma {:induction false} InvocationsLedger(ledger: Ledger, cursor: Cursor, invocations: seq<Invocation>)
    requires forall id | id in Ids(invocations) :: id !in ledger.closed
    ensures Replay(ledger, InvocationsStarted(cursor, invocations)) == ledger.(open := ledger.open + Ids(invocations))
    decreases |invocations|
  {
    if invocations != [] {
      SplitIds(invocations);
      var all := InvocationsStarted(cursor, invocations);
      assert all[1..] == InvocationsStarted(cursor, invocations[1..]);
      var next := Record(ledger, all[0]);
      assert next == ledger.(open := ledger.open + {invocations[0].id});
      InvocationsLedger(next, cursor, invocations[1..]);
    }
  }

  lemma PreparedStep(ledger: Ledger, step: KernelStep, outside: set<OperationId>, result: EffectResult)
    requires Shaped(step) && Tracks(ledger, step, outside)
    requires step.effect.Some? && step.effect.value.PrepareTools? && Serves(step.effect.value, result)
    requires result.ToolsPrepared?
    ensures var next := AcceptPrepared(step.cursor, result);
            Shaped(next) && Tracks(Replay(ledger, next.events), next, outside)
  {
    var cursor := step.cursor;
    var finished := EffectFinished(cursor, ToolPreparation);
    var events := result.events + [finished];
    CloseOne(ledger, result.events, finished);
    ReplayNeutral(ledger, result.events);
    assert finished.id !in outside;
    if result.invocations == [] {
      Advance(ledger, step, outside, ImmediateObservations(result.immediates), events, result.tokens, false, {});
    } else {
      ToolsOpened(ledger, step, outside, result, events, AcceptPrepared(cursor, result));
    }
  }

  lemma ToolsOpened(ledger: Ledger, step: KernelStep, outside: set<OperationId>, result: EffectResult,
                    events: seq<Event>, next: KernelStep)
    requires Shaped(step) && Tracks(ledger, step, outside)
    requires step.effect.Some? && step.effect.value.PrepareTools?
    requires result.ToolsPrepared? && result.invocations != [] && Named(result.invocations, step.effect.value.batch.message)
    requires events == result.events + [EffectFinished(step.cursor, ToolPreparation)]
    requires Replay(ledger, events).open == outside + {step.cursor.StepId()}
    requires Replay(ledger, events).closed == ledger.closed + {EffectOp(step.effect.value.id)}
    requires next == AcceptPrepared(step.cursor, result)
    ensures Shaped(next) && Tracks(Replay(ledger, next.events), next, outside)
  {
    var cursor, invocations := step.cursor, result.invocations;
    var closed, opening := Replay(ledger, events), EffectStarted(next.cursor, ToolRun);
    var ids := Ids(invocations);
    ToolsFollow(step, result, next);
    forall id | id in ids ensures id !in closed.closed && !Unused(next.cursor, id) {
      assert Unused(cursor, id) && !ledger.Knows(id);
    }
    assert !ledger.Knows(opening.id) && opening.id != EffectOp(step.effect.value.id);
    hide InvocationsStarted, Follows, Shaped, InvocationIds, ProviderCallIds, Ids, Replay;
    ReplayConcat(ledger, events, InvocationsStarted(next.cursor, invocations));
    InvocationsLedger(closed, next.cursor, invocations);
    OpenOne(ledger, events + InvocationsStarted(next.cursor, invocations), opening);
    Carry(ledger, step, outside, next, Replay(ledger, next.events), ids + {opening.id});
  }

  lemma ToolsFollow(step: KernelStep, result: EffectResult, next: KernelStep)
    requires Shaped(step) && step.effect.Some? && step.effect.value.PrepareTools?
    requires result.ToolsPrepared? && result.invocations != [] && Named(result.invocations, step.effect.value.batch.message)
    requires next == AcceptPrepared(step.cursor, result)
    ensures Shaped(next) && next.effect.Some? && next.cursor.expected.Some? && Follows(step.cursor, next.cursor)
    ensures Unused(step.cursor, EffectOp(next.cursor.expected.value))
    ensures !Unused(next.cursor, EffectOp(next.cursor.expected.value))
    ensures forall id | id in Ids(result.invocations) :: Unused(step.cursor, id) && !Unused(next.cursor, id)
    ensures forall id | id in Ids(result.invocations) :: id != EffectOp(step.effect.value.id)
    ensures OpenAt(next) == {step.cursor.StepId(), EffectOp(next.cursor.expected.value)} + Ids(result.invocations)
  {
  }

  lemma ExecutedStep(ledger: Ledger, step: KernelStep, outside: set<OperationId>, result: EffectResult)
    requires Shaped(step) && Tracks(ledger, step, outside)
    requires step.effect.Some? && step.effect.value.ExecuteTools? && Serves(step.effect.value, result)
    ensures var next := AdvanceAfterTools(step.cursor, result.observations, result.events, result.tokens, true);
            Shaped(next) && Tracks(Replay(ledger, next.events), next, outside)
  {
    var added := ExecutedLedger(ledger, step, outside, result);
    Advance(ledger, step, outside, result.observations, result.events, result.tokens, true, added);
  }

  /** What the events of an executed batch do: every invocation is closed, and besides them
      only patches come and go. */
  lemma ExecutedLedger(ledger: Ledger, step: KernelStep, outside: set<OperationId>, result: EffectResult)
    returns (patches: set<OperationId>)
    requires Shaped(step) && Tracks(ledger, step, outside)
    requires step.effect.Some? && step.effect.value.ExecuteTools? && Serves(step.effect.value, result)
    ensures forall id | id in patches :: id.PatchOp?
    ensures Replay(ledger, result.events).open == outside + {step.cursor.StepId(), EffectOp(step.effect.value.id)}
    ensures Replay(ledger, result.events).closed == ledger.closed + Ids(step.effect.value.invocations) + patches
    ensures ClosedBy(result.events) == Ids(step.effect.value.invocations) + patches
  {
    var invocations := step.effect.value.invocations;
    OwnIdsOutside(step, outside, ledger);
    OwnIdsApart(step);
    assert forall id | id in ledger.open :: !id.PatchOp?;
    assert ledger.open - Ids(invocations) == outside + {step.cursor.StepId(), EffectOp(step.effect.value.id)};
    patches := ServedLedger(ledger, invocations, step.effect.value.immediates, result);
  }

  /** The step and its effect are none of the invocations. */
  lemma OwnIdsApart(step: KernelStep)
    requires Shaped(step) && step.effect.Some? && step.effect.value.ExecuteTools?
    ensures step.cursor.StepId() !in Ids(step.effect.value.invocations)
    ensures EffectOp(step.effect.value.id) !in Ids(step.effect.value.invocations)
    ensures forall i | 0 <= i < |step.effect.value.invocations| :: !step.effect.value.invocations[i].id.PatchOp?
  {
  }

  lemma ServedLedger(ledger: Ledger, invocations: seq<Invocation>, immediates: seq<Immediate>, result: EffectResult)
    returns (patches: set<OperationId>)
    requires ServesExecute(invocations, immediates, result)
    requires forall i | 0 <= i < |invocations| :: !invocations[i].id.PatchOp?
    requires forall id | id in ledger.open :: !id.PatchOp?
    ensures forall id | id in patches :: id.PatchOp?
    ensures Replay(ledger, result.events).open == ledger.open - Ids(invocations)
    ensures Replay(ledger, result.events).closed == ledger.closed + Ids(invocations) + patches
    ensures ClosedBy(result.events) == Ids(invocations) + patches
  {
    var completions: seq<Completion> :|
      && |completions| == |invocations|
      && (forall i | 0 <= i < |completions| :: completions[i].WellFormed())
      && result.events == AllCompletionEvents(invocations, completions);
    AllCompletionsLedger(ledger, invocations, completions);
    AllCompletionsClose(invocations, completions);
    patches := PatchIds(completions);
  }

  lemma ClosedByConcat(first: seq<Event>, second: seq<Event>)
    ensures ClosedBy(first + second) == ClosedBy(first) + ClosedBy(second)
  {
  }

  lemma ClosesOne(closing: Event)
    requires closing.Closing()
    ensures ClosedBy([closing]) == {closing.id}
  {
    assert closing in [closing];
  }

  lemma PatchCloses(id: OperationId)
    ensures ClosedBy(PatchEvents(id)) == {id}
  {
    var patch := PatchEvents(id);
    assert patch[2] in patch;
  }

  lemma CompletionCloses(invocation: Invocation, completion: Completion)
    ensures ClosedBy(CompletionEvents(invocation, completion))
         == {invocation.id} + (if completion.patch.Some? then {completion.patch.value} else {})
  {
    var head := [ToolResult(invocation.original.callId, invocation.original.name, completion.observation)];
    var replaced := if completion.replaced then [StateEvent("content_replacement")] else [];
    var patch := if completion.patch.Some? then PatchEvents(completion.patch.value) else [];
    var closing := ToolClosed(invocation.id, completion.observation);
    ClosedByConcat(head + replaced + patch, [closing]);
    ClosedByConcat(head + replaced, patch);
    ClosesOne(closing);
    assert ClosedBy(head + replaced) == {};
    if completion.patch.Some? {
      PatchCloses(completion.patch.value);
    }
    hide ClosedBy, PatchEvents, ToolClosed;
  }

  lemma {:induction false} AllCompletionsClose(invocations: seq<Invocation>, completions: seq<Completion>)
    requires |invocations| == |completions|
    ensures ClosedBy(AllCompletionEvents(invocations, completions)) == Ids(invocations) + PatchIds(completions)
    decreases |invocations|
  {
    if invocations != [] {
      CompletionCloses(invocations[0], completions[0]);
      AllCompletionsClose(invocations[1..], completions[1..]);
      ClosedByConcat(CompletionEvents(invocations[0], completions[0]),
                     AllCompletionEvents(invocations[1..], completions[1..]));
      SplitIds(invocations);
      SplitPatchIds(completions);
    }
  }

  // ------------------------------------------------- suspension and failure

  /** The interaction that a suspended batch waits for has not been closed in this log. */
  ghost predicate NewInteraction(ledger: Ledger, result: EffectResult) {
    result.InteractionSuspended? ==> PendingOp(result.suspendedOn.interaction) !in ledger.closed
  }

  /** The ledger after a suspension: nothing of the run is open but the interaction, and
      that only if it was not closed before. */
  lemma SuspendedLedger(ledger: Ledger, step: KernelStep, outside: set<OperationId>, result: EffectResult, next: KernelStep)
    requires Shaped(step) && Tracks(ledger, step, outside)
    requires step.effect.Some? && step.effect.value.PrepareTools? && Serves(step.effect.value, result)
    requires result.InteractionSuspended? && next == AcceptInteraction(step.cursor, result)
    ensures var waiting := PendingOp(result.suspendedOn.interaction);
            Replay(ledger, next.events).open == outside + (if waiting in ledger.closed then {} else {waiting})
  {
    var cursor := step.cursor;
    var finished := StepFinished(cursor, ReasonText(next.outcome.value.reason), false);
    var closing := EffectFinished(cursor, PhaseOperation(cursor.phase));
    SuspendedApart(ledger, step, outside, finished, closing);
    assert Neutral(result.events);
    hide ReasonText, PhaseOperation, Shaped, Tracks, Serves, Replay, TransitionEvents, Neutral;
    ReplayNeutral(ledger, result.events);
    ReplayConcat(ledger, result.events, [finished, closing]);
    ReplayTwo(ledger, finished, closing);
    ReplayConcat(ledger, result.events + [finished, closing], TransitionEvents(cursor, next.outcome.value));
    TransitionLedger(Replay(ledger, result.events + [finished, closing]), cursor, next.outcome.value);
  }

  lemma SuspendedApart(ledger: Ledger, step: KernelStep, outside: set<OperationId>, finished: Event, closing: Event)
    requires Shaped(step) && Tracks(ledger, step, outside) && step.effect.Some? && step.effect.value.PrepareTools?
    requires finished.Closing() && finished.id == step.cursor.StepId()
    requires closing.Closing() && closing.id == EffectOp(step.effect.value.id)
    ensures var both := Record(Record(ledger, finished), closing);
            && both.open == outside
            && both.closed == ledger.closed + {step.cursor.StepId(), EffectOp(step.effect.value.id)}
    ensures forall reason :: SavepointOp(step.cursor.turnId, step.cursor.step, reason) !in outside
  {
  }

  /** The reducer takes a question once, so the interaction of a suspension that was
      committed is new. */
  lemma CommittedIsNew(ledger: Ledger, asked: Asked, result: EffectResult, rest: seq<Event>)
    requires result.InteractionSuspended? && Asks(result.events, result.suspendedOn.interaction)
    requires ClosedWereAsked(ledger, asked) && Admitted(asked, result.events + rest).Some?
    ensures NewInteraction(ledger, result)
  {
    var n := |result.events| - 1;
    AdmittedConcat(asked, result.events, rest);
    SeenGrows(asked, result.events[..n]);
  }

  /** A suspension that the reducer admits leaves the interaction open, and nothing else of
      the run. */
  lemma InteractionStep(ledger: Ledger, asked: Asked, step: KernelStep, outside: set<OperationId>, result: EffectResult)
    requires Shaped(step) && Tracks(ledger, step, outside) && ClosedWereAsked(ledger, asked)
    requires step.effect.Some? && step.effect.value.PrepareTools? && Serves(step.effect.value, result)
    requires result.InteractionSuspended? && Admitted(asked, AcceptInteraction(step.cursor, result).events).Some?
    ensures var next := AcceptInteraction(step.cursor, result);
            Shaped(next) && Tracks(Replay(ledger, next.events), next, outside)
  {
    var next := AcceptInteraction(step.cursor, result);
    assert next.events == result.events + next.events[|result.events|..];
    CommittedIsNew(ledger, asked, result, next.events[|result.events|..]);
    SuspendedLedger(ledger, step, outside, result, next);
  }

  /** The one retry: the provider's operation is closed and a compacted context is asked for. */
  lemma RetryFollows(step: KernelStep, result: EffectResult)
    requires Shaped(step) && step.effect.Some? && step.effect.value.RequestProvider? && Serves(step.effect.value, result)
    requires result.EffectFailed? && result.kind.ContextLimit? && !step.cursor.compactRetryUsed
    ensures var next, id := AcceptFailure(step.cursor, result), step.effect.value.id;
            && Shaped(next) && next.effect.Some? && next.cursor.expected.Some? && Follows(step.cursor, next.cursor)
            && var opening, noted := EffectStarted(next.cursor, ContextAssembly), next.events[..|next.events| - 1];
               && next.events == noted + [opening] && opening.OperationStarted?
               && noted == [OperationInterrupted(EffectOp(id), ProviderRequest, "context_limit")]
                             + (step.effect.value.deferred + [noted[|noted| - 1]])
               && Neutral(step.effect.value.deferred) && Neutral([noted[|noted| - 1]])
               && opening.id != EffectOp(id) && step.cursor.StepId() != EffectOp(id)
               && Unused(step.cursor, opening.id) && !Unused(next.cursor, opening.id)
               && OpenAt(step) == {step.cursor.StepId(), EffectOp(id)}
               && OpenAt(next) == {step.cursor.StepId(), opening.id}
  {
    var next := AcceptFailure(step.cursor, result);
    assert next.events == result.events + [next.events[|result.events|]] + [EffectStarted(next.cursor, ContextAssembly)];
  }

  lemma NeutralConcat(first: seq<Event>, second: seq<Event>)
    requires Neutral(first) && Neutral(second)
    ensures Neutral(first + second)
  {
  }

  lemma RetryStep(ledger: Ledger, step: KernelStep, outside: set<OperationId>, result: EffectResult)
    requires Shaped(step) && Tracks(ledger, step, outside)
    requires step.effect.Some? && step.effect.value.RequestProvider? && Serves(step.effect.value, result)
    requires result.EffectFailed? && result.kind.ContextLimit? && !step.cursor.compactRetryUsed
    ensures var next := AcceptFailure(step.cursor, result);
            Shaped(next) && Tracks(Replay(ledger, next.events), next, outside)
  {
    var id := step.effect.value.id;
    var interrupted := OperationInterrupted(EffectOp(id), ProviderRequest, "context_limit");
    assert interrupted.Closing();
    hide *;
    var next := AcceptFailure(step.cursor, result);
    OwnAndNew(ledger, step, outside);
    RetryFollows(step, result);
    var noted := next.events[..|next.events| - 1];
    NeutralConcat(step.effect.value.deferred, [noted[|noted| - 1]]);
    ProviderClosed(ledger, interrupted, step.effect.value.deferred + [noted[|noted| - 1]]);
    EffectOpened(ledger, step, outside, next, noted, EffectStarted(next.cursor, ContextAssembly), {});
  }

  lemma {:induction false} UnclosedInvocationsLedger(ledger: Ledger, ids: seq<OperationId>, closed: set<OperationId>, reason: string)
    ensures var after := Replay(ledger, UnclosedInvocations(ids, closed, reason));
            after.open == ledger.open - ((set id | id in ids) - closed)
    decreases |ids|
  {
    if ids != [] {
      var first := if ids[0] in closed then [] else [OperationInterrupted(ids[0], ToolCall, reason)];
      ReplayConcat(ledger, first, UnclosedInvocations(ids[1..], closed, reason));
      if first != [] {
        ReplayOne(ledger, first[0]);
      }
      UnclosedInvocationsLedger(Replay(ledger, first), ids[1..], closed, reason);
      assert forall id | id in ids :: id == ids[0] || id in ids[1..];
    }
  }

  /** Everything that the failed effect left open is closed, and nothing else. */
  lemma UnclosedLedger(ledger: Ledger, cursor: Cursor, closed: set<OperationId>, reason: string)
    requires cursor.expected.Some?
    requires |cursor.callIds| == |cursor.invocationIds| || !cursor.phase.InToolExecute?
    ensures Replay(ledger, UnclosedOperations(cursor, closed, reason)).open
         == ledger.open - ({EffectOp(cursor.expected.value)}
              + (if cursor.phase.InToolExecute? then (set id | id in cursor.invocationIds) else {}) - closed)
  {
    var first, second := UnclosedEffect(cursor, closed, reason), UnclosedInvocations(RunningTools(cursor), closed, reason);
    ReplayConcat(ledger, first, second);
    if first != [] {
      ReplayOne(ledger, first[0]);
    }
    UnclosedInvocationsLedger(Replay(ledger, first), RunningTools(cursor), closed, reason);
  }

  lemma InvocationIdSet(invocations: seq<Invocation>)
    ensures (set id | id in InvocationIds(invocations)) == Ids(invocations)
  {
    var ids := InvocationIds(invocations);
    assert forall i | 0 <= i < |invocations| :: ids[i] == invocations[i].id && ids[i] in ids;
  }

  /** A final failure: what the service's events left open is interrupted, then the step is
      closed. `closed` are the operations that those events closed. */
  lemma FailureStep(ledger: Ledger, step: KernelStep, outside: set<OperationId>, result: EffectResult)
    requires Shaped(step) && Tracks(ledger, step, outside) && step.effect.Some?
    requires result.EffectFailed? && !(result.kind.ContextLimit? && !step.cursor.compactRetryUsed)
    requires Replay(ledger, result.events).open == ledger.open - ClosedBy(result.events)
    requires step.cursor.StepId() !in ClosedBy(result.events) && outside !! ClosedBy(result.events)
    ensures var next := AcceptFailure(step.cursor, result);
            Shaped(next) && Tracks(Replay(ledger, next.events), next, outside)
  {
    var cursor, closed := step.cursor, ClosedBy(result.events);
    var next := AcceptFailure(cursor, result);
    var reason := FailureReason(result.kind);
    var unclosed := UnclosedOperations(cursor, closed, ReasonText(reason));
    ReplayConcat(ledger, result.events, unclosed);
    UnclosedLedger(Replay(ledger, result.events), cursor, closed, ReasonText(reason));
    if step.effect.value.ExecuteTools? {
      InvocationIdSet(step.effect.value.invocations);
      NoStepAmongTools(step.effect.value.invocations, cursor.message.value, cursor.StepId());
    }
    assert Replay(ledger, result.events + unclosed).open == outside + {cursor.StepId()} by {
      OwnIdsOutside(step, outside, ledger);
    }
    assert cursor.StepId() !in outside;
    Ending(ledger, result.events + unclosed, cursor, StepFinished(cursor, ReasonText(reason), reason.Aborted?),
           next.outcome.value, outside);
  }

  lemma NoStepAmongTools(invocations: seq<Invocation>, message: MessageId, id: OperationId)
    requires Named(invocations, message) && id.StepOp?
    ensures id !in Ids(invocations)
  {
  }

  lemma OwnIdsOutside(step: KernelStep, outside: set<OperationId>, ledger: Ledger)
    requires Shaped(step) && Tracks(ledger, step, outside) && step.effect.Some?
    ensures OpenAt(step) !! outside
  {
    forall id | id in OpenAt(step) ensures id !in outside {
      assert Reserved(step.cursor, id);
    }
  }
}
