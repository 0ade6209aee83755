/** The turn machine: immutable cursors, and the events and the effect of each step. */
module AgentKernel {
  import opened Outcomes
  import opened Text
  import opened IndexSort
  import opened OperationIds
  import opened AgentEffects

  datatype Phase =
    | InContext | InProvider | InToolPrepare | InToolExecute | IsComplete | IsSuspended | IsFailed

  /** `expected` is the id of the one effect whose result the cursor accepts. `turnId` is the
      turn as it was given, `turn` the name that stands for it in ids. */
  datatype Cursor = Cursor(
    phase: Phase,
    expected: Option<EffectId>,
    step: nat,
    attempt: nat,
    compactRetryUsed: bool,
    message: Option<MessageId>,
    invocationIds: seq<OperationId>,
    turnId: string,
    turn: string,
    mode: string,
    callIds: seq<string>,
    workflow: string,
    stream: bool,
    continuation: Continuation)
  {
    function StepId(): OperationId {
      StepOp(turn, step)
    }
  }

  datatype KernelStep = KernelStep(
    cursor: Cursor,
    events: seq<Event>,
    effect: Option<Effect>,
    outcome: Option<Transition>,
    tokens: seq<int>)

  // ------------------------------------------------------------------ events

  function StepOpened(cursor: Cursor): seq<Event> {
    [StepStarted(cursor.turnId, cursor.step),
     OperationStarted(cursor.StepId(), AgentStep, cursor.turnId, cursor.step, "")]
  }

  function EffectStarted(cursor: Cursor, kind: OperationKind): Event
    requires cursor.expected.Some?
  {
    OperationStarted(EffectOp(cursor.expected.value), kind, cursor.turnId, cursor.step, "")
  }

  function EffectFinished(cursor: Cursor, kind: OperationKind): Event
    requires cursor.expected.Some?
  {
    OperationFinished(EffectOp(cursor.expected.value), kind)
  }

  function StepFinished(cursor: Cursor, reason: string, interrupted: bool): Event {
    if interrupted then OperationInterrupted(cursor.StepId(), AgentStep, reason)
    else OperationFinished(cursor.StepId(), AgentStep)
  }

  function Savepoint(cursor: Cursor, transition: Transition): seq<Event> {
    var id := SavepointOp(cursor.turnId, cursor.step, transition.reason);
    [OperationStarted(id, SavePoint, cursor.turnId, cursor.step, ""),
     LoopTransition(transition),
     OperationFinished(id, SavePoint)]
  }

  function PendingOpened(cursor: Cursor, transition: Transition): seq<Event> {
    if transition.pending.Some? && transition.pending.value.interaction != "" then
      [OperationStarted(PendingOp(transition.pending.value.interaction), PendingInteraction,
                        cursor.turnId, cursor.step, "")]
    else []
  }

  function TransitionEvents(cursor: Cursor, transition: Transition): seq<Event> {
    PendingOpened(cursor, transition) + Savepoint(cursor, transition)
  }

  function ToolPlanned(actions: seq<ToolAction>): seq<Event> {
    seq(|actions|, i requires 0 <= i < |actions| => ToolCallPlanned(actions[i].callId, actions[i].name))
  }

  function InvocationsStarted(cursor: Cursor, invocations: seq<Invocation>): seq<Event> {
    seq(|invocations|, i requires 0 <= i < |invocations| =>
      OperationStarted(invocations[i].id, ToolCall, cursor.turnId, cursor.step, invocations[i].providerCallId))
  }

  function PhaseOperation(phase: Phase): OperationKind {
    match phase
    case InContext => ContextAssembly
    case InProvider => ProviderRequest
    case InToolPrepare => ToolPreparation
    case _ => ToolRun
  }

  /** The operations that some event closes. */
  function ClosedBy(events: seq<Event>): set<OperationId> {
    set e | e in events && e.Closing() :: e.id
  }

  /** What a failed effect leaves open: the effect itself and, while tools run, every
      invocation that the service did not close. */
  function UnclosedOperations(cursor: Cursor, closed: set<OperationId>, reason: string): seq<Event> {
    UnclosedEffect(cursor, closed, reason) + UnclosedInvocations(RunningTools(cursor), closed, reason)
  }

  function UnclosedEffect(cursor: Cursor, closed: set<OperationId>, reason: string): seq<Event> {
    if cursor.expected.Some? && EffectOp(cursor.expected.value) !in closed then
      [OperationInterrupted(EffectOp(cursor.expected.value), PhaseOperation(cursor.phase), reason)]
    else []
  }

  function RunningTools(cursor: Cursor): seq<OperationId> {
    if cursor.phase.InToolExecute? then ZipPrefix(cursor.invocationIds, |cursor.callIds|) else []
  }

  function ZipPrefix(ids: seq<OperationId>, length: nat): seq<OperationId> {
    if |ids| <= length then ids else ids[..length]
  }

  function UnclosedInvocations(ids: seq<OperationId>, closed: set<OperationId>, reason: string): seq<Event> {
    if ids == [] then []
    else
      (if ids[0] in closed then [] else [OperationInterrupted(ids[0], ToolCall, reason)])
      + UnclosedInvocations(ids[1..], closed, reason)
  }

  lemma ClosedByOneMore(result: seq<Event>, i: nat)
    requires i < |result|
    ensures ClosedBy(result[..i + 1]) == ClosedBy(result[..i]) + (if result[i].Closing() then {result[i].id} else {})
  {
    assert result[..i + 1] == result[..i] + [result[i]];
  }

  lemma UnclosedNext(ids: seq<OperationId>, closed: set<OperationId>, reason: string, i: nat)
    requires i < |ids|
    ensures UnclosedInvocations(ids[i..], closed, reason)
         == (if ids[i] in closed then [] else [OperationInterrupted(ids[i], ToolCall, reason)])
            + UnclosedInvocations(ids[i + 1..], closed, reason)
  {
    assert ids[i..][0] == ids[i] && ids[i..][1..] == ids[i + 1..];
  }

  method CollectClosed(result: seq<Event>) returns (closed: set<OperationId>)
    ensures closed == ClosedBy(result)
  {
    closed := {};
    assert ClosedBy(result[..0]) == {};
    hide ClosedBy;
    for i := 0 to |result|
      invariant closed == ClosedBy(result[..i])
    {
      ClosedByOneMore(result, i);
      if result[i].Closing() {
        closed := closed + {result[i].id};
      }
    }
    assert result[..|result|] == result;
  }

  /** The loops that the kernel runs to find those operations. */
  method CollectUnclosed(cursor: Cursor, result: seq<Event>, reason: string) returns (events: seq<Event>)
    ensures events == UnclosedOperations(cursor, ClosedBy(result), reason)
  {
    var closed := CollectClosed(result);
    hide ClosedBy, UnclosedInvocations, PhaseOperation, ZipPrefix;
    events := UnclosedEffect(cursor, closed, reason);
    var ids := RunningTools(cursor);
    ghost var whole := events + UnclosedInvocations(ids, closed, reason);
    assert ids[0..] == ids;
    for i := 0 to |ids|
      invariant events + UnclosedInvocations(ids[i..], closed, reason) == whole
    {
      events := CollectNext(events, ids, closed, reason, i);
    }
    UnclosedNone(closed, reason);
    assert ids[|ids|..] == [] && events + [] == events;
  }

  method CollectNext(before: seq<Event>, ids: seq<OperationId>, closed: set<OperationId>, reason: string, i: nat)
    returns (events: seq<Event>)
    requires i < |ids|
    ensures events + UnclosedInvocations(ids[i + 1..], closed, reason) == before + UnclosedInvocations(ids[i..], closed, reason)
  {
    UnclosedNext(ids, closed, reason, i);
    hide UnclosedInvocations;
    events := before;
    if ids[i] !in closed {
      events := events + [OperationInterrupted(ids[i], ToolCall, reason)];
    }
  }

  lemma UnclosedNone(closed: set<OperationId>, reason: string)
    ensures UnclosedInvocations([], closed, reason) == []
  {
  }

  // ----------------------------------------------------------------- effects

  function ContextEffect(cursor: Cursor, forceCompact: bool): Effect
    requires cursor.expected.Some?
  {
    AssembleContext(cursor.expected.value, cursor.mode, cursor.workflow, forceCompact)
  }

  // ------------------------------------------------------------- first steps

  function FirstIndex(stepIndex: int): nat {
    if stepIndex < 1 then 1 else stepIndex
  }

  function Start(turnId: string, mode: string, workflow: string, stream: bool, stepIndex: int): KernelStep {
    var turn, step := TurnText(turnId), FirstIndex(stepIndex);
    var cursor := Cursor(InContext, Some(EffectId(Context, turn, step, 0)), step, 0, false, None, [],
                         turnId, turn, mode, [], workflow, stream, ToContext);
    KernelStep(cursor, StepOpened(cursor) + [EffectStarted(cursor, ContextAssembly)],
               Some(ContextEffect(cursor, false)), None, [])
  }

  function CommandTool(turnId: string, mode: string, workflow: string, action: ToolAction, parent: string,
                       stepIndex: int): KernelStep
  {
    var turn, step := TurnText(turnId), FirstIndex(stepIndex);
    var id := EffectId(ToolPrepare, turn, step, 0);
    var message := MessageId(turn, step, 0);
    var cursor := Cursor(InToolPrepare, Some(id), step, 0, false, Some(message), [],
                         turnId, turn, mode, [action.callId], workflow, false, ToComplete);
    var batch := PrepareBatch(message, [action], mode, workflow, false, 0, [], [], ToComplete, None);
    KernelStep(cursor,
               StepOpened(cursor) + ([AssistantMessage(message, parent, "", [action])] + ToolPlanned([action]))
                 + [EffectStarted(cursor, ToolPreparation)],
               Some(PrepareTools(id, batch)), None, [])
  }

  function ResumePreparation(pending: Pending, batch: PrepareBatch, turnId: string, stream: bool, stepIndex: int): KernelStep {
    var turn, step := TurnText(turnId), FirstIndex(stepIndex);
    var id := EffectId(ToolPrepare, turn, step, 0);
    var cursor := Cursor(InToolPrepare, Some(id), step, 0, false, Some(batch.message), [],
                         turnId, turn, batch.mode, CallIds(batch.actions), batch.workflow, stream, batch.continuation);
    KernelStep(cursor,
               StepOpened(cursor)
                 + [PendingResolution(pending.interaction),
                    OperationFinished(PendingOp(pending.interaction), PendingInteraction)]
                 + [EffectStarted(cursor, ToolPreparation)],
               Some(PrepareTools(id, batch)), None, [])
  }

  function CallIds(actions: seq<ToolAction>): seq<string> {
    seq(|actions|, i requires 0 <= i < |actions| => actions[i].callId)
  }

  // -------------------------------------------------------------- acceptance

  function Accept(cursor: Cursor, result: EffectResult): Result<KernelStep> {
    if cursor.expected != Some(result.effect) then
      Err("effect_result_mismatch")
    else
      Ok(match result
         case ContextAssembled(_, _, _) => AcceptContext(cursor, result)
         case ProviderCompleted(_, _, _, _) => AcceptProvider(cursor, result)
         case ToolsPrepared(_, _, _, _, _) => AcceptPrepared(cursor, result)
         case ToolsCompleted(_, observations, events, tokens) =>
           AdvanceAfterTools(cursor, observations, events, tokens, true)
         case InteractionSuspended(_, _, _, _) => AcceptInteraction(cursor, result)
         case EffectFailed(_, _, _, _, _, _) => AcceptFailure(cursor, result))
  }

  function AcceptContext(cursor: Cursor, result: EffectResult): KernelStep
    requires result.ContextAssembled?
  {
    var attempt := cursor.attempt + 1;
    var id := EffectId(Provider, cursor.turn, cursor.step, attempt);
    var next := cursor.(phase := InProvider, expected := Some(id), attempt := attempt);
    KernelStep(next, result.events + [EffectStarted(next, ProviderRequest)],
               Some(RequestProvider(id, cursor.stream, result.deferred)), None, [])
  }

  function AcceptProvider(cursor: Cursor, result: EffectResult): KernelStep
    requires result.ProviderCompleted?
  {
    var message := MessageId(cursor.turn, cursor.step, cursor.attempt);
    var reply := result.reply;
    var events := result.events + [AssistantMessage(message, result.parent, reply.content, reply.actions)];
    if reply.actions == [] then
      var empty := Strip(reply.content) == "";
      var outcome := Transition(
        if empty then GuardStop else Completed,
        if empty then "provider returned empty assistant response without tool calls" else reply.content,
        None, cursor.mode, cursor.step);
      KernelStep(cursor.(phase := IsComplete, expected := None),
                 events + [StepFinished(cursor, ReasonText(outcome.reason), false)]
                   + TransitionEvents(cursor, outcome),
                 None, Some(outcome), [])
    else
      var id := EffectId(ToolPrepare, cursor.turn, cursor.step, cursor.attempt);
      var next := cursor.(message := Some(message), callIds := CallIds(reply.actions), invocationIds := [],
                          phase := InToolPrepare, expected := Some(id));
      var batch := PrepareBatch(message, reply.actions, cursor.mode, cursor.workflow,
                                IsLength(reply.finishReason), 0, [], [], ToContext, None);
      KernelStep(next, events + ToolPlanned(reply.actions) + [EffectStarted(next, ToolPreparation)],
                 Some(PrepareTools(id, batch)), None, [])
  }

  /** The provider stopped because its output was cut off. */
  predicate IsLength(finishReason: string) {
    Lower(Strip(finishReason)) == "length"
  }

  function AcceptPrepared(cursor: Cursor, result: EffectResult): KernelStep
    requires result.ToolsPrepared? && cursor.expected.Some?
  {
    var events := result.events + [EffectFinished(cursor, ToolPreparation)];
    if result.invocations == [] then
      AdvanceAfterTools(cursor, ImmediateObservations(result.immediates), events, result.tokens, false)
    else
      var id := EffectId(Tools, cursor.turn, cursor.step, cursor.attempt);
      var next := cursor.(phase := InToolExecute, expected := Some(id),
                          callIds := ProviderCallIds(result.invocations),
                          invocationIds := InvocationIds(result.invocations));
      KernelStep(next,
                 events + InvocationsStarted(next, result.invocations) + [EffectStarted(next, ToolRun)],
                 Some(ExecuteTools(id, result.invocations, result.immediates)), None, result.tokens)
  }

  function InvocationIds(invocations: seq<Invocation>): seq<OperationId> {
    seq(|invocations|, i requires 0 <= i < |invocations| => invocations[i].id)
  }

  function ProviderCallIds(invocations: seq<Invocation>): seq<string> {
    seq(|invocations|, i requires 0 <= i < |invocations| => invocations[i].providerCallId)
  }

  /** The observations of immediate results in order of their source index. */
  function ImmediateObservations(immediates: seq<Immediate>): seq<Observation> {
    Values(ByIndex(IndexedObservations(immediates)))
  }

  function IndexedObservations(immediates: seq<Immediate>): seq<(nat, Observation)> {
    seq(|immediates|, i requires 0 <= i < |immediates| => (immediates[i].sourceIndex, immediates[i].observation))
  }

  /** The mode chosen by the last observation that changed it. */
  function NextMode(mode: string, observations: seq<Observation>): string {
    if observations == [] then mode
    else
      var data := observations[|observations| - 1].data;
      if data.Fields? && data.modeChanged && Strip(data.selectedMode) != "" then Strip(data.selectedMode)
      else NextMode(mode, observations[..|observations| - 1])
  }

  function AdvanceAfterTools(cursor: Cursor, observations: seq<Observation>, events: seq<Event>, tokens: seq<int>,
                             closeTools: bool): KernelStep
    requires cursor.expected.Some?
  {
    var mode := NextMode(cursor.mode, observations);
    var closing := events + (if closeTools then [EffectFinished(cursor, ToolRun)] else []);
    if cursor.continuation.ToComplete? then
      var outcome := Transition(Completed, "command finished", None, mode, cursor.step);
      KernelStep(cursor.(phase := IsComplete, expected := None, mode := mode),
                 closing + [StepFinished(cursor, "completed", false)] + TransitionEvents(cursor, outcome),
                 None, Some(outcome), tokens)
    else
      var step := cursor.step + 1;
      var next := cursor.(phase := InContext,
                          expected := Some(EffectId(Context, cursor.turn, step, cursor.attempt)),
                          step := step, mode := mode, message := None, callIds := [], invocationIds := []);
      KernelStep(next,
                 closing + [StepFinished(cursor, "tool_calls", false)]
                   + (StepOpened(next) + [EffectStarted(next, ContextAssembly)]),
                 Some(ContextEffect(next, false)), None, tokens)
  }

  function AcceptInteraction(cursor: Cursor, result: EffectResult): KernelStep
    requires result.InteractionSuspended? && cursor.expected.Some?
  {
    var reason := if result.suspendedOn.kind.Permission? then PermissionWait else UserInputWait;
    var outcome := Transition(reason, "", Some(result.suspendedOn), cursor.mode, cursor.step);
    KernelStep(cursor.(phase := IsSuspended, expected := None),
               result.events
                 + [StepFinished(cursor, ReasonText(reason), false),
                    EffectFinished(cursor, PhaseOperation(cursor.phase))]
                 + TransitionEvents(cursor, outcome),
               None, Some(outcome), result.tokens)
  }

  function FailureReason(kind: FailureKind): TransitionReason {
    match kind
    case Cancelled => Aborted
    case SafetyLimit => MaxTurns
    case _ => GuardStop
  }

  function AcceptFailure(cursor: Cursor, result: EffectResult): KernelStep
    requires result.EffectFailed?
  {
    if result.kind.ContextLimit? && !cursor.compactRetryUsed then
      var id := EffectId(CompactContext, cursor.turn, cursor.step, cursor.attempt);
      var next := cursor.(phase := InContext, expected := Some(id), compactRetryUsed := true);
      var retry := Transition(CompactRetry, result.message, None, cursor.mode, cursor.step);
      KernelStep(next, result.events + [LoopTransition(retry), EffectStarted(next, ContextAssembly)],
                 Some(ContextEffect(next, true)), None, result.tokens)
    else
      var reason := FailureReason(result.kind);
      var outcome := Transition(reason, result.message, None, cursor.mode,
                                if result.turnsUsed != 0 then result.turnsUsed else cursor.step);
      KernelStep(cursor.(phase := IsFailed, expected := None),
                 result.events + UnclosedOperations(cursor, ClosedBy(result.events), ReasonText(reason))
                   + [StepFinished(cursor, ReasonText(reason), reason.Aborted?)]
                   + TransitionEvents(cursor, outcome),
                 None, Some(outcome), result.tokens)
  }
}
