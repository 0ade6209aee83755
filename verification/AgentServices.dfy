/** What the two services return for an effect: the events of `ProviderStepService`, and the
    part of `AgentToolActionService`'s results that the kernel relies on. */
module AgentServices {
  import opened Outcomes
  import opened OperationIds
  import opened AgentEffects
  import opened OperationLedger

  // -------------------------------------------------- context and provider

  /** The context is assembled, then recorded as a snapshot; replaced contents follow. */
  function ContextEvents(id: EffectId, replacements: nat): seq<Event> {
    [OperationFinished(EffectOp(id), ContextAssembly)]
    + [OperationStarted(SnapshotOp(id), ContextSnapshot, id.turn, id.step, ""),
       StateEvent("context_snapshot"),
       OperationFinished(SnapshotOp(id), ContextSnapshot)]
    + seq(replacements, _ => StateEvent("content_replacement"))
  }

  function DeferredEvents(compacted: bool): seq<Event> {
    if compacted then [StateEvent("compact_boundary"), StateEvent("compacted_history")] else []
  }

  function ContextResult(effect: Effect, replacements: nat, compacted: bool): EffectResult
    requires effect.AssembleContext?
  {
    ContextAssembled(effect.id, ContextEvents(effect.id, replacements), DeferredEvents(compacted))
  }

  datatype ProviderAnswer =
    | Answered(reply: Reply, parent: string)
    | ClientError(message: string, contextLimit: bool)

  /** Events deferred by the context step are delivered with the reply, or with a failure
      that the kernel may retry. */
  function ProviderResult(effect: Effect, answer: ProviderAnswer): EffectResult
    requires effect.RequestProvider?
  {
    match answer
    case Answered(reply, parent) =>
      ProviderCompleted(effect.id, reply, [OperationFinished(EffectOp(effect.id), ProviderRequest)] + effect.deferred,
                        parent)
    case ClientError(message, contextLimit) =>
      EffectFailed(effect.id, if contextLimit then ContextLimit else ProviderError, message,
                   [OperationInterrupted(EffectOp(effect.id), ProviderRequest,
                                         if contextLimit then "context_limit" else "provider_error")]
                     + (if contextLimit then effect.deferred else []),
                   [], 0)
  }

  // ------------------------------------------------------------------- tools

  /** How one executed invocation ended. */
  datatype Completion = Completion(observation: Observation, replaced: bool, patch: Option<OperationId>)
  {
    predicate WellFormed() {
      patch.Some? ==> patch.value.PatchOp?
    }
  }

  function PatchEvents(id: OperationId): seq<Event> {
    [OperationStarted(id, WorkflowPatch, "", 0, ""), StateEvent("workflow_patch"), OperationFinished(id, WorkflowPatch)]
  }

  function ToolClosed(id: OperationId, observation: Observation): Event {
    if observation.ErrorKind() in ["interrupted", "discarded"] then
      OperationInterrupted(id, ToolCall, observation.ErrorKind())
    else
      OperationFinished(id, ToolCall)
  }

  /** The events of one completed invocation; the last one closes its operation. */
  function CompletionEvents(invocation: Invocation, completion: Completion): seq<Event> {
    [ToolResult(invocation.original.callId, invocation.original.name, completion.observation)]
    + (if completion.replaced then [StateEvent("content_replacement")] else [])
    + (if completion.patch.Some? then PatchEvents(completion.patch.value) else [])
    + [ToolClosed(invocation.id, completion.observation)]
  }

  function AllCompletionEvents(invocations: seq<Invocation>, completions: seq<Completion>): seq<Event>
    requires |invocations| == |completions|
  {
    if invocations == [] then []
    else CompletionEvents(invocations[0], completions[0]) + AllCompletionEvents(invocations[1..], completions[1..])
  }

  /** Invocations are named after their batch and their place in it, in increasing order. */
  ghost predicate Named(invocations: seq<Invocation>, message: MessageId) {
    && (forall i | 0 <= i < |invocations| :: invocations[i].id == ToolOp(message, invocations[i].sourceIndex))
    && (forall i, j | 0 <= i < j < |invocations| :: invocations[i].sourceIndex < invocations[j].sourceIndex)
  }

  /** A suspended batch ends with the question it waits for. */
  predicate Asks(events: seq<Event>, interaction: string) {
    events != [] && events[|events| - 1] == InteractionAsked(interaction)
  }

  ghost predicate ServesPrepare(batch: PrepareBatch, result: EffectResult) {
    || (&& result.ToolsPrepared?
        && Neutral(result.events)
        && Named(result.invocations, batch.message)
        && |result.invocations| + |result.immediates| == |batch.actions|)
    || (&& result.InteractionSuspended?
        && Neutral(result.events)
        && NonBlank(result.suspendedOn.interaction)
        && Asks(result.events, result.suspendedOn.interaction))
  }

  ghost predicate ServesExecute(invocations: seq<Invocation>, immediates: seq<Immediate>, result: EffectResult) {
    && result.ToolsCompleted?
    && |result.observations| == |invocations| + |immediates|
    && exists completions: seq<Completion> ::
        && |completions| == |invocations|
        && (forall i | 0 <= i < |completions| :: completions[i].WellFormed())
        && result.events == AllCompletionEvents(invocations, completions)
  }

  /** `result` is one that the services may return for `effect`. */
  ghost predicate Serves(effect: Effect, result: EffectResult) {
    && result.effect == effect.id
    && match effect
       case AssembleContext(_, _, _, _) =>
         exists replacements: nat, compacted: bool :: result == ContextResult(effect, replacements, compacted)
       case RequestProvider(_, _, _) => exists answer :: result == ProviderResult(effect, answer)
       case PrepareTools(_, batch) => ServesPrepare(batch, result)
       case ExecuteTools(_, invocations, immediates) => ServesExecute(invocations, immediates, result)
  }
}
