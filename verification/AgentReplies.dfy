/** What a reply leads to in a run: the batch that is prepared for its actions, and what happens
    to a reply whose output was cut off. */
module AgentReplies {
  import opened Outcomes
  import opened Text
  import opened IndexSort
  import opened OperationIds
  import opened AgentEffects
  import opened AgentKernel
  import opened AgentServices
  import opened AgentRun
  import opened AgentLoop
  import opened ToolPreparation
  import opened ToolExecution
  import opened ToolResults
  import opened ToolClearance
  import opened AgentBatches

  /** The provider stopped at the limit of its output. */
  predicate CutOff(reply: Reply) {
    Lower(Strip(reply.finishReason)) == "length"
  }

  /** The batch that a reply with actions leads to: new, with exactly its actions, under the
      reply's message, mode and workflow of the step, and cut off exactly if the reply was. */
  predicate BatchOf(batch: PrepareBatch, cursor: Cursor, reply: Reply) {
    && IsNew(batch) && batch.actions == reply.actions
    && batch.message == MessageId(cursor.turn, cursor.step, cursor.attempt)
    && batch.mode == cursor.mode && batch.workflow == cursor.workflow
    && (batch.truncated <==> CutOff(reply))
    && batch.continuation.ToContext?
  }

  lemma ReplyBatch(step: KernelStep, tick: Tick, limit: Option<int>, next: KernelStep)
    requires step.effect.Some? && !tick.cancelledBefore && tick.result.ProviderCompleted?
    requires Accept(step.cursor, LoopResult(step, tick, limit)) == Ok(next)
    ensures tick.result.reply.actions == [] <==> next.outcome.Some?
    ensures tick.result.reply.actions != [] ==>
              && next.effect.Some? && next.effect.value.PrepareTools?
              && BatchOf(next.effect.value.batch, step.cursor, tick.result.reply)
  {
    hide Strip, Lower, ToolPlanned, TransitionEvents, Interrupted, SafetyLimitReached;
  }

  // --------------------------------------------------- all that is cut off

  /** An action is refused because its output was cut off. */
  predicate RefusedAsCutOff(x: Immediate) {
    !x.observation.success && x.observation.ErrorKind() == "truncated_tool_arguments"
  }

  lemma {:induction false} CutOffFrom(world: World, batch: PrepareBatch, handlers: Handlers, i: nat, progress: Progress)
    requires batch.truncated && batch.resume.None? && i <= |batch.actions|
    requires progress.prepared == [] && |progress.immediate| == i
    requires forall k | 0 <= k < i :: progress.immediate[k].sourceIndex == k && RefusedAsCutOff(progress.immediate[k])
    ensures var preparation := PrepareFrom(world, batch, handlers, i, progress);
            && preparation.Finished? && preparation.progress.prepared == []
            && |preparation.progress.immediate| == |batch.actions|
            && forall k | 0 <= k < |batch.actions| ::
                 preparation.progress.immediate[k].sourceIndex == k && RefusedAsCutOff(preparation.progress.immediate[k])
    decreases |batch.actions| - i
  {
    if i < |batch.actions| {
      var outcome := OutcomeAt(world, batch, i, handlers);
      StoppedBeforePolicy(world, batch, i, handlers);
      OutcomeFits(world, batch, i, handlers);
      assert outcome.Done? && outcome.immediate.sourceIndex == i && RefusedAsCutOff(outcome.immediate);
      hide PrepareAction, ResumeAction, OutcomeAt, RefusedAsCutOff;
      CutOffFrom(world, batch, handlers, i + 1, Add(progress, outcome));
    }
  }

  /** The paths that may not be written are refused for a reason of their own. */
  ghost predicate OwnReasons(world: World) {
    forall action, mode ::
      var failure := world.writeFailure(action, mode);
      failure.Some? ==> failure.value.kind != "truncated_tool_arguments"
  }

  lemma NotCutOffHere(world: World, batch: PrepareBatch, i: nat, handlers: Handlers)
    requires !batch.truncated && i < |batch.actions| && batch.resume.None? && OwnReasons(world)
    ensures var outcome := OutcomeAt(world, batch, i, handlers);
            outcome.Done? ==> outcome.immediate.observation.ErrorKind() != "truncated_tool_arguments"
  {
    hide Evaluate, Interactive, ReadyInvocation;
    assert Failed("", MODE_BLOCKED).ErrorKind() == "mode_tool_blocked";
    forall effective: ToolAction, category: string, response ensures
      var outcome := Permitted(world, batch, i, effective, category, response);
      outcome.Done? ==> outcome.immediate.observation.ErrorKind() != "truncated_tool_arguments"
    {
      PermittedHere(world, batch, i, effective, category, response);
    }
    hide Permitted;
  }

  lemma PermittedHere(world: World, batch: PrepareBatch, i: nat, effective: ToolAction, category: string, response: Option<Resolution>)
    requires i < |batch.actions| && OwnReasons(world)
    ensures var outcome := Permitted(world, batch, i, effective, category, response);
            outcome.Done? ==> outcome.immediate.observation.ErrorKind() != "truncated_tool_arguments"
  {
    hide Interactive;
  }

  lemma {:induction false} NotCutOffFrom(world: World, batch: PrepareBatch, handlers: Handlers, i: nat, progress: Progress)
    requires !batch.truncated && batch.resume.None? && OwnReasons(world)
    requires forall x | x in progress.immediate :: x.observation.ErrorKind() != "truncated_tool_arguments"
    ensures forall x | x in PrepareFrom(world, batch, handlers, i, progress).progress.immediate ::
              x.observation.ErrorKind() != "truncated_tool_arguments"
    decreases |batch.actions| - i
  {
    hide OutcomeAt, OwnReasons;
    if i < |batch.actions| && !OutcomeAt(world, batch, i, handlers).Waiting? {
      NotCutOffHere(world, batch, i, handlers);
      NotCutOffFrom(world, batch, handlers, i + 1, Add(progress, OutcomeAt(world, batch, i, handlers)));
    }
  }

  // ---------------------------------------------------------------- in a run

  /** The preparation of a batch that was cut off. */
  lemma CutOffSettles(world: World, batch: PrepareBatch, handlers: Handlers)
    requires batch.truncated && IsNew(batch)
    ensures var preparation := PrepareAll(world, batch, handlers);
            && preparation.Finished? && preparation.progress.prepared == []
            && |preparation.progress.immediate| == |batch.actions|
            && (forall x | x in preparation.progress.immediate :: RefusedAsCutOff(x))
            && Slotted(batch, |batch.actions|, preparation.progress)
  {
    CutOffFrom(world, batch, handlers, 0, Prefix(batch));
    NewBatchIsSound(batch);
    hide RefusedAsCutOff, Slotted;
    SittingPlaces(Sitting(world, handlers, batch));
  }

  /** What the step after a reply with actions leads to, when its turn is not cancelled. */
  ghost predicate CutOffRefused(reply: Reply, step: KernelStep, result: EffectResult) {
    && result.ToolsPrepared? && result.invocations == []
    && step.effect.Some?
    && var pairs := ToolResultPairs(step.effect.value, result);
       |pairs| == |reply.actions|
       && forall k | 0 <= k < |pairs| ::
            pairs[k].0 == reply.actions[k] && !pairs[k].1.success && pairs[k].1.ErrorKind() == "truncated_tool_arguments"
  }

  lemma PreparedReply(step: KernelStep, tick: Tick, around: Surroundings, cursor: Cursor, reply: Reply)
    requires step.effect.Some? && step.effect.value.PrepareTools? && BatchOf(step.effect.value.batch, cursor, reply)
    requires Serviced(step, tick, around) && !tick.cancelledBefore
    ensures CutOff(reply) ==> CutOffRefused(reply, step, tick.result)
    ensures !CutOff(reply) && OwnReasons(around.world) && tick.result.ToolsPrepared? ==>
              forall x | x in tick.result.immediates :: x.observation.ErrorKind() != "truncated_tool_arguments"
  {
    var batch := step.effect.value.batch;
    hide OwnReasons, PrepareFrom, Slotted, InteractionId, CutOff, ToolResultPairs, Executed;
    if CutOff(reply) {
      CutOffSettles(around.world, batch, around.handlers);
      var progress := PrepareAll(around.world, batch, around.handlers).progress;
      PreparedPairsAreOwn(batch, progress, step.effect.value, tick.result);
    } else if OwnReasons(around.world) {
      NotCutOffFrom(around.world, batch, around.handlers, 0, Prefix(batch));
    }
  }

  /** In every run, a reply that was cut off at its length has none of its actions executed:
      the next step refuses each of them as truncated_tool_arguments, in order, and no execution
      follows. After any other reply no action is refused for that reason. */
  lemma CutOffReply(steps: seq<KernelStep>, ticks: seq<Tick>, limit: Option<int>, around: seq<Surroundings>, i: nat)
    requires IsServed(steps, ticks, limit, around) && i + 1 < |ticks|
    requires !ticks[i].cancelledBefore && !ticks[i + 1].cancelledBefore
    requires ticks[i].result.ProviderCompleted? && ticks[i].result.reply.actions != []
    ensures |steps| == |ticks| + 1 == |around| + 1
    ensures var reply := ticks[i].result.reply;
            if CutOff(reply) then
              && CutOffRefused(reply, steps[i + 1], ticks[i + 1].result)
              && !(steps[i + 2].effect.Some? && steps[i + 2].effect.value.ExecuteTools?)
            else
              OwnReasons(around[i + 1].world) && ticks[i + 1].result.ToolsPrepared? ==>
                forall x | x in ticks[i + 1].result.immediates :: x.observation.ErrorKind() != "truncated_tool_arguments"
  {
    hide *;
    LastServed(steps, ticks, limit, around, i + 1);
    LastServed(steps, ticks, limit, around, i + 2);
    ReplyBatch(steps[i], ticks[i], limit, steps[i + 1]);
    PreparedReply(steps[i + 1], ticks[i + 1], around[i + 1], steps[i].cursor, ticks[i].result.reply);
    if CutOff(ticks[i].result.reply) {
      NothingToExecute(steps[i + 1], ticks[i + 1], limit, steps[i + 2], ticks[i].result.reply);
    }
  }

  lemma NothingToExecute(step: KernelStep, tick: Tick, limit: Option<int>, next: KernelStep, reply: Reply)
    requires CutOffRefused(reply, step, tick.result) && !tick.cancelledBefore
    requires Accept(step.cursor, LoopResult(step, tick, limit)) == Ok(next)
    ensures !(next.effect.Some? && next.effect.value.ExecuteTools?)
  {
    hide ToolPlanned, InvocationsStarted, TransitionEvents, UnclosedOperations, ImmediateObservations, NextMode, StepOpened,
         ClosedBy, ToolResultPairs, SafetyLimitReached;
  }

  // --------------------------------------------------------------- commands

  /** The action was settled, and not as cut off, or it was handed out. */
  ghost predicate OneSettled(invocations: seq<Invocation>, immediates: seq<Immediate>, action: ToolAction, mode: string,
                             workflow: string)
  {
    || (invocations == [] && |immediates| == 1 && immediates[0].original == action && !RefusedAsCutOff(immediates[0]))
    || (immediates == [] && |invocations| == 1 && invocations[0].original == action
        && invocations[0].mode == mode && invocations[0].workflow == workflow)
  }

  /** A run that was begun by a command prepares the one action of the command first, in the mode
      and workflow that it was given. It is settled or handed out, and not refused as cut off. */
  lemma CommandPrepared(steps: seq<KernelStep>, ticks: seq<Tick>, limit: Option<int>, around: seq<Surroundings>, turnId: string,
                        mode: string, workflow: string, action: ToolAction, parent: string, stepIndex: int)
    requires IsServed(steps, ticks, limit, around) && |ticks| >= 1 && !ticks[0].cancelledBefore
    requires steps[0] == CommandTool(turnId, mode, workflow, action, parent, stepIndex)
    requires OwnReasons(around[0].world) && ticks[0].result.ToolsPrepared?
    ensures OneSettled(ticks[0].result.invocations, ticks[0].result.immediates, action, mode, workflow)
  {
    LastServed(steps, ticks, limit, around, 1);
    var batch := steps[0].effect.value.batch;
    var preparation := PrepareAll(around[0].world, batch, around[0].handlers);
    CommandSettles(around[0].world, batch, around[0].handlers, action);
    assert ticks[0].result == PreparationOf(steps[0].effect.value.id, batch, around[0]);
    hide OwnReasons, OneSettled, PrepareAll, IsServed, InteractionId, RefusedAsCutOff, Accept, LoopResult;
    assert preparation.Finished?;
  }

  lemma CommandSettles(world: World, batch: PrepareBatch, handlers: Handlers, action: ToolAction)
    requires IsNew(batch) && batch.actions == [action] && !batch.truncated && OwnReasons(world)
    ensures var preparation := PrepareAll(world, batch, handlers);
            preparation.Finished? ==>
              OneSettled(preparation.progress.prepared, preparation.progress.immediate, action, batch.mode, batch.workflow)
  {
    OneOutcome(world, batch, handlers);
    NotCutOffHere(world, batch, 0, handlers);
    OutcomeFits(world, batch, 0, handlers);
    ReadyInBatch(world, batch, handlers);
    hide OwnReasons, OutcomeAt, PrepareAll;
  }

  lemma ReadyInBatch(world: World, batch: PrepareBatch, handlers: Handlers)
    requires IsNew(batch) && batch.actions != []
    ensures var outcome := OutcomeAt(world, batch, 0, handlers);
            outcome.Ready? ==> outcome.invocation.mode == batch.mode && outcome.invocation.workflow == batch.workflow
  {
    hide Evaluate, Interactive, WriteFailure, Presentation, Enter, ToolPreparation.Answered;
  }

  /** A new batch of one action. */
  lemma OneOutcome(world: World, batch: PrepareBatch, handlers: Handlers)
    requires IsNew(batch) && |batch.actions| == 1
    ensures var outcome, preparation := OutcomeAt(world, batch, 0, handlers), PrepareAll(world, batch, handlers);
            && (outcome.Waiting? ==> preparation.Suspended?)
            && (outcome.Ready? ==> preparation.progress.prepared == [outcome.invocation] && preparation.progress.immediate == [])
            && (outcome.Done? ==> preparation.progress.prepared == [] && preparation.progress.immediate == [outcome.immediate])
  {
    hide OutcomeAt;
    var outcome := OutcomeAt(world, batch, 0, handlers);
    if !outcome.Waiting? {
      var progress := Add(Prefix(batch), outcome);
      assert PrepareFrom(world, batch, handlers, 1, progress) == Finished(progress);
    }
  }
}
