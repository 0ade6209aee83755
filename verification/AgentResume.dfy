/** Suspending and resuming a batch through the kernel: the checkpoint is rebuilt, a new run
    begins with the rebuilt batch, and its first step prepares it. */
module AgentResume {
  import opened Outcomes
  import opened OperationIds
  import opened AgentEffects
  import opened AgentKernel
  import opened AgentLoop
  import opened ToolPreparation
  import opened ToolCheckpoint
  import opened ToolConversation
  import opened ToolClearance
  import opened AgentBatches

  /** How a suspended batch comes back: the interaction it waited for, mode and workflow of the
      session at that moment, and the run that begins. */
  datatype Resumption = Resumption(
    interaction: string,
    mode: string,
    workflow: string,
    turnId: string,
    stream: bool,
    stepIndex: int)

  /** The first step of the run that a suspended batch is resumed in, once its interaction is
      answered. */
  function ResumedStep(batch: PrepareBatch, waited: Preparation, resolution: Resolution, via: Resumption): Result<KernelStep>
    requires waited.Suspended?
  {
    var stored := Suspend(batch, waited, via.interaction);
    match Rebuild(stored, resolution, via.mode, via.workflow)
    case Err(error) => Err(error)
    case Ok(rebuilt) => Ok(ResumePreparation(stored.pending, rebuilt, via.turnId, via.stream, via.stepIndex))
  }

  /** Mode and workflow are still those of the batch. */
  predicate StillThere(batch: PrepareBatch, via: Resumption) {
    via.mode == batch.mode && (via.workflow == "" || via.workflow == batch.workflow)
  }

  /** The run begins if and only if mode and workflow have not changed, and its first effect is
      to prepare the batch as it stood, with the answer. */
  lemma ResumedStepPrepares(batch: PrepareBatch, waited: Preparation, resolution: Resolution, via: Resumption)
    requires Placed(batch, waited) && waited.Suspended?
    ensures var step := ResumedStep(batch, waited, resolution, via);
            && (step.Ok? <==> StillThere(batch, via))
            && (step.Ok? ==>
                  && step.value.effect.Some? && step.value.effect.value.PrepareTools?
                  && step.value.effect.value.batch == Resumed(batch, waited, resolution)
                  && step.value.cursor.expected == Some(step.value.effect.value.id)
                  && step.value.cursor.mode == batch.mode && step.value.cursor.workflow == batch.workflow
                  && step.value.cursor.continuation == batch.continuation && step.value.outcome.None?)
  {
    hide Placed;
    RebuildRestores(batch, waited, via.interaction, resolution, via.mode, via.workflow);
    hide Rebuild, Suspend;
  }

  // -------------------------------------------------- what was settled stays

  /** The answered action, as it is settled by the answer alone: refused without approval; with
      approval it is the action that was asked about, unless its path may not be written or its
      tool is gone; an answered question succeeds. */
  ghost predicate SettledByAnswer(world: World, batch: PrepareBatch, waited: Preparation, resolution: Resolution, outcome: Outcome)
    requires waited.Suspended? && waited.index < |batch.actions|
  {
    match waited.kind
    case UserInput =>
      && outcome.Done? && outcome.immediate.sourceIndex == waited.index && outcome.immediate.effective == waited.effective
      && outcome.immediate.observation.success && outcome.immediate.observation.toolName == waited.effective.name
    case Permission =>
      if !resolution.approved then
        && RefusedAs(outcome, batch.actions[waited.index].name, "permission_denied")
        && outcome.immediate.sourceIndex == waited.index
      else
        && (outcome.Ready? <==>
              MayWrite(world, waited.effective, batch.mode) && world.catalog(waited.effective.name).Some?)
        && (outcome.Ready? ==> outcome.invocation.sourceIndex == waited.index && outcome.invocation.effective == waited.effective)
        && !outcome.Waiting?
  }

  lemma AnswerSettles(world: World, batch: PrepareBatch, waited: Preparation, resolution: Resolution)
    requires waited.Suspended? && waited.index < |batch.actions|
    ensures SettledByAnswer(world, batch, waited, resolution,
                            ResumeAction(world, Resumed(batch, waited, resolution), waited.index))
  {
    OnlyApprovedResume(world, Resumed(batch, waited, resolution), waited.index);
    hide WriteFailure, Presentation;
  }

  /** When the first step of a resumed run prepares its batch, in whatever world by then and
      whoever is there to answer, everything that was settled before the suspension is kept,
      the action that waited comes next, settled by the answer, and is not asked about again;
      every action up to where it stops has one slot. */
  lemma ResumedSettles(batch: PrepareBatch, waited: Preparation, resolution: Resolution, via: Resumption, world: World,
                       handlers: Handlers)
    requires Placed(batch, waited) && waited.Suspended? && StillThere(batch, via)
    ensures var step := ResumedStep(batch, waited, resolution, via);
            && step.Ok? && step.value.effect.Some? && step.value.effect.value.PrepareTools?
            && var later := PrepareAll(world, step.value.effect.value.batch, handlers);
               var answered := ResumeAction(world, step.value.effect.value.batch, waited.index);
               && !answered.Waiting? && SettledByAnswer(world, batch, waited, resolution, answered)
               && Grows(Add(waited.progress, answered), later.progress)
               && (later.Suspended? ==> later.index > waited.index)
               && Placed(batch, later)
  {
    hide *;
    ResumedStepPrepares(batch, waited, resolution, via);
    var resumed := Resumed(batch, waited, resolution);
    SameFrame(batch, waited, resolution);
    ResumedIsSound(batch, waited, resolution);
    AnswerSettles(world, batch, waited, resolution);
    FirstExtends(world, resumed, handlers);
    PlacedEither(batch, resumed, PrepareAll(world, resumed, handlers));
    SettledIs(world, batch, waited, resolution, PrepareAll(world, resumed, handlers).progress);
  }

  lemma SameFrame(batch: PrepareBatch, waited: Preparation, resolution: Resolution)
    requires Placed(batch, waited) && waited.Suspended?
    ensures var resumed := Resumed(batch, waited, resolution);
            && waited.index < |batch.actions| && resumed.startIndex == waited.index && resumed.resume.Some?
            && resumed.actions == batch.actions && resumed.message == batch.message && resumed.truncated == batch.truncated
            && resumed.mode == batch.mode && resumed.workflow == batch.workflow
  {
    hide Slotted;
  }

  lemma SettledIs(world: World, batch: PrepareBatch, waited: Preparation, resolution: Resolution, later: Progress)
    requires waited.Suspended? && waited.index < |batch.actions|
    requires Resumed(batch, waited, resolution).resume.Some?
    requires Grows(Settled(world, Resumed(batch, waited, resolution)), later)
    ensures !ResumeAction(world, Resumed(batch, waited, resolution), waited.index).Waiting?
    ensures Grows(Add(waited.progress, ResumeAction(world, Resumed(batch, waited, resolution), waited.index)), later)
  {
    ResumeNeverWaits(world, Resumed(batch, waited, resolution), waited.index);
    hide ResumeAction;
  }

  // ------------------------------------------------ any number of resumptions

  /** The preparations of one batch, each suspension answered and the batch resumed in a run of
      its own, for as long as there are handlers for another turn. */
  function Legs(world: World, batch: PrepareBatch, turns: seq<Handlers>, answers: Answers, via: seq<Resumption>): (all: seq<Preparation>)
    requires turns != [] && |via| == |turns|
    ensures all != []
    decreases |turns|
  {
    var first := PrepareAll(world, batch, turns[0]);
    if first.Finished? || |turns| == 1 then [first]
    else
      match ResumedStep(batch, first, answers(first.index), via[0])
      case Ok(step) =>
        if step.effect.Some? && step.effect.value.PrepareTools? then
          [first] + Legs(world, step.effect.value.batch, turns[1..], answers, via[1..])
        else [first]
      case Err(_) => [first]
  }

  ghost predicate AllStillThere(batch: PrepareBatch, via: seq<Resumption>) {
    forall k | 0 <= k < |via| :: StillThere(batch, via[k])
  }

  lemma {:induction false} LegsAreConversation(world: World, batch: PrepareBatch, turns: seq<Handlers>, answers: Answers,
                                               via: seq<Resumption>)
    requires Sound(batch) && turns != [] && |via| == |turns| && AllStillThere(batch, via)
    ensures Legs(world, batch, turns, answers, via) == Conversation(world, batch, turns, answers)
    decreases |turns|
  {
    var first := PrepareAll(world, batch, turns[0]);
    hide PrepareAll, ResumedStep, Placed, Sound;
    if first.Suspended? && |turns| > 1 {
      FirstExtends(world, batch, turns[0]);
      ResumedStepPrepares(batch, first, answers(first.index), via[0]);
      ResumedIsSound(batch, first, answers(first.index));
      SameFrame(batch, first, answers(first.index));
      assert StillThere(batch, via[0]);
      hide StillThere;
      StillThereLater(batch, Resumed(batch, first, answers(first.index)), via);
      LegsAreConversation(world, Resumed(batch, first, answers(first.index)), turns[1..], answers, via[1..]);
    }
  }

  lemma StillThereLater(batch: PrepareBatch, resumed: PrepareBatch, via: seq<Resumption>)
    requires via != [] && AllStillThere(batch, via) && resumed.mode == batch.mode && resumed.workflow == batch.workflow
    ensures AllStillThere(resumed, via[1..])
  {
    forall k | 0 <= k < |via[1..]| ensures StillThere(resumed, via[1..][k]) {
      assert StillThere(batch, via[k + 1]);
    }
  }

  /** Through the kernel: a batch that is suspended, stored, rebuilt and resumed in new runs any
      number of times ends with the invocations, immediate results and events of answering
      inline, if and only if no interactive action was asked about and approved after a
      suspension; the suspended actions come in strictly increasing order, so none is asked
      about twice. */
  lemma ResumedAsInline(world: World, batch: PrepareBatch, turns: seq<Handlers>, answers: Answers, via: seq<Resumption>)
    requires Sound(batch) && turns != [] && |via| == |turns| && AllAgree(turns, answers) && AllStillThere(batch, via)
    requires Last(Legs(world, batch, turns, answers, via)).Finished?
    ensures var all, inline := Legs(world, batch, turns, answers, via), PrepareAll(world, batch, Inline(answers));
            && inline.Finished?
            && (SameSlots(Last(all), inline) <==> !MeetsDetour(world, batch, turns, answers, batch.startIndex))
            && (SameSlots(Last(all), inline) ==> AllEvents(all) == inline.progress.events)
            && Advancing(all) && Placed(batch, Last(all))
  {
    hide *;
    LegsAreConversation(world, batch, turns, answers, via);
    InlineUnlessAsked(world, batch, turns, answers);
    ConversationProgress(world, batch, turns, answers);
  }

  /** A served run that a suspended batch is resumed in: unless it is cancelled at once, what its
      first step hands to the kernel is the preparation of the batch with the answer. */
  lemma ResumedRunPrepares(batch: PrepareBatch, waited: Preparation, resolution: Resolution, via: Resumption,
                           steps: seq<KernelStep>, ticks: seq<Tick>, limit: Option<int>, around: seq<Surroundings>)
    requires Placed(batch, waited) && waited.Suspended?
    requires IsServed(steps, ticks, limit, around) && ticks != [] && !ticks[0].cancelledBefore
    requires ResumedStep(batch, waited, resolution, via) == Ok(steps[0])
    ensures steps[0].effect.Some?
    ensures ticks[0].result == PreparationOf(steps[0].effect.value.id, Resumed(batch, waited, resolution), around[0])
  {
    hide Placed, ResumedStep, PreparationOf, Executed, Accept, LoopResult;
    ResumedStepPrepares(batch, waited, resolution, via);
    assert Serviced(steps[0], ticks[0], around[0]);
  }

  // ------------------------------------------------------------ what is asked

  /** Action `k`, as its hook leaves it, needs an answer of that kind and nobody gives it. */
  ghost predicate WaitsFor(world: World, batch: PrepareBatch, handlers: Handlers, k: nat, kind: InteractionKind, effective: ToolAction)
  {
    && k < |batch.actions| && Hooked(world, batch, k) == Some(effective)
    && match kind
       case Permission => Asks(world.policy, effective) && handlers.permit(k).None?
       case UserInput =>
         && Interactive(effective.name) && handlers.respond(k).None? && MayWrite(world, effective, batch.mode)
         && (Grants(world.policy, effective) || (Asks(world.policy, effective) && handlers.permit(k) == Some(true)))
  }

  /** An action waits for an answer of a kind if and only if it needs one and nobody gives it. */
  lemma WaitingTold(world: World, batch: PrepareBatch, k: nat, handlers: Handlers, kind: InteractionKind, effective: ToolAction)
    requires k < |batch.actions|
    ensures var outcome := PrepareAction(world, batch, k, handlers);
            (outcome.Waiting? && outcome.kind == kind && outcome.effective == effective)
            <==> WaitsFor(world, batch, handlers, k, kind, effective)
  {
    EnterIsHooked(world, batch, k);
    if Enter(world, batch, k).Open? {
      DecidesToWait(world, batch, k, Enter(world, batch, k).effective, handlers);
    }
    hide Enter, Hooked, Decide, Asks, Grants, Interactive, MayWrite;
  }

  lemma DecidesToWait(world: World, batch: PrepareBatch, k: nat, effective: ToolAction, handlers: Handlers)
    requires k < |batch.actions|
    ensures var outcome := Decide(world, batch, k, effective, handlers);
            && (outcome.Waiting? ==> outcome.effective == effective)
            && (outcome.Waiting? && outcome.kind.Permission? <==> Asks(world.policy, effective) && handlers.permit(k).None?)
            && (outcome.Waiting? && outcome.kind.UserInput? <==>
                  && Interactive(effective.name) && handlers.respond(k).None? && MayWrite(world, effective, batch.mode)
                  && (Grants(world.policy, effective) || (Asks(world.policy, effective) && handlers.permit(k) == Some(true))))
  {
    PolicyDecides(world.policy, effective);
    WriteChecked(world, effective, batch.mode);
    hide Evaluate, Asks, Grants, Interactive, MayWrite, WriteFailure, ReadyInvocation, Answered;
  }

  /** What the outcome of the run tells about the action that it waits for. */
  ghost predicate AskedAbout(outcome: Transition, world: World, batch: PrepareBatch, handlers: Handlers, k: nat, effective: ToolAction) {
    && outcome.pending.Some?
    && WaitsFor(world, batch, handlers, k, outcome.pending.value.kind, effective)
    && outcome.pending.value.toolName == effective.name
    && outcome.reason == (if outcome.pending.value.kind.Permission? then PermissionWait else UserInputWait)
  }

  /** When a turn of a served run is suspended, the run ends waiting for the answer that some action
      of its batch needs and nobody gave, of that kind and for the tool of that action. It is the
      first such action, and not the one that the batch was resumed with. */
  lemma SuspensionTells(steps: seq<KernelStep>, ticks: seq<Tick>, limit: Option<int>, around: seq<Surroundings>, i: nat)
    returns (k: nat, effective: ToolAction)
    requires IsServed(steps, ticks, limit, around) && i < |ticks| && !ticks[i].cancelledBefore
    requires ticks[i].result.InteractionSuspended?
    requires steps[i].effect.Some? && steps[i].effect.value.PrepareTools?
    ensures |steps| == |ticks| + 1 && |around| == |ticks|
    ensures var batch, at := steps[i].effect.value.batch, around[i];
            && steps[i + 1].outcome.Some?
            && AskedAbout(steps[i + 1].outcome.value, at.world, batch, at.handlers, k, effective)
            && batch.startIndex <= k && (batch.resume.Some? ==> batch.startIndex < k)
            && forall j | batch.startIndex <= j < k ::
                 j < |batch.actions| && !OutcomeAt(at.world, batch, j, at.handlers).Waiting?
  {
    LastServed(steps, ticks, limit, around, i + 1);
    var batch, at := steps[i].effect.value.batch, around[i];
    var preparation := PrepareAll(at.world, batch, at.handlers);
    assert ticks[i].result == PreparationOf(steps[i].effect.value.id, batch, at);
    k, effective := SuspendedAt(at.world, batch, at.handlers);
    SuspendedEnds(steps[i], ticks[i], limit, steps[i + 1]);
    hide IsServed, Accept, LoopResult, PrepareFrom, WaitsFor, OutcomeAt, InteractionId, Executed;
  }

  lemma SuspendedEnds(step: KernelStep, tick: Tick, limit: Option<int>, next: KernelStep)
    requires step.effect.Some? && !tick.cancelledBefore && tick.result.InteractionSuspended?
    requires Accept(step.cursor, LoopResult(step, tick, limit)) == Ok(next)
    ensures next.outcome.Some? && next.outcome.value.pending == Some(tick.result.suspendedOn)
    ensures next.outcome.value.reason == if tick.result.suspendedOn.kind.Permission? then PermissionWait else UserInputWait
  {
    hide TransitionEvents;
  }

  /** The place of a suspension. */
  lemma SuspendedAt(world: World, batch: PrepareBatch, handlers: Handlers) returns (k: nat, effective: ToolAction)
    requires PrepareAll(world, batch, handlers).Suspended?
    ensures var preparation := PrepareAll(world, batch, handlers);
            && k == preparation.index && effective == preparation.effective
            && WaitsFor(world, batch, handlers, k, preparation.kind, effective)
            && batch.startIndex <= k && (batch.resume.Some? ==> batch.startIndex < k)
            && forall j | batch.startIndex <= j < k ::
                 j < |batch.actions| && !OutcomeAt(world, batch, j, handlers).Waiting?
  {
    var preparation := PrepareAll(world, batch, handlers);
    k, effective := preparation.index, preparation.effective;
    FirstWaiting(world, batch, handlers, batch.startIndex, Prefix(batch));
    hide PrepareFrom, PrepareAction, ResumeAction, WaitsFor;
    WaitingTold(world, batch, k, handlers, preparation.kind, effective);
  }
}
