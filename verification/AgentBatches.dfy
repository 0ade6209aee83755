/** The tool batches of a run: how they are prepared and executed decides that they serve the
    kernel, and that nothing is executed that was not permitted. */
module AgentBatches {
  import opened Outcomes
  import opened Text
  import opened OperationIds
  import opened AgentEffects
  import opened AgentKernel
  import opened AgentServices
  import opened AgentRun
  import opened AgentLoop
  import opened AgentProgress
  import opened ToolPreparation
  import opened ToolClearance
  import opened ToolExecution
  import opened ToolResults

  /** What one turn of the loop finds around it: the world that a preparation consults, who
      answers, how a new interaction is named, and what tools do. */
  datatype Surroundings = Surroundings(world: World, handlers: Handlers, details: string, random: string, tools: Tools)

  /** The result of the batch's preparation. */
  function PreparationOf(id: EffectId, batch: PrepareBatch, around: Surroundings): EffectResult {
    ToolPreparation.Result(id, PrepareAll(around.world, batch, around.handlers), InteractionId(around.details, around.random))
  }

  /** The invocations were run in their groups. */
  ghost predicate Executed(id: EffectId, invocations: seq<Invocation>, immediates: seq<Immediate>, tools: Tools,
                           result: EffectResult)
  {
    Delivers(tools)
    && exists groups :: Partitions(groups, invocations) && PatchesOnly(RunGroups(tools, groups, false))
                        && result == Collect(id, immediates, RunGroups(tools, groups, false))
  }

  /** The result of a turn is made by the services as they are modelled. */
  ghost predicate Serviced(step: KernelStep, tick: Tick, around: Surroundings) {
    && step.effect.Some?
    && (tick.cancelledBefore
        || match step.effect.value
           case PrepareTools(id, batch) => NonBlank(around.random) && tick.result == PreparationOf(id, batch, around)
           case ExecuteTools(id, invocations, immediates) =>
             Executed(id, invocations, immediates, around.tools, tick.result)
           case _ => Serves(step.effect.value, tick.result))
  }

  ghost predicate IsServed(steps: seq<KernelStep>, ticks: seq<Tick>, limit: Option<int>, around: seq<Surroundings>) {
    && |steps| == |ticks| + 1 && |around| == |ticks|
    && forall i | 0 <= i < |ticks| ::
         && Serviced(steps[i], ticks[i], around[i])
         && Accept(steps[i].cursor, LoopResult(steps[i], ticks[i], limit)) == Ok(steps[i + 1])
  }

  /** The batch that a step asks to prepare is sound. */
  ghost predicate Batched(step: KernelStep) {
    step.effect.Some? && step.effect.value.PrepareTools? ==> Sound(step.effect.value.batch)
  }

  lemma ExecutedServes(step: KernelStep, result: EffectResult, tools: Tools)
    requires Shaped(step) && step.effect.Some? && step.effect.value.ExecuteTools?
    requires Executed(step.effect.value.id, step.effect.value.invocations, step.effect.value.immediates, tools, result)
    ensures Serves(step.effect.value, result)
  {
    var effect := step.effect.value;
    var groups :| Partitions(groups, effect.invocations) && PatchesOnly(RunGroups(tools, groups, false))
                  && result == Collect(effect.id, effect.immediates, RunGroups(tools, groups, false));
    hide Partitions, RunGroups, Delivers, PatchesOnly;
    ExecuteServes(tools, groups, effect.id, effect.invocations, effect.immediates, step.cursor.message.value);
  }

  lemma PreparationServes(step: KernelStep, around: Surroundings)
    requires step.effect.Some? && step.effect.value.PrepareTools? && Batched(step) && NonBlank(around.random)
    ensures Serves(step.effect.value, PreparationOf(step.effect.value.id, step.effect.value.batch, around))
  {
    hide PrepareAll, Sound, ServesPrepare, InteractionId;
    PrepareServes(around.world, step.effect.value.batch, around.handlers, step.effect.value.id, around.details,
                  around.random);
  }

  /** Results that the services make are results that the kernel relies on. */
  lemma ServicedIsFed(step: KernelStep, tick: Tick, around: Surroundings)
    requires Shaped(step) && Batched(step) && Serviced(step, tick, around)
    ensures Fed(step, tick)
  {
    if !tick.cancelledBefore {
      hide Serves, Sound, Shaped, PreparationOf, Executed, NonBlank, Batched;
      if step.effect.value.PrepareTools? {
        PreparationServes(step, around);
      } else if step.effect.value.ExecuteTools? {
        ExecutedServes(step, tick.result, around.tools);
      }
    }
  }

  /** The kernel hands out new batches only after a reply, and those are sound. */
  lemma NextIsNew(cursor: Cursor, result: EffectResult)
    requires Accept(cursor, result).Ok?
    ensures var next := Accept(cursor, result).value;
            next.effect.Some? && next.effect.value.PrepareTools? ==> IsNew(next.effect.value.batch)
  {
    hide ToolPlanned, InvocationsStarted, TransitionEvents, UnclosedOperations, ImmediateObservations, NextMode, StepOpened,
         ClosedBy, IsLength;
  }

  lemma NextBatched(cursor: Cursor, result: EffectResult)
    requires Accept(cursor, result).Ok?
    ensures Batched(Accept(cursor, result).value)
  {
    NextIsNew(cursor, result);
    hide Accept, Sound;
    var next := Accept(cursor, result).value;
    if next.effect.Some? && next.effect.value.PrepareTools? {
      NewBatchIsSound(next.effect.value.batch);
    }
  }

  /** Every batch of a run is sound, so what the services make of it is a run in the sense of
      all results about runs. */
  lemma {:induction false} ServedIsRun(steps: seq<KernelStep>, ticks: seq<Tick>, limit: Option<int>,
                                       around: seq<Surroundings>, n: nat)
    requires IsServed(steps, ticks, limit, around) && n <= |ticks|
    requires Shaped(steps[0]) && Batched(steps[0]) && (steps[0].effect.Some? ==> Steady(steps[0].cursor))
    ensures IsRun(steps[..n + 1], ticks[..n], limit)
    ensures Shaped(steps[n]) && Batched(steps[n])
  {
    if n > 0 {
      ServedIsRun(steps, ticks, limit, around, n - 1);
      LastServed(steps, ticks, limit, around, n);
      hide IsServed, Serviced, Accept, LoopResult, Fed, Batched, Shaped, Steady;
      ServicedIsFed(steps[n - 1], ticks[n - 1], around[n - 1]);
      NextBatched(steps[n - 1].cursor, LoopResult(steps[n - 1], ticks[n - 1], limit));
      RunGrows(steps, ticks, limit, n);
      RunForward(steps[..n + 1], ticks[..n], limit, n);
    }
  }

  lemma LastServed(steps: seq<KernelStep>, ticks: seq<Tick>, limit: Option<int>, around: seq<Surroundings>, n: nat)
    requires IsServed(steps, ticks, limit, around) && 0 < n <= |ticks|
    ensures |steps| == |ticks| + 1 && |around| == |ticks|
    ensures Serviced(steps[n - 1], ticks[n - 1], around[n - 1])
    ensures steps[n - 1].effect.Some?
    ensures Accept(steps[n - 1].cursor, LoopResult(steps[n - 1], ticks[n - 1], limit)) == Ok(steps[n])
  {
    hide Accept, LoopResult, Executed, PreparationOf, Serves;
  }

  lemma RunGrows(steps: seq<KernelStep>, ticks: seq<Tick>, limit: Option<int>, n: nat)
    requires 0 < n <= |ticks| && |steps| == |ticks| + 1
    requires IsRun(steps[..n], ticks[..n - 1], limit) && Fed(steps[n - 1], ticks[n - 1])
    requires Accept(steps[n - 1].cursor, LoopResult(steps[n - 1], ticks[n - 1], limit)) == Ok(steps[n])
    ensures IsRun(steps[..n + 1], ticks[..n], limit)
  {
    hide Serves, Accept, LoopResult;
    forall i | 0 <= i < n
      ensures Fed(steps[..n + 1][i], ticks[..n][i])
      ensures Accept(steps[..n + 1][i].cursor, LoopResult(steps[..n + 1][i], ticks[..n][i], limit)) == Ok(steps[..n + 1][i + 1])
    {
      if i < n - 1 {
        assert steps[..n][i] == steps[i] && steps[..n][i + 1] == steps[i + 1] && ticks[..n - 1][i] == ticks[i];
      }
    }
  }

  // ------------------------------------------------------ nothing unpermitted

  /** An execution is handed out only for what was prepared just before. */
  lemma ExecutedWasPrepared(step: KernelStep, tick: Tick, limit: Option<int>, next: KernelStep)
    requires Shaped(step) && Fed(step, tick)
    requires Accept(step.cursor, LoopResult(step, tick, limit)) == Ok(next)
    requires next.effect.Some? && next.effect.value.ExecuteTools?
    ensures step.effect.value.PrepareTools? && !tick.cancelledBefore
    ensures tick.result.ToolsPrepared? && next.effect.value.invocations == tick.result.invocations
  {
    if !tick.cancelledBefore {
      LoopResultCases(step, tick, limit);
    }
    hide LoopResult, ToolPlanned, InvocationsStarted, TransitionEvents, UnclosedOperations, ImmediateObservations, NextMode,
         StepOpened, ClosedBy, IsLength;
  }

  /** The preparation of a step, as a sitting over its batch. */
  function SittingAt(step: KernelStep, around: Surroundings): Sitting
    requires step.effect.Some? && step.effect.value.PrepareTools?
  {
    Sitting(around.world, around.handlers, step.effect.value.batch)
  }

  /** A run begins with a new batch or with one that some suspensions lead to. */
  ghost predicate BeginsReached(first: KernelStep, sittings: seq<Sitting>, backs: seq<Comeback>)
    requires |sittings| == |backs|
  {
    if first.effect.Some? && first.effect.value.PrepareTools? then Reached(sittings, backs, first.effect.value.batch)
    else sittings == []
  }

  /** Only the first step of a run has a batch that was resumed. */
  lemma LaterBatchIsNew(steps: seq<KernelStep>, ticks: seq<Tick>, limit: Option<int>, around: seq<Surroundings>, i: nat)
    requires IsServed(steps, ticks, limit, around) && 0 < i <= |ticks|
    requires steps[i].effect.Some? && steps[i].effect.value.PrepareTools?
    ensures IsNew(steps[i].effect.value.batch)
  {
    LastServed(steps, ticks, limit, around, i);
    hide *;
    NextIsNew(steps[i - 1].cursor, LoopResult(steps[i - 1], ticks[i - 1], limit));
  }

  lemma StepIsReached(steps: seq<KernelStep>, ticks: seq<Tick>, limit: Option<int>, around: seq<Surroundings>, i: nat,
                      sittings: seq<Sitting>, backs: seq<Comeback>)
    requires IsServed(steps, ticks, limit, around) && i <= |ticks| && |sittings| == |backs|
    requires BeginsReached(steps[0], sittings, backs)
    requires steps[i].effect.Some? && steps[i].effect.value.PrepareTools?
    ensures if i == 0 then Reached(sittings, backs, steps[i].effect.value.batch)
            else Reached([], [], steps[i].effect.value.batch)
  {
    if i > 0 {
      LaterBatchIsNew(steps, ticks, limit, around, i);
      hide IsNew, IsServed;
    }
  }

  /** In every run, every invocation that is handed out for execution was cleared when its
      batch was prepared, in the step before, or in one of the sittings over the same batch
      that led to the run by way of suspensions. */
  lemma OnlyPermittedExecuted(steps: seq<KernelStep>, ticks: seq<Tick>, limit: Option<int>, around: seq<Surroundings>,
                              sittings: seq<Sitting>, backs: seq<Comeback>, i: nat, x: Invocation)
    requires IsServed(steps, ticks, limit, around) && 0 < i <= |ticks| && |sittings| == |backs|
    requires Shaped(steps[0]) && (steps[0].effect.Some? ==> Steady(steps[0].cursor))
    requires BeginsReached(steps[0], sittings, backs)
    requires steps[i].effect.Some? && steps[i].effect.value.ExecuteTools? && x in steps[i].effect.value.invocations
    ensures steps[i - 1].effect.Some? && steps[i - 1].effect.value.PrepareTools?
    ensures var before := if i == 1 then sittings else [];
            ClearedIn(before + [SittingAt(steps[i - 1], around[i - 1])], x)
  {
    hide *;
    LastServed(steps, ticks, limit, around, i);
    BegunBatched(steps[0], sittings, backs);
    ServedIsRun(steps, ticks, limit, around, i - 1);
    ServicedIsFed(steps[i - 1], ticks[i - 1], around[i - 1]);
    ExecutedWasPrepared(steps[i - 1], ticks[i - 1], limit, steps[i]);
    StepIsReached(steps, ticks, limit, around, i - 1, sittings, backs);
    if i == 1 {
      PreparedHere(steps[i - 1], ticks[i - 1], around[i - 1], sittings, backs, x);
    } else {
      PreparedHere(steps[i - 1], ticks[i - 1], around[i - 1], [], [], x);
    }
  }

  lemma BegunBatched(first: KernelStep, sittings: seq<Sitting>, backs: seq<Comeback>)
    requires |sittings| == |backs| && BeginsReached(first, sittings, backs)
    ensures Batched(first)
  {
    if first.effect.Some? && first.effect.value.PrepareTools? {
      ReachedIsSound(sittings, backs, first.effect.value.batch);
    }
    hide Reached, Sound;
  }

  lemma PreparedHere(step: KernelStep, tick: Tick, around: Surroundings, sittings: seq<Sitting>, backs: seq<Comeback>, x: Invocation)
    requires Serviced(step, tick, around) && !tick.cancelledBefore
    requires step.effect.Some? && step.effect.value.PrepareTools?
    requires |sittings| == |backs| && Reached(sittings, backs, step.effect.value.batch)
    requires tick.result.ToolsPrepared? && x in tick.result.invocations
    ensures ClearedIn(sittings + [SittingAt(step, around)], x)
  {
    hide Reached, ClearedIn, PrepareAll, InteractionId;
    AllCleared(sittings, backs, SittingAt(step, around), x);
  }
}
