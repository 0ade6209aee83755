/** How runs of the loop start, move forward and end. */
module AgentProgress {
  import opened Outcomes
  import opened OperationIds
  import opened AgentEffects
  import opened OperationLedger
  import opened AgentKernel
  import opened AgentServices
  import opened AgentRun
  import opened AgentLoop

  // ------------------------------------------------------------- first steps

  /** No id of the run is in the log yet, and no patch was left open. */
  ghost predicate FreshFor(base: Ledger, cursor: Cursor) {
    && (forall id | base.Knows(id) :: !Reserved(cursor, id))
    && (forall id | id in base.open :: !id.PatchOp?)
  }

  lemma ReservedUnused(cursor: Cursor, id: OperationId)
    requires cursor.expected.Some? && cursor.expected.value.step == cursor.step && Unused(cursor, id)
    ensures Reserved(cursor, id)
  {
  }

  /** A first step: `head` opens the step and closes `closed`, then the effect starts. */
  lemma FirstTracks(base: Ledger, first: KernelStep, head: seq<Event>, kind: OperationKind, closed: set<OperationId>)
    requires Shaped(first) && first.effect.Some? && !first.effect.value.ExecuteTools?
    requires FreshFor(base, first.cursor)
    requires first.events == head + [EffectStarted(first.cursor, kind)]
    requires Replay(base, head) == Ledger(base.open - closed + {first.cursor.StepId()}, base.closed + closed)
    requires forall id | id in closed :: id.PendingOp?
    ensures Tracks(Replay(base, first.events), first, base.open - closed)
  {
    var cursor := first.cursor;
    assert Reserved(cursor, EffectOp(cursor.expected.value));
    OpenOne(base, head, EffectStarted(cursor, kind));
    var after := Replay(base, first.events);
    forall id | after.Knows(id) ensures !Unused(cursor, id) {
      if Unused(cursor, id) {
        ReservedUnused(cursor, id);
      }
    }
  }

  lemma StepOpenedLedger(base: Ledger, cursor: Cursor)
    requires cursor.StepId() !in base.closed
    ensures Replay(base, StepOpened(cursor)) == base.(open := base.open + {cursor.StepId()})
  {
    ReplayTwo(base, StepOpened(cursor)[0], StepOpened(cursor)[1]);
  }

  lemma StartTracks(base: Ledger, turnId: string, mode: string, workflow: string, stream: bool, stepIndex: int)
    requires FreshFor(base, Start(turnId, mode, workflow, stream, stepIndex).cursor)
    ensures var first := Start(turnId, mode, workflow, stream, stepIndex);
            Shaped(first) && Tracks(Replay(base, first.events), first, base.open)
  {
    var first := Start(turnId, mode, workflow, stream, stepIndex);
    assert Reserved(first.cursor, first.cursor.StepId());
    StepOpenedLedger(base, first.cursor);
    FirstTracks(base, first, StepOpened(first.cursor), ContextAssembly, {});
  }

  lemma CommandTracks(base: Ledger, turnId: string, mode: string, workflow: string, action: ToolAction, parent: string,
                      stepIndex: int)
    requires FreshFor(base, CommandTool(turnId, mode, workflow, action, parent, stepIndex).cursor)
    ensures var first := CommandTool(turnId, mode, workflow, action, parent, stepIndex);
            Shaped(first) && Tracks(Replay(base, first.events), first, base.open)
  {
    var first := CommandTool(turnId, mode, workflow, action, parent, stepIndex);
    assert Reserved(first.cursor, first.cursor.StepId());
    StepOpenedLedger(base, first.cursor);
    var said := [AssistantMessage(first.cursor.message.value, parent, "", [action])] + ToolPlanned([action]);
    assert Neutral(said);
    NeutralTail(base, StepOpened(first.cursor), said);
    FirstTracks(base, first, StepOpened(first.cursor) + said, ToolPreparation, {});
  }

  /** Resuming closes the interaction that was waited for, so it leaves the outside. The
      batch was asked for in an earlier step. */
  lemma ResumeTracks(base: Ledger, pending: Pending, batch: PrepareBatch, turnId: string, stream: bool, stepIndex: int)
    requires FreshFor(base, ResumePreparation(pending, batch, turnId, stream, stepIndex).cursor)
    requires batch.actions != []
    requires NotAhead(ResumePreparation(pending, batch, turnId, stream, stepIndex).cursor, batch.message)
    ensures var first := ResumePreparation(pending, batch, turnId, stream, stepIndex);
            && Shaped(first)
            && Tracks(Replay(base, first.events), first, base.open - {PendingOp(pending.interaction)})
  {
    var first := ResumePreparation(pending, batch, turnId, stream, stepIndex);
    var cursor := first.cursor;
    assert Reserved(cursor, cursor.StepId());
    StepOpenedLedger(base, cursor);
    var resolution := PendingResolution(pending.interaction);
    var resolved := OperationFinished(PendingOp(pending.interaction), PendingInteraction);
    ReplayConcat(base, StepOpened(cursor), [resolution, resolved]);
    ReplayTwo(Replay(base, StepOpened(cursor)), resolution, resolved);
    FirstTracks(base, first, StepOpened(cursor) + [resolution, resolved], ToolPreparation,
                {PendingOp(pending.interaction)});
  }

  // -------------------------------------------------------- moving forward

  /** Only a tool batch can be the last thing that a run is asked to do. */
  predicate Steady(cursor: Cursor) {
    cursor.continuation.ToComplete? ==> cursor.phase.InToolPrepare? || cursor.phase.InToolExecute?
  }

  predicate IsCompact(step: KernelStep) {
    step.effect.Some? && step.effect.value.id.kind.CompactContext?
  }

  /** From one effect to the next. */
  ghost predicate Forward(step: KernelStep, next: KernelStep) {
    && Shaped(next)
    && next.cursor.turn == step.cursor.turn
    && next.cursor.continuation == step.cursor.continuation
    && (next.effect.Some? ==>
         && Steady(next.cursor)
         && step.cursor.expected.Some? && next.cursor.expected.Some?
         && Before(step.cursor.expected.value, next.cursor.expected.value))
    && (step.cursor.compactRetryUsed ==> next.cursor.compactRetryUsed && !IsCompact(next))
    && (IsCompact(next) ==> next.cursor.compactRetryUsed)
  }

  lemma FailureForward(step: KernelStep, result: EffectResult)
    requires Shaped(step) && step.effect.Some?
    requires result.EffectFailed? && !(result.kind.ContextLimit? && !step.cursor.compactRetryUsed)
    ensures Forward(step, AcceptFailure(step.cursor, result)) && AcceptFailure(step.cursor, result).effect.None?
  {
  }

  lemma AdvanceForward(step: KernelStep, observations: seq<Observation>, events: seq<Event>, tokens: seq<int>,
                       closeTools: bool)
    requires Shaped(step) && step.effect.Some? && Steady(step.cursor)
    requires step.effect.value.PrepareTools? || step.effect.value.ExecuteTools?
    ensures Forward(step, AdvanceAfterTools(step.cursor, observations, events, tokens, closeTools))
  {
  }

  lemma PreparedForward(step: KernelStep, result: EffectResult)
    requires Shaped(step) && step.effect.Some? && Steady(step.cursor)
    requires step.effect.value.PrepareTools? && ServesPrepare(step.effect.value.batch, result) && result.ToolsPrepared?
    ensures Forward(step, AcceptPrepared(step.cursor, result))
  {
    if result.invocations == [] {
      AdvanceForward(step, ImmediateObservations(result.immediates),
                     result.events + [EffectFinished(step.cursor, ToolPreparation)], result.tokens, false);
    }
  }

  lemma ProviderForward(step: KernelStep, result: EffectResult)
    requires Shaped(step) && step.effect.Some? && Steady(step.cursor)
    requires step.effect.value.RequestProvider? && Serves(step.effect.value, result)
    ensures Accept(step.cursor, result).Ok? && Forward(step, Accept(step.cursor, result).value)
  {
    if result.ProviderCompleted? {
      ReplyForward(step, result);
    } else if !result.kind.ContextLimit? || step.cursor.compactRetryUsed {
      FailureForward(step, result);
    } else {
      RetryForward(step, result);
    }
  }

  lemma ReplyForward(step: KernelStep, result: EffectResult)
    requires Shaped(step) && step.effect.Some? && Steady(step.cursor)
    requires step.effect.value.RequestProvider? && result.ProviderCompleted?
    ensures Forward(step, AcceptProvider(step.cursor, result))
  {
  }

  lemma RetryForward(step: KernelStep, result: EffectResult)
    requires Shaped(step) && step.effect.Some? && Steady(step.cursor) && step.effect.value.RequestProvider?
    requires result.EffectFailed? && result.kind.ContextLimit? && !step.cursor.compactRetryUsed
    ensures Forward(step, AcceptFailure(step.cursor, result))
  {
  }

  lemma ContextForward(step: KernelStep, result: EffectResult)
    requires Shaped(step) && step.effect.Some? && Steady(step.cursor)
    requires step.effect.value.AssembleContext? && Serves(step.effect.value, result)
    ensures Accept(step.cursor, result).Ok? && Forward(step, Accept(step.cursor, result).value)
  {
    var replacements: nat, compacted: bool :| result == ContextResult(step.effect.value, replacements, compacted);
    assert Neutral(DeferredEvents(compacted));
  }

  lemma ToolsForward(step: KernelStep, result: EffectResult)
    requires Shaped(step) && step.effect.Some? && Steady(step.cursor)
    requires step.effect.value.PrepareTools? || step.effect.value.ExecuteTools?
    requires Serves(step.effect.value, result)
    ensures Accept(step.cursor, result).Ok? && Forward(step, Accept(step.cursor, result).value)
  {
    if result.ToolsCompleted? {
      AdvanceForward(step, result.observations, result.events, result.tokens, true);
    } else if result.ToolsPrepared? {
      PreparedForward(step, result);
    }
  }

  lemma ResultForward(step: KernelStep, result: EffectResult)
    requires Shaped(step) && step.effect.Some? && Steady(step.cursor)
    requires Serves(step.effect.value, result) || IsStop(step.effect.value, result)
    ensures Accept(step.cursor, result).Ok? && Forward(step, Accept(step.cursor, result).value)
  {
    if IsStop(step.effect.value, result) {
      FailureForward(step, result);
    } else {
      match step.effect.value
      case AssembleContext(_, _, _, _) => ContextForward(step, result);
      case RequestProvider(_, _, _) => ProviderForward(step, result);
      case PrepareTools(_, _) => ToolsForward(step, result);
      case ExecuteTools(_, _, _) => ToolsForward(step, result);
    }
  }

  /** The loop raises no error: its result is one that the kernel accepts. */
  lemma TickForward(step: KernelStep, tick: Tick, limit: Option<int>)
    requires Shaped(step) && Steady(step.cursor) && Fed(step, tick)
    ensures Accept(step.cursor, LoopResult(step, tick, limit)).Ok?
    ensures Forward(step, Accept(step.cursor, LoopResult(step, tick, limit)).value)
  {
    if !tick.cancelledBefore {
      LoopResultCases(step, tick, limit);
    }
    ResultForward(step, LoopResult(step, tick, limit));
  }

  lemma {:induction false} RunForward(steps: seq<KernelStep>, ticks: seq<Tick>, limit: Option<int>, i: nat)
    requires IsRun(steps, ticks, limit) && i <= |ticks|
    requires Shaped(steps[0]) && (steps[0].effect.Some? ==> Steady(steps[0].cursor))
    ensures Shaped(steps[i]) && (steps[i].effect.Some? ==> Steady(steps[i].cursor))
    ensures i > 0 ==> Forward(steps[i - 1], steps[i])
  {
    if i > 0 {
      RunForward(steps, ticks, limit, i - 1);
      TickForward(steps[i - 1], ticks[i - 1], limit);
    }
  }

  // ------------------------------------------------------- effect freshness

  lemma BeforeTransitive(a: EffectId, b: EffectId, c: EffectId)
    requires Before(a, b) && Before(b, c)
    ensures Before(a, c)
  {
  }

  lemma RunIsForward(steps: seq<KernelStep>, ticks: seq<Tick>, limit: Option<int>)
    requires IsRun(steps, ticks, limit)
    requires Shaped(steps[0]) && (steps[0].effect.Some? ==> Steady(steps[0].cursor))
    ensures forall k | 0 < k < |steps| :: Forward(steps[k - 1], steps[k])
    ensures forall k | 0 <= k < |steps| :: Shaped(steps[k])
  {
    forall k | 0 <= k < |steps| ensures Shaped(steps[k]) && (0 < k ==> Forward(steps[k - 1], steps[k])) {
      RunForward(steps, ticks, limit, k);
    }
  }

  lemma {:induction false} EffectsInOrder(steps: seq<KernelStep>, i: nat, j: nat)
    requires forall k | 0 < k < |steps| :: Forward(steps[k - 1], steps[k])
    requires i < j < |steps| && steps[j].effect.Some?
    ensures steps[i].cursor.expected.Some? && steps[j].cursor.expected.Some?
    ensures Before(steps[i].cursor.expected.value, steps[j].cursor.expected.value)
    decreases j
  {
    assert Forward(steps[j - 1], steps[j]);
    if i < j - 1 {
      assert Forward(steps[j - 2], steps[j - 1]);
      EffectsInOrder(steps, i, j - 1);
      BeforeTransitive(steps[i].cursor.expected.value, steps[j - 1].cursor.expected.value,
                       steps[j].cursor.expected.value);
    }
  }

  /** An effect id is expected once in a run: its text differs from that of every later
      effect, and a result that carries it is refused at every later cursor. */
  lemma EffectFreshness(steps: seq<KernelStep>, ticks: seq<Tick>, limit: Option<int>, i: nat, j: nat, result: EffectResult)
    requires IsRun(steps, ticks, limit) && i < j <= |ticks|
    requires Shaped(steps[0]) && Steady(steps[0].cursor)
    requires steps[i].cursor.expected == Some(result.effect)
    ensures Accept(steps[j].cursor, result) == Err("effect_result_mismatch")
    ensures steps[j].cursor.expected.Some? ==> EffectText(steps[j].cursor.expected.value) != EffectText(result.effect)
  {
    RunIsForward(steps, ticks, limit);
    assert Shaped(steps[j]);
    if steps[j].effect.Some? {
      EffectsInOrder(steps, i, j);
      if EffectText(steps[j].cursor.expected.value) == EffectText(result.effect) {
        EffectTextInjective(steps[j].cursor.expected.value, result.effect);
      }
    }
  }
}
