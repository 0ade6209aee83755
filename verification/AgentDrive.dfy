/** The loop itself, and how long it can go on. */
module AgentDrive {
  import opened Outcomes
  import opened Runs
  import opened OperationIds
  import opened AgentEffects
  import opened AgentKernel
  import opened AgentServices
  import opened AgentRun
  import opened AgentLoop
  import opened AgentProgress

  // --------------------------------------------------------------- the bound

  /** How many steps the safety limit still allows after the current one. */
  function StepsLeft(cursor: Cursor, limit: int): nat {
    if limit > cursor.step then limit - cursor.step else 0
  }

  function PhaseBudget(phase: Phase): nat {
    match phase
    case InContext => 4
    case InProvider => 3
    case InToolPrepare => 2
    case InToolExecute => 1
    case _ => 0
  }

  /** An upper bound on the effects that a step's run can still execute. */
  function Budget(step: KernelStep, limit: int): nat {
    if step.effect.None? then 0
    else if step.cursor.continuation.ToComplete? then PhaseBudget(step.cursor.phase)
    else PhaseBudget(step.cursor.phase) + 4 * StepsLeft(step.cursor, limit)
         + (if step.cursor.compactRetryUsed then 0 else 2)
  }

  /** The same for requests to the provider. */
  function RequestBudget(step: KernelStep, limit: int): nat {
    if step.effect.None? || step.cursor.continuation.ToComplete? then 0
    else StepsLeft(step.cursor, limit)
         + (if step.cursor.phase.InContext? || step.cursor.phase.InProvider? then 1 else 0)
         + (if step.cursor.compactRetryUsed then 0 else 1)
  }

  predicate Requests(step: KernelStep) {
    step.effect.Some? && step.effect.value.RequestProvider?
  }

  predicate Bounded(limit: Option<int>, cursor: Cursor) {
    cursor.continuation.ToComplete? || (limit.Some? && limit.value >= 1)
  }

  function LimitOf(limit: Option<int>): int {
    if limit.Some? then limit.value else 0
  }

  /** One turn of the loop uses up one effect, and one request if it was one. */
  ghost predicate Spends(step: KernelStep, next: KernelStep, limit: int) {
    && Budget(next, limit) < Budget(step, limit)
    && RequestBudget(next, limit) + (if Requests(step) then 1 else 0) <= RequestBudget(step, limit)
    && (next.effect.Some? ==> next.cursor.step == step.cursor.step || next.cursor.step <= limit)
  }

  lemma ServiceSpends(step: KernelStep, result: EffectResult, limit: int)
    requires Shaped(step) && step.effect.Some? && Steady(step.cursor)
    requires step.effect.value.AssembleContext? || step.effect.value.RequestProvider?
    requires Serves(step.effect.value, result)
    ensures Accept(step.cursor, result).Ok? && Spends(step, Accept(step.cursor, result).value, limit)
  {
  }

  lemma ToolsSpend(step: KernelStep, result: EffectResult, limit: Option<int>)
    requires Shaped(step) && step.effect.Some? && Steady(step.cursor) && Bounded(limit, step.cursor)
    requires step.effect.value.PrepareTools? || step.effect.value.ExecuteTools?
    requires Serves(step.effect.value, result)
    requires ToolResultPairs(step.effect.value, result) != [] ==> !SafetyLimitReached(step.cursor, limit)
    ensures Accept(step.cursor, result).Ok? && Spends(step, Accept(step.cursor, result).value, LimitOf(limit))
  {
    PairsExist(step.effect.value, result);
    if result.ToolsCompleted? {
      AdvanceSpends(step, result.observations, result.events, result.tokens, true, limit);
    } else if result.ToolsPrepared? && result.invocations == [] {
      AdvanceSpends(step, ImmediateObservations(result.immediates),
                    result.events + [EffectFinished(step.cursor, ToolPreparation)], result.tokens, false, limit);
    }
  }

  lemma AdvanceSpends(step: KernelStep, observations: seq<Observation>, events: seq<Event>, tokens: seq<int>,
                      closeTools: bool, limit: Option<int>)
    requires Shaped(step) && step.effect.Some? && Steady(step.cursor) && Bounded(limit, step.cursor)
    requires step.effect.value.PrepareTools? || step.effect.value.ExecuteTools?
    requires !SafetyLimitReached(step.cursor, limit)
    ensures Spends(step, AdvanceAfterTools(step.cursor, observations, events, tokens, closeTools), LimitOf(limit))
  {
  }

  /** The loop passes a finished batch on only while the safety limit is not reached. */
  lemma LimitStops(step: KernelStep, tick: Tick, limit: Option<int>)
    requires step.effect.Some? && !LoopResult(step, tick, limit).EffectFailed?
    ensures LoopResult(step, tick, limit) == tick.result
    ensures ToolResultPairs(step.effect.value, tick.result) != [] ==> !SafetyLimitReached(step.cursor, limit)
  {
  }

  lemma StopSpends(step: KernelStep, result: EffectResult, limit: int)
    requires Shaped(step) && step.effect.Some? && Steady(step.cursor) && IsStop(step.effect.value, result)
    ensures Accept(step.cursor, result).Ok? && Spends(step, Accept(step.cursor, result).value, limit)
  {
  }

  lemma TickSpends(step: KernelStep, tick: Tick, limit: Option<int>)
    requires Shaped(step) && Steady(step.cursor) && Fed(step, tick) && Bounded(limit, step.cursor)
    ensures Accept(step.cursor, LoopResult(step, tick, limit)).Ok?
    ensures Spends(step, Accept(step.cursor, LoopResult(step, tick, limit)).value, LimitOf(limit))
  {
    var result := LoopResult(step, tick, limit);
    if !tick.cancelledBefore {
      LoopResultCases(step, tick, limit);
    }
    if IsStop(step.effect.value, result) {
      StopSpends(step, result, LimitOf(limit));
    } else if step.effect.value.PrepareTools? || step.effect.value.ExecuteTools? {
      LimitStops(step, tick, limit);
      ToolsSpend(step, result, limit);
    } else {
      ServiceSpends(step, result, LimitOf(limit));
    }
  }

  /** How many of the steps hand out a provider request, and a compacted context. */
  function RequestCount(steps: seq<KernelStep>): nat {
    if steps == [] then 0
    else RequestCount(steps[..|steps| - 1]) + (if Requests(steps[|steps| - 1]) then 1 else 0)
  }

  lemma RunSpends(steps: seq<KernelStep>, ticks: seq<Tick>, limit: Option<int>, i: nat)
    requires IsRun(steps, ticks, limit) && i < |ticks|
    requires Shaped(steps[i]) && Steady(steps[i].cursor) && Bounded(limit, steps[i].cursor)
    ensures Spends(steps[i], steps[i + 1], LimitOf(limit)) && Forward(steps[i], steps[i + 1])
  {
    TickForward(steps[i], ticks[i], limit);
    TickSpends(steps[i], ticks[i], limit);
  }

  /** What a run has spent so far and may still spend is within its first budget. */
  ghost predicate WithinBudget(steps: seq<KernelStep>, limit: int)
    requires steps != []
  {
    var n := |steps| - 1;
    && n + Budget(steps[n], limit) <= Budget(steps[0], limit)
    && RequestCount(steps[..n]) + RequestBudget(steps[n], limit) <= RequestBudget(steps[0], limit)
    && (steps[n].effect.Some? ==> steps[n].cursor.step == steps[0].cursor.step || steps[n].cursor.step <= limit)
  }

  /** The bound, along a whole run. */
  lemma {:induction false} RunBudget(steps: seq<KernelStep>, ticks: seq<Tick>, limit: Option<int>)
    requires IsRun(steps, ticks, limit)
    requires Shaped(steps[0]) && Steady(steps[0].cursor) && Bounded(limit, steps[0].cursor)
    ensures WithinBudget(steps, LimitOf(limit))
    ensures steps[|ticks|].cursor.continuation == steps[0].cursor.continuation
    decreases |ticks|
  {
    var n := |ticks|;
    if n == 0 {
      assert steps[..0] == [];
    } else {
      RunPrefix(steps, ticks, limit, n - 1);
      RunBudget(steps[..n], ticks[..n - 1], limit);
      RunForward(steps, ticks, limit, n - 1);
      assert Fed(steps[n - 1], ticks[n - 1]);
      RunSpends(steps, ticks, limit, n - 1);
      OneMoreStep(steps, LimitOf(limit));
    }
  }

  lemma OneMoreStep(steps: seq<KernelStep>, limit: int)
    requires |steps| >= 2 && WithinBudget(steps[..|steps| - 1], limit)
    requires Spends(steps[|steps| - 2], steps[|steps| - 1], limit)
    requires steps[|steps| - 2].effect.Some?
    ensures WithinBudget(steps, limit)
  {
    var n := |steps| - 1;
    assert steps[..n][..n - 1] == steps[..n - 1];
    assert steps[..n][n - 1] == steps[n - 1];
  }

  /** A run that stays within a number of effects and requests and, but for its first step,
      within the limit of steps; it has ended when it reaches the number of effects. */
  ghost predicate StaysWithin(steps: seq<KernelStep>, effects: nat, requests: nat, lastStep: int)
    requires steps != []
  {
    var n := |steps| - 1;
    && n <= effects
    && RequestCount(steps[..n]) <= requests
    && (steps[n].effect.Some? ==> n < effects && steps[n].cursor.step <= lastStep)
    && (n == effects ==> steps[n].outcome.Some?)
  }

  /** What the budget of the first step comes to. */
  lemma BudgetBounds(steps: seq<KernelStep>, ticks: seq<Tick>, limit: Option<int>)
    requires IsRun(steps, ticks, limit)
    requires Shaped(steps[0]) && Steady(steps[0].cursor) && Bounded(limit, steps[0].cursor)
    ensures var first, most := steps[0].cursor.step, LimitOf(limit);
            StaysWithin(steps, Budget(steps[0], most), RequestBudget(steps[0], most), if first > most then first else most)
  {
    RunBudget(steps, ticks, limit);
    RunForward(steps, ticks, limit, |ticks|);
    hide RequestBudget, Requests;
  }

  /** With a safety limit of n turns, a fresh run executes at most 4n + 2 effects, n + 1 of
      them provider requests, never leaves step n, and has ended once the bound is reached;
      begun at a later step, only the steps from there on count. */
  lemma LoopBound(steps: seq<KernelStep>, ticks: seq<Tick>, n: nat, turnId: string, mode: string, workflow: string,
                  stream: bool, stepIndex: int)
    requires n >= 1 && IsRun(steps, ticks, Some(n))
    requires steps[0] == Start(turnId, mode, workflow, stream, stepIndex)
    ensures var first := FirstIndex(stepIndex);
            if first > n then StaysWithin(steps, 6, 2, first)
            else StaysWithin(steps, 4 * (n - first) + 6, n - first + 2, n)
    ensures stepIndex <= 1 ==> StaysWithin(steps, 4 * n + 2, n + 1, n)
  {
    BudgetBounds(steps, ticks, Some(n));
    hide StaysWithin;
  }

  /** A resumed run has its tools first, and may then go on as long as a fresh one that has
      made its first request. */
  lemma ResumedBound(steps: seq<KernelStep>, ticks: seq<Tick>, n: nat, pending: Pending, batch: PrepareBatch, turnId: string,
                     stream: bool, stepIndex: int)
    requires n >= 1 && IsRun(steps, ticks, Some(n))
    requires steps[0] == ResumePreparation(pending, batch, turnId, stream, stepIndex)
    requires Shaped(steps[0]) && Steady(steps[0].cursor)
    ensures var first := FirstIndex(stepIndex);
            if batch.continuation.ToComplete? then StaysWithin(steps, 2, 0, if first > n then first else n)
            else if first > n then StaysWithin(steps, 4, 1, first)
            else StaysWithin(steps, 4 * (n - first) + 4, n - first + 1, n)
  {
    BudgetBounds(steps, ticks, Some(n));
    hide StaysWithin;
  }

  /** A command prepares and executes its tool, and asks the provider nothing. */
  lemma CommandBound(steps: seq<KernelStep>, ticks: seq<Tick>, limit: Option<int>, turnId: string, mode: string,
                     workflow: string, action: ToolAction, parent: string, stepIndex: int)
    requires IsRun(steps, ticks, limit)
    requires steps[0] == CommandTool(turnId, mode, workflow, action, parent, stepIndex)
    ensures |ticks| <= 2 && RequestCount(steps[..|ticks|]) == 0 && (|ticks| == 2 ==> steps[2].outcome.Some?)
  {
    BudgetBounds(steps, ticks, limit);
  }

  /** A "complete" continuation, limited or not, ends after one tool batch. */
  lemma CompleteEnds(steps: seq<KernelStep>, ticks: seq<Tick>, limit: Option<int>)
    requires IsRun(steps, ticks, limit)
    requires Shaped(steps[0]) && Steady(steps[0].cursor) && steps[0].cursor.continuation.ToComplete?
    ensures |ticks| <= 2 && (|ticks| == 2 ==> steps[2].outcome.Some?)
  {
    RunBudget(steps, ticks, limit);
    RunForward(steps, ticks, limit, |ticks|);
  }

  lemma {:induction false} RetryStaysUsed(steps: seq<KernelStep>, i: nat, j: nat)
    requires forall k | 0 < k < |steps| :: Forward(steps[k - 1], steps[k])
    requires i < j < |steps| && steps[i].cursor.compactRetryUsed
    ensures steps[j].cursor.compactRetryUsed && !IsCompact(steps[j])
    decreases j
  {
    if i < j - 1 {
      RetryStaysUsed(steps, i, j - 1);
    }
    assert Forward(steps[j - 1], steps[j]);
  }

  /** A compacted context is asked for at most once in a run. */
  lemma OneCompactRetry(steps: seq<KernelStep>, ticks: seq<Tick>, limit: Option<int>, i: nat, j: nat)
    requires IsRun(steps, ticks, limit) && i < j <= |ticks|
    requires Shaped(steps[0]) && Steady(steps[0].cursor) && !IsCompact(steps[0])
    ensures !(IsCompact(steps[i]) && IsCompact(steps[j]))
  {
    RunIsForward(steps, ticks, limit);
    if IsCompact(steps[i]) {
      assert i > 0 && Forward(steps[i - 1], steps[i]);
      RetryStaysUsed(steps, i, j);
    }
  }

  // ---------------------------------------------------------------- the loop

  datatype TurnResult = TurnResult(finalText: string, transition: Transition)

  function NextStep(step: KernelStep, tick: Tick, limit: Option<int>): Option<KernelStep> {
    if step.outcome.Some? || step.effect.None? then None
    else
      match Accept(step.cursor, LoopResult(step, tick, limit))
      case Ok(next) => Some(next)
      case Err(_) => None
  }

  function Machine(limit: Option<int>): (KernelStep, Tick) -> Option<KernelStep> {
    (step, tick) => NextStep(step, tick, limit)
  }

  /** The steps of the run that starts with `first`, as far as the ticks go. */
  function RunSteps(first: KernelStep, ticks: seq<Tick>, limit: Option<int>): (steps: seq<KernelStep>)
    ensures 1 <= |steps| <= |ticks| + 1
  {
    Trace(first, ticks, Machine(limit))
  }

  /** When the services feed it, what the loop goes through is a run. */
  lemma RunStepsAreARun(first: KernelStep, ticks: seq<Tick>, limit: Option<int>)
    requires var steps := RunSteps(first, ticks, limit);
             forall i | 0 <= i < |steps| - 1 :: Fed(steps[i], ticks[i])
    ensures var steps := RunSteps(first, ticks, limit);
            steps[0] == first && IsRun(steps, ticks[..|steps| - 1], limit)
  {
    var steps := RunSteps(first, ticks, limit);
    forall i | 0 <= i < |steps| - 1
      ensures Accept(steps[i].cursor, LoopResult(steps[i], ticks[i], limit)) == Ok(steps[i + 1])
    {
      TraceSteps(first, ticks, Machine(limit), i);
      assert NextStep(steps[i], ticks[i], limit) == Some(steps[i + 1]);
    }
  }

  /** The text of the last reply among the effects that were executed. */
  function FinalText(ticks: seq<Tick>): string {
    if ticks == [] then ""
    else
      var last := ticks[|ticks| - 1];
      if !last.cancelledBefore && last.result.ProviderCompleted? then last.result.reply.content
      else FinalText(ticks[..|ticks| - 1])
  }

  // --------------------------------------------------- commit before effect

  /** What the loop does to the world: it appends a batch to the log, or has an effect
      executed. */
  datatype Deed = Commit(events: seq<Event>) | Execute(effect: Effect)

  /** The deeds of a run, in order; a turn that is cancelled at once executes nothing. */
  function Deeds(steps: seq<KernelStep>, ticks: seq<Tick>): seq<Deed> {
    if steps == [] then []
    else
      var n := |steps| - 1;
      Deeds(steps[..n], ticks) + TurnDeeds(steps[n], ticks, n)
  }

  /** Whether the loop has the step's effect executed. */
  predicate Executes(step: KernelStep, tick: Tick) {
    step.outcome.None? && step.effect.Some? && !tick.cancelledBefore
  }

  function TurnDeeds(step: KernelStep, ticks: seq<Tick>, turn: nat): (deeds: seq<Deed>)
    ensures 1 <= |deeds| <= 2 && deeds[0] == Commit(step.events)
    ensures |deeds| == 2 ==> step.effect.Some? && deeds[1] == Execute(step.effect.value)
  {
    [Commit(step.events)]
    + if turn < |ticks| && Executes(step, ticks[turn]) then [Execute(step.effect.value)] else []
  }

  /** The step's events end with the start of its effect. */
  predicate Announced(step: KernelStep) {
    step.effect.Some? ==> Announces(step.events, step.effect.value.id)
  }

  predicate Announces(events: seq<Event>, effect: EffectId) {
    events != []
    && var last := events[|events| - 1];
       last.OperationStarted? && last.id == EffectOp(effect)
  }

  /** Every effect is executed right after a commit that ends with its start. */
  ghost predicate WriteAhead(deeds: seq<Deed>) {
    forall i | 0 <= i < |deeds| && deeds[i].Execute? ::
      i > 0 && deeds[i - 1].Commit? && Announces(deeds[i - 1].events, deeds[i].effect.id)
  }

  /** What the deeds have appended to the log. */
  function Appended(deeds: seq<Deed>): seq<Event> {
    if deeds == [] then []
    else
      var last := deeds[|deeds| - 1];
      Appended(deeds[..|deeds| - 1]) + if last.Commit? then last.events else []
  }

  lemma AppendedNext(deeds: seq<Deed>, deed: Deed)
    ensures Appended(deeds + [deed]) == Appended(deeds) + if deed.Commit? then deed.events else []
  {
    assert (deeds + [deed])[..|deeds|] == deeds;
  }

  lemma WriteAheadNext(deeds: seq<Deed>, step: KernelStep, more: seq<Deed>)
    requires WriteAhead(deeds) && Announced(step)
    requires 1 <= |more| <= 2 && more[0] == Commit(step.events)
    requires |more| == 2 ==> step.effect.Some? && more[1] == Execute(step.effect.value)
    ensures WriteAhead(deeds + more)
    ensures Appended(deeds + more) == Appended(deeds) + step.events
  {
    hide Announces;
    AppendedNext(deeds, more[0]);
    AppendedMore(deeds, more);
    forall i | 0 <= i < |deeds + more| && (deeds + more)[i].Execute?
      ensures i > 0 && (deeds + more)[i - 1].Commit? && Announces((deeds + more)[i - 1].events, (deeds + more)[i].effect.id)
    {
      if i < |deeds| {
        assert deeds[i].Execute?;
      } else {
        assert i == |deeds| + 1 && more[1].Execute?;
      }
    }
  }

  lemma AppendedMore(deeds: seq<Deed>, more: seq<Deed>)
    requires 1 <= |more| <= 2 && (|more| == 2 ==> more[1].Execute?)
    ensures Appended(deeds + more) == Appended(deeds + [more[0]])
  {
    if |more| == 1 {
      assert more == [more[0]];
    } else {
      assert deeds + more == (deeds + [more[0]]) + [more[1]];
      AppendedNext(deeds + [more[0]], more[1]);
    }
  }

  /** The loop writes ahead: in every run each effect is executed after its start is in the
      log, and the log is what the steps of the run say. */
  lemma {:induction false} DeedsWriteAhead(steps: seq<KernelStep>, ticks: seq<Tick>)
    requires forall i | 0 <= i < |steps| :: Announced(steps[i])
    ensures WriteAhead(Deeds(steps, ticks))
    ensures Appended(Deeds(steps, ticks)) == Committed(steps)
    decreases |steps|
  {
    if steps != [] {
      var n := |steps| - 1;
      DeedsWriteAhead(steps[..n], ticks);
      hide Announced, WriteAhead, Appended, TurnDeeds;
      WriteAheadNext(Deeds(steps[..n], ticks), steps[n], TurnDeeds(steps[n], ticks, n));
    }
  }

  /** What the kernel accepts leads to a step that announces its effect. */
  lemma AcceptAnnounces(cursor: Cursor, result: EffectResult)
    requires Accept(cursor, result).Ok?
    ensures Announced(Accept(cursor, result).value)
  {
    hide ToolPlanned, InvocationsStarted, TransitionEvents, UnclosedOperations, ImmediateObservations, NextMode, StepOpened,
         ClosedBy, IsLength;
  }

  lemma {:induction false} RunAnnounces(first: KernelStep, ticks: seq<Tick>, limit: Option<int>, i: nat)
    requires Announced(first) && i < |RunSteps(first, ticks, limit)|
    ensures Announced(RunSteps(first, ticks, limit)[i])
  {
    if i > 0 {
      var steps := RunSteps(first, ticks, limit);
      TraceSteps(first, ticks, Machine(limit), i - 1);
      assert NextStep(steps[i - 1], ticks[i - 1], limit) == Some(steps[i]);
      hide Announced, Accept;
      AcceptAnnounces(steps[i - 1].cursor, LoopResult(steps[i - 1], ticks[i - 1], limit));
    }
  }

  /** The first step of a run, in one of the three ways to begin. */
  ghost predicate Begun(first: KernelStep) {
    || (exists turnId, mode, workflow, stream, stepIndex :: first == Start(turnId, mode, workflow, stream, stepIndex))
    || (exists turnId, mode, workflow, action, parent, stepIndex ::
          first == CommandTool(turnId, mode, workflow, action, parent, stepIndex))
    || (exists pending, batch, turnId, stream, stepIndex ::
          first == ResumePreparation(pending, batch, turnId, stream, stepIndex))
  }

  /** Every run writes ahead, however it began. */
  lemma RunWritesAhead(first: KernelStep, ticks: seq<Tick>, limit: Option<int>)
    requires Begun(first)
    ensures var deeds := Deeds(RunSteps(first, ticks, limit), ticks);
            WriteAhead(deeds) && Appended(deeds) == Committed(RunSteps(first, ticks, limit))
  {
    BegunAnnounces(first);
    hide *;
    AnnouncedWritesAhead(first, ticks, limit);
  }

  lemma BegunAnnounces(first: KernelStep)
    requires Begun(first)
    ensures Announced(first)
  {
    hide Announced, Start, CommandTool, ResumePreparation;
    if turnId, mode, workflow, stream, stepIndex :| first == Start(turnId, mode, workflow, stream, stepIndex) {
      StartAnnounces(turnId, mode, workflow, stream, stepIndex);
    } else if turnId, mode, workflow, action, parent, stepIndex :|
      first == CommandTool(turnId, mode, workflow, action, parent, stepIndex)
    {
      CommandAnnounces(turnId, mode, workflow, action, parent, stepIndex);
    } else if pending, batch, turnId, stream, stepIndex :|
      first == ResumePreparation(pending, batch, turnId, stream, stepIndex)
    {
      ResumeAnnounces(pending, batch, turnId, stream, stepIndex);
    }
  }

  lemma StartAnnounces(turnId: string, mode: string, workflow: string, stream: bool, stepIndex: int)
    ensures Announced(Start(turnId, mode, workflow, stream, stepIndex))
  {
  }

  lemma CommandAnnounces(turnId: string, mode: string, workflow: string, action: ToolAction, parent: string, stepIndex: int)
    ensures Announced(CommandTool(turnId, mode, workflow, action, parent, stepIndex))
  {
  }

  lemma ResumeAnnounces(pending: Pending, batch: PrepareBatch, turnId: string, stream: bool, stepIndex: int)
    ensures Announced(ResumePreparation(pending, batch, turnId, stream, stepIndex))
  {
  }

  lemma AnnouncedWritesAhead(first: KernelStep, ticks: seq<Tick>, limit: Option<int>)
    requires Announced(first)
    ensures var deeds := Deeds(RunSteps(first, ticks, limit), ticks);
            WriteAhead(deeds) && Appended(deeds) == Committed(RunSteps(first, ticks, limit))
  {
    var steps := RunSteps(first, ticks, limit);
    forall i | 0 <= i < |steps| ensures Announced(steps[i]) {
      RunAnnounces(first, ticks, limit, i);
    }
    DeedsWriteAhead(steps, ticks);
  }

  // ---------------------------------------------------------------- driving

  /** The loop before it commits the step of its turn. */
  ghost predicate Underway(first: KernelStep, ticks: seq<Tick>, limit: Option<int>, turn: nat, steps: seq<KernelStep>,
                           log: seq<Event>, deeds: seq<Deed>, finalText: string)
  {
    && turn <= |ticks|
    && steps == Trace(first, ticks[..turn], Machine(limit)) && |steps| == turn + 1
    && log == Committed(steps[..turn]) && deeds == Deeds(steps[..turn], ticks)
    && finalText == FinalText(ticks[..turn])
  }

  /** The loop when it has committed the step, and executed its effect if it does. */
  ghost predicate Arrived(ticks: seq<Tick>, turn: nat, steps: seq<KernelStep>, log: seq<Event>, deeds: seq<Deed>,
                          finalText: string)
  {
    && |steps| == turn + 1 && turn <= |ticks|
    && log == Committed(steps) && deeds == Deeds(steps, ticks)
    && finalText == FinalText(ticks[..turn])
  }

  lemma Sets(first: KernelStep, ticks: seq<Tick>, limit: Option<int>)
    ensures Underway(first, ticks, limit, 0, [first], [], [], "")
  {
    assert [first][..0] == [] && ticks[..0] == [];
    assert Trace(first, [], Machine(limit)) == [first];
  }

  /** What is in the log when the step is committed, and what the turn's deeds come to. */
  lemma Commits(first: KernelStep, ticks: seq<Tick>, limit: Option<int>, turn: nat, steps: seq<KernelStep>,
                log: seq<Event>, deeds: seq<Deed>, finalText: string)
    requires Underway(first, ticks, limit, turn, steps, log, deeds, finalText)
    ensures turn <= |ticks| && |steps| == turn + 1
    ensures log + steps[turn].events == Committed(steps) && finalText == FinalText(ticks[..turn])
    ensures turn == |ticks| || !Executes(steps[turn], ticks[turn]) ==>
              deeds + [Commit(steps[turn].events)] == Deeds(steps, ticks)
    ensures turn < |ticks| && Executes(steps[turn], ticks[turn]) ==>
              deeds + [Commit(steps[turn].events)] + [Execute(steps[turn].effect.value)] == Deeds(steps, ticks)
  {
    hide Executes, FinalText;
    var step := steps[turn];
    assert Deeds(steps, ticks) == Deeds(steps[..turn], ticks) + TurnDeeds(step, ticks, turn);
  }

  lemma Arrives(ticks: seq<Tick>, turn: nat, steps: seq<KernelStep>, log: seq<Event>, deeds: seq<Deed>, finalText: string)
    requires |steps| == turn + 1 && turn <= |ticks|
    requires log == Committed(steps) && deeds == Deeds(steps, ticks) && finalText == FinalText(ticks[..turn])
    ensures Arrived(ticks, turn, steps, log, deeds, finalText)
  {
  }

  lemma Goes(first: KernelStep, ticks: seq<Tick>, limit: Option<int>, turn: nat, steps: seq<KernelStep>,
             log: seq<Event>, deeds: seq<Deed>, finalText: string, next: KernelStep)
    requires turn < |ticks| && steps == Trace(first, ticks[..turn], Machine(limit))
    requires Arrived(ticks, turn, steps, log, deeds, finalText)
    requires NextStep(steps[turn], ticks[turn], limit) == Some(next)
    ensures Underway(first, ticks, limit, turn + 1, steps + [next], log, deeds,
                     if !ticks[turn].cancelledBefore && ticks[turn].result.ProviderCompleted? then
                       ticks[turn].result.reply.content
                     else finalText)
  {
    hide Deeds, NextStep;
    assert (steps + [next])[..turn + 1] == steps;
    LastReply(ticks, turn);
    TraceExtends(first, ticks[..turn], Machine(limit), ticks[turn], next);
  }

  lemma Stops(first: KernelStep, ticks: seq<Tick>, limit: Option<int>, turn: nat, steps: seq<KernelStep>)
    requires turn <= |ticks| && steps == Trace(first, ticks[..turn], Machine(limit)) && |steps| == turn + 1
    requires turn < |ticks| ==> NextStep(steps[turn], ticks[turn], limit).None?
    ensures RunSteps(first, ticks, limit) == steps
  {
    hide NextStep;
    SplitTicks(ticks, turn);
    TraceStops(first, ticks[..turn], Machine(limit), ticks[turn..]);
  }

  /** Drives a run for as long as there are ticks: commits, executes, accepts. An accepted
      result that does not belong to the cursor would be raised as an error. `deeds` records
      each commit and each execution where it is done. */
  method Drive(first: KernelStep, ticks: seq<Tick>, limit: Option<int>)
    returns (log: seq<Event>, finished: Option<TurnResult>, error: Option<string>, ghost deeds: seq<Deed>)
    ensures var steps := RunSteps(first, ticks, limit);
            var last := steps[|steps| - 1];
            && log == Committed(steps) && deeds == Deeds(steps, ticks)
            && (if last.outcome.Some? then
                  finished == Some(TurnResult(FinalText(ticks[..|steps| - 1]), last.outcome.value)) && error.None?
                else finished.None?)
            && (error.None? && finished.None? ==> |steps| == |ticks| + 1)
    ensures Begun(first) ==> WriteAhead(deeds) && Appended(deeds) == log
  {
    hide *;
    var step, turn, finalText := first, 0, "";
    log, deeds := [], [];
    finished, error := None, None;
    ghost var steps := [first];
    Sets(first, ticks, limit);
    if Begun(first) {
      RunWritesAhead(first, ticks, limit);
    }
    while true
      invariant Underway(first, ticks, limit, turn, steps, log, deeds, finalText)
      invariant 0 <= turn <= |ticks| && |steps| == turn + 1 && step == steps[turn]
      invariant steps == Trace(first, ticks[..turn], Machine(limit))
      invariant finished.None? && error.None?
      decreases |ticks| - turn
    {
      Commits(first, ticks, limit, turn, steps, log, deeds, finalText);
      NextCases(step, ticks, turn, limit);
      log := log + step.events;
      deeds := deeds + [Commit(step.events)];
      if step.outcome.Some? {
        Stops(first, ticks, limit, turn, steps);
        finished := Some(TurnResult(finalText, step.outcome.value));
        return;
      } else if step.effect.None? {
        Stops(first, ticks, limit, turn, steps);
        error := Some("agent kernel produced neither effect nor outcome");
        return;
      } else if turn == |ticks| {
        Stops(first, ticks, limit, turn, steps);
        return;
      }
      var tick := ticks[turn];
      if !tick.cancelledBefore {
        deeds := deeds + [Execute(step.effect.value)];
      }
      Arrives(ticks, turn, steps, log, deeds, finalText);
      var accepted := Accept(step.cursor, LoopResult(step, tick, limit));
      if accepted.Err? {
        Stops(first, ticks, limit, turn, steps);
        error := Some(accepted.error);
        return;
      }
      Goes(first, ticks, limit, turn, steps, log, deeds, finalText, accepted.value);
      if !tick.cancelledBefore && tick.result.ProviderCompleted? {
        finalText := tick.result.reply.content;
      }
      steps, step, turn := steps + [accepted.value], accepted.value, turn + 1;
      Trails(first, ticks, limit, turn, steps, log, deeds, finalText);
    }
  }

  lemma Trails(first: KernelStep, ticks: seq<Tick>, limit: Option<int>, turn: nat, steps: seq<KernelStep>,
               log: seq<Event>, deeds: seq<Deed>, finalText: string)
    requires Underway(first, ticks, limit, turn, steps, log, deeds, finalText)
    ensures turn <= |ticks| && steps == Trace(first, ticks[..turn], Machine(limit)) && |steps| == turn + 1
  {
  }

  lemma NextCases(step: KernelStep, ticks: seq<Tick>, turn: nat, limit: Option<int>)
    ensures turn < |ticks| ==>
              NextStep(step, ticks[turn], limit)
                == if step.outcome.Some? || step.effect.None? then None
                   else
                     var accepted := Accept(step.cursor, LoopResult(step, ticks[turn], limit));
                     if accepted.Ok? then Some(accepted.value) else None
    ensures turn < |ticks| ==>
              (Executes(step, ticks[turn]) <==> step.outcome.None? && step.effect.Some? && !ticks[turn].cancelledBefore)
  {
    hide Accept, LoopResult;
  }

  lemma SplitTicks(ticks: seq<Tick>, turn: nat)
    requires turn <= |ticks|
    ensures ticks[..turn] + ticks[turn..] == ticks
  {
  }

  lemma LastReply(ticks: seq<Tick>, turn: nat)
    requires turn < |ticks|
    ensures ticks[..turn + 1] == ticks[..turn] + [ticks[turn]]
    ensures FinalText(ticks[..turn + 1])
         == if !ticks[turn].cancelledBefore && ticks[turn].result.ProviderCompleted? then ticks[turn].result.reply.content
            else FinalText(ticks[..turn])
  {
    assert ticks[..turn + 1][..turn] == ticks[..turn];
  }
}
