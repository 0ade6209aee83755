/** What answers and the catalog mean for a batch: which mode an answered action chooses, what an
    invocation takes from the catalog, and which invocations may run together. */
module ToolAnswers {
  import opened Outcomes
  import opened Text
  import opened OperationIds
  import opened AgentEffects
  import opened AgentKernel
  import opened AgentServices
  import opened AgentRun
  import opened AgentLoop
  import opened AgentProgress
  import opened AgentOutcome
  import opened AgentFlow
  import opened ToolPreparation
  import opened ToolExecution

  // ------------------------------------------------------------- the mode

  /** The mode that the user picks: the one selected in the answer or, for a proposed switch that
      is answered without one, the one that was proposed. */
  predicate Picks(action: ToolAction, answer: Resolution, mode: string) {
    if Strip(answer.selectedMode) != "" then mode == Strip(answer.selectedMode)
    else if action.name == "propose_mode_switch" && "target_mode" in action.arguments then
      mode == Strip(action.arguments["target_mode"])
    else mode == ""
  }

  /** An answered action succeeds under its own name, and asks for another mode if and only if
      the user picks one that is not the current one. */
  lemma AnswerChooses(action: ToolAction, answer: Resolution, current: string, picked: string)
    requires Picks(action, answer, picked)
    ensures var o := ToolPreparation.Answered(action, answer, current);
            && o.success && o.toolName == action.name && o.ErrorKind() == ""
            && (ChangesMode(o) <==> picked != "" && picked != current)
            && (ChangesMode(o) ==> Strip(o.data.selectedMode) == picked)
            && o.data.Fields? && "answer" in o.data.others && o.data.others["answer"] == Strip(answer.answer)
  {
    StripTwice(answer.selectedMode);
    StripTwice(Argument(action, "target_mode"));
    assert Strip("") == "";
    hide Strip, IndexText;
  }

  lemma StripTwice(s: string)
    ensures Strip(Strip(s)) == Strip(s)
  {
  }

  /** When a batch ends and the last of its observations to choose a mode is an answered action
      for which the user picked another mode, the run goes on in that mode. */
  lemma PickedModeIsTaken(step: KernelStep, tick: Tick, limit: Option<int>, next: KernelStep, k: nat, action: ToolAction,
                          answer: Resolution, picked: string)
    requires Shaped(step) && Fed(step, tick) && Accept(step.cursor, LoopResult(step, tick, limit)) == Ok(next)
    requires next.effect.Some? && BatchOver(tick) && k < |ObservationsOf(tick)|
    requires ObservationsOf(tick)[k] == ToolPreparation.Answered(action, answer, step.cursor.mode) && Picks(action, answer, picked)
    requires picked != "" && picked != step.cursor.mode
    requires forall j | k < j < |ObservationsOf(tick)| :: !ChangesMode(ObservationsOf(tick)[j])
    ensures next.cursor.mode == picked && next.effect.value.AssembleContext? && next.effect.value.mode == picked
  {
    AnswerChooses(action, answer, step.cursor.mode, picked);
    ModeFollows(step, tick, limit, next);
    EffectsFollow(step, tick, limit, next);
    hide Strip, ToolPreparation.Answered, Picks, LoopResult, Accept, Serves, Shaped, ObservationsOf, ChangesMode;
    assert ChangesMode(ObservationsOf(tick)[k]);
  }

  // ----------------------------------------------------------- the catalog

  /** The invocation is what the catalog says of its tool, in the mode and workflow of its batch. */
  ghost predicate Cataloged(world: World, batch: PrepareBatch, x: Invocation) {
    && x.sourceIndex < |batch.actions| && x.providerCallId == batch.actions[x.sourceIndex].callId
    && x.mode == batch.mode && x.workflow == batch.workflow && !x.replaySafe
    && world.catalog(x.effective.name).Some?
    && var entry := world.catalog(x.effective.name).value;
       && x.readOnly == entry.readOnly && x.concurrencySafe == entry.concurrencySafe
       && x.sourceType == entry.sourceType && x.sourceId == entry.sourceId
  }

  lemma ReadyIsCataloged(world: World, batch: PrepareBatch, i: nat, handlers: Handlers)
    requires i < |batch.actions| && OutcomeAt(world, batch, i, handlers).Ready?
    ensures Cataloged(world, batch, OutcomeAt(world, batch, i, handlers).invocation)
  {
    hide Evaluate, Interactive, WriteFailure, Presentation, Enter, ToolPreparation.Answered;
  }

  lemma {:induction false} AllCataloged(world: World, batch: PrepareBatch, handlers: Handlers, i: nat, progress: Progress)
    ensures forall x | x in PrepareFrom(world, batch, handlers, i, progress).progress.prepared ::
              x in progress.prepared || Cataloged(world, batch, x)
    decreases |batch.actions| - i
  {
    hide OutcomeAt, Cataloged;
    if i < |batch.actions| && !OutcomeAt(world, batch, i, handlers).Waiting? {
      var outcome := OutcomeAt(world, batch, i, handlers);
      AllCataloged(world, batch, handlers, i + 1, Add(progress, outcome));
      if outcome.Ready? {
        ReadyIsCataloged(world, batch, i, handlers);
      }
    }
  }

  lemma {:induction false} InOneGroup(groups: seq<Group>, x: Invocation, g: Group)
    requires g in groups && x in g.actions
    ensures x in Flatten(groups)
  {
    if groups[0] != g {
      assert groups == [groups[0]] + groups[1..];
      InOneGroup(groups[1..], x, g);
    }
  }

  /** Invocations run together only if the catalog declares the tools of all of them read-only
      and safe to run concurrently. */
  lemma OnlySafeTogether(world: World, batch: PrepareBatch, handlers: Handlers, groups: seq<Group>, g: Group, x: Invocation)
    requires batch.preparedPrefix == []
    requires Partitions(groups, PrepareAll(world, batch, handlers).progress.prepared)
    requires g in groups && TogetherGroup(g) && x in g.actions
    ensures world.catalog(x.effective.name).Some?
    ensures world.catalog(x.effective.name).value.readOnly && world.catalog(x.effective.name).value.concurrencySafe
  {
    hide PrepareFrom;
    AllCataloged(world, batch, handlers, batch.startIndex, Prefix(batch));
    InOneGroup(groups, x, g);
    assert Uniform(g);
  }

  // ------------------------------------------------------------- refusals

  const NOTE := StateEvent("interaction")

  predicate RefusedResult(event: Event) {
    event.ToolResult? && event.observation.ErrorKind() == "permission_denied"
  }

  /** A refused permission is noted right before its result, and nothing else is. */
  ghost predicate Noted(events: seq<Event>) {
    && (forall k | 0 <= k < |events| && events[k] == NOTE :: k + 1 < |events| && RefusedResult(events[k + 1]))
    && (forall k | 0 <= k < |events| && RefusedResult(events[k]) :: k > 0 && events[k - 1] == NOTE)
  }

  lemma NotedConcat(a: seq<Event>, b: seq<Event>)
    requires Noted(a) && Noted(b)
    ensures Noted(a + b)
  {
    hide RefusedResult;
    var all := a + b;
    forall k | 0 <= k < |all| && all[k] == NOTE ensures k + 1 < |all| && RefusedResult(all[k + 1]) {
      assert if k < |a| then a[k] == NOTE else b[k - |a|] == NOTE;
    }
    forall k | 0 <= k < |all| && RefusedResult(all[k]) ensures k > 0 && all[k - 1] == NOTE {
      assert if k < |a| then RefusedResult(a[k]) else RefusedResult(b[k - |a|]);
    }
  }

  lemma OneNoted(x: Immediate)
    ensures Noted(ImmediateEvents(x))
  {
  }

  /** Whatever is asked, answered or decided: the events of a preparation note each refusal of a
      permission, by a rule or by an answer, right before its result. */
  lemma {:induction false} RefusalsNoted(world: World, batch: PrepareBatch, handlers: Handlers, i: nat, progress: Progress)
    requires Noted(progress.events)
    ensures Noted(PrepareFrom(world, batch, handlers, i, progress).progress.events)
    decreases |batch.actions| - i
  {
    hide OutcomeAt, Noted, ImmediateEvents;
    if i < |batch.actions| && !OutcomeAt(world, batch, i, handlers).Waiting? {
      var outcome := OutcomeAt(world, batch, i, handlers);
      if outcome.Done? {
        OneNoted(outcome.immediate);
        NotedConcat(progress.events, ImmediateEvents(outcome.immediate));
      }
      RefusalsNoted(world, batch, handlers, i + 1, Add(progress, outcome));
    }
  }
}
