/** What becomes of each invocation of an executed batch, told from what the world does: stops,
    dispatches and reports. */
module ToolOutcomes {
  import opened Outcomes
  import opened IndexSort
  import opened OperationIds
  import opened AgentEffects
  import opened AgentLoop
  import opened ToolPreparation
  import opened ToolExecution
  import opened ToolResults

  // ------------------------------------------------------------- one entry

  /** The entry completes its invocation with that observation. */
  ghost predicate Completes(tools: Tools, e: (nat, Entry), o: Observation) {
    var (completion, token) := tools.complete(e.1.invocation, o);
    e.0 == e.1.invocation.sourceIndex && e.1.completion == completion && e.1.token == token
  }

  /** The invocation failed in that way and was not dispatched. */
  ghost predicate EndsAs(tools: Tools, e: (nat, Entry), kind: string) {
    exists o :: Completes(tools, e, o) && IsFailure(o, e.1.invocation.effective.name, kind)
  }

  predicate IsFailure(o: Observation, name: string, kind: string) {
    !o.success && o.error.Some? && o.toolName == name && o.ErrorKind() == kind
  }

  predicate Together(group: Group) {
    group.parallel && |group.actions| >= 2
  }

  /** What makes a group the last one that runs. */
  ghost predicate Disturbed(tools: Tools, group: Group) {
    if Together(group) then
      exists u | u in tools.updates(group) :: u.ResultUpdate? && u.observation.ErrorKind() == "discarded"
    else
      exists x | x in group.actions ::
        tools.stopBefore(x) || tools.stopStarted(x) || tools.dispatch(x).ErrorKind() == "interrupted"
  }

  ghost predicate DisturbedBefore(tools: Tools, groups: seq<Group>, j: nat)
    requires j <= |groups|
  {
    exists i | 0 <= i < j :: Disturbed(tools, groups[i])
  }

  /** An invocation that runs alone: stopped before it, right after its start, or dispatched. */
  ghost predicate EndsAlone(tools: Tools, e: (nat, Entry)) {
    var x := e.1.invocation;
    if tools.stopBefore(x) then EndsAs(tools, e, "discarded")
    else if tools.stopStarted(x) then EndsAs(tools, e, "interrupted")
    else Completes(tools, e, tools.dispatch(x))
  }

  ghost predicate StoppedBy(updates: seq<Update>, k: nat)
    requires k < |updates|
  {
    exists m | 0 <= m <= k :: updates[m].stopped
  }

  /** A report of a parallel group: once the turn was stopped it counts as interrupted, unless
      the executor has discarded it. */
  ghost predicate EndsReported(tools: Tools, updates: seq<Update>, k: nat, e: (nat, Entry))
    requires k < |updates|
  {
    var u := updates[k];
    && u.ResultUpdate? && u.invocation == e.1.invocation
    && if StoppedBy(updates, k) && u.observation.ErrorKind() != "discarded" then EndsAs(tools, e, "interrupted")
       else Completes(tools, e, u.observation)
  }

  /** What becomes of an invocation of group `j`. */
  ghost predicate EndsIn(tools: Tools, groups: seq<Group>, j: nat, e: (nat, Entry)) {
    && j < |groups|
    && if DisturbedBefore(tools, groups, j) then e.1.invocation in groups[j].actions && EndsAs(tools, e, "discarded")
       else if Together(groups[j]) then
         var updates := tools.updates(groups[j]);
         exists k | 0 <= k < |updates| :: EndsReported(tools, updates, k, e)
       else e.1.invocation in groups[j].actions && EndsAlone(tools, e)
  }

  lemma DisturbedDiscards(tools: Tools, group: Group)
    ensures GroupDiscards(tools, group) <==> Disturbed(tools, group)
  {
    if !Together(group) {
      if x :| x in group.actions
              && (tools.stopBefore(x) || tools.stopStarted(x) || tools.dispatch(x).ErrorKind() == "interrupted")
      {
        assert tools.stopBefore(x) || IsInterrupted(RunOne(tools, x));
      }
    }
  }

  lemma FailsAs(tools: Tools, x: Invocation, o: Observation, kind: string)
    requires IsFailure(o, x.effective.name, kind)
    ensures EndsAs(tools, EntryOf(tools, x, o), kind)
  {
    assert Completes(tools, EntryOf(tools, x, o), o);
  }

  lemma {:induction false} DroppedEnd(tools: Tools, actions: seq<Invocation>)
    ensures forall e | e in DropAll(tools, actions) :: e.1.invocation in actions && EndsAs(tools, e, "discarded")
  {
    if actions != [] {
      DroppedEnd(tools, actions[1..]);
      FailsAs(tools, actions[0], Discard(actions[0].effective.name), "discarded");
      hide EndsAs;
    }
  }

  lemma AloneEnds(tools: Tools, x: Invocation)
    ensures EndsAlone(tools, EntryOf(tools, x, RunOne(tools, x)))
  {
    if tools.stopBefore(x) {
      FailsAs(tools, x, RunOne(tools, x), "discarded");
    } else if tools.stopStarted(x) {
      FailsAs(tools, x, RunOne(tools, x), "interrupted");
    }
  }

  lemma {:induction false} SerialEnd(tools: Tools, actions: seq<Invocation>)
    ensures forall e | e in RunSerial(tools, actions) :: e.1.invocation in actions && EndsAlone(tools, e)
  {
    if actions != [] {
      SerialEnd(tools, actions[1..]);
      AloneEnds(tools, actions[0]);
      hide EndsAlone;
    }
  }

  /** The reports from number `k` on. */
  lemma {:induction false} ReportsEnd(tools: Tools, updates: seq<Update>, k: nat, interrupted: bool, e: (nat, Entry))
    returns (at: nat)
    requires k <= |updates| && (interrupted <==> exists m | 0 <= m < k :: updates[m].stopped)
    requires e in RunParallel(tools, updates[k..], interrupted)
    ensures at < |updates| && EndsReported(tools, updates, at, e)
    decreases |updates| - k
  {
    var rest := updates[k..];
    var now := interrupted || updates[k].stopped;
    assert rest[1..] == updates[k + 1..] && rest[0] == updates[k];
    if updates[k].ResultUpdate? && e == EntryOf(tools, updates[k].invocation, Settle(updates[k], interrupted)) {
      at := k;
      ReportEnds(tools, updates, k, interrupted);
    } else {
      at := ReportsEnd(tools, updates, k + 1, now, e);
    }
  }

  lemma ReportEnds(tools: Tools, updates: seq<Update>, k: nat, interrupted: bool)
    requires k < |updates| && updates[k].ResultUpdate?
    requires interrupted <==> exists m | 0 <= m < k :: updates[m].stopped
    ensures EndsReported(tools, updates, k, EntryOf(tools, updates[k].invocation, Settle(updates[k], interrupted)))
  {
    var u := updates[k];
    var o := Settle(u, interrupted);
    assert StoppedBy(updates, k) <==> interrupted || u.stopped;
    if StoppedBy(updates, k) && u.observation.ErrorKind() != "discarded" {
      FailsAs(tools, u.invocation, o, "interrupted");
    }
  }

  lemma GroupEnds(tools: Tools, group: Group, e: (nat, Entry))
    requires e in RunGroup(tools, group)
    ensures if Together(group) then
              var updates := tools.updates(group);
              exists k | 0 <= k < |updates| :: EndsReported(tools, updates, k, e)
            else e.1.invocation in group.actions && EndsAlone(tools, e)
  {
    if Together(group) {
      var updates := tools.updates(group);
      assert updates[0..] == updates;
      var k := ReportsEnd(tools, updates, 0, false, e);
    } else {
      SerialEnd(tools, group.actions);
    }
  }

  // ------------------------------------------------------------ all entries

  lemma {:induction false} EndsFrom(tools: Tools, groups: seq<Group>, i: nat, discard: bool, e: (nat, Entry)) returns (j: nat)
    requires i <= |groups| && (discard <==> DisturbedBefore(tools, groups, i))
    requires e in RunGroups(tools, groups[i..], discard)
    ensures EndsIn(tools, groups, j, e)
    decreases |groups| - i
  {
    hide Disturbed, RunGroup, DropAll, EndsAs, EndsAlone, EndsReported;
    NextGroups(tools, groups, i, discard);
    DroppedEnd(tools, groups[i].actions);
    DisturbedDiscards(tools, groups[i]);
    if discard && e in DropAll(tools, groups[i].actions) {
      j := i;
    } else if !discard && e in RunGroup(tools, groups[i]) {
      j := i;
      GroupEnds(tools, groups[i], e);
    } else {
      assert DisturbedBefore(tools, groups, i + 1) <==> DisturbedBefore(tools, groups, i) || Disturbed(tools, groups[i]);
      j := EndsFrom(tools, groups, i + 1, discard || GroupDiscards(tools, groups[i]), e);
    }
  }

  /** Every entry of an executed batch: after a disturbed group an invocation is discarded; one
      that runs alone is discarded when the turn was stopped before it, interrupted when it was
      stopped right after its start, and else dispatched; a report of a parallel group is handed
      on, as interrupted once the turn was stopped. */
  lemma AllEnd(tools: Tools, groups: seq<Group>)
    ensures forall e | e in RunGroups(tools, groups, false) :: exists j :: EndsIn(tools, groups, j, e)
  {
    hide EndsIn;
    forall e | e in RunGroups(tools, groups, false) ensures exists j :: EndsIn(tools, groups, j, e) {
      assert groups[0..] == groups;
      var j := EndsFrom(tools, groups, 0, false, e);
    }
  }

  /** The observation that the batch hands on for action `k`. */
  ghost predicate HandedOn(batch: PrepareBatch, progress: Progress, tools: Tools, groups: seq<Group>, k: nat,
                           pair: (ToolAction, Observation))
    requires k < |batch.actions|
  {
    && pair.0 == batch.actions[k]
    && ((exists x | x in progress.immediate :: x.sourceIndex == k && pair.1 == x.observation)
        || (exists j, e :: EndsIn(tools, groups, j, e) && e.1.invocation in progress.prepared
                           && e.1.invocation.sourceIndex == k && pair.1 == e.1.completion.observation))
  }

  /** An executed batch of n actions hands on n observations, in the order of the actions: that
      of the immediate result of the action or of what became of its invocation. */
  lemma BatchTold(batch: PrepareBatch, progress: Progress, effect: EffectId, tools: Tools, groups: seq<Group>)
    requires Slotted(batch, |batch.actions|, progress) && Delivers(tools) && Partitions(groups, progress.prepared)
    ensures var pairs := ToolResultPairs(ExecuteTools(effect, progress.prepared, progress.immediate),
                                         Collect(effect, progress.immediate, RunGroups(tools, groups, false)));
            |pairs| == |batch.actions|
            && forall k | 0 <= k < |pairs| :: HandedOn(batch, progress, tools, groups, k, pairs[k])
  {
    var entries := RunGroups(tools, groups, false);
    RunPermutes(tools, groups, false);
    hide Delivers, Slotted, RunGroups, EndsIn, Collect, ToolResultPairs, Keys, Indexed;
    PairsAreOwn(batch, progress, effect, entries);
    AllEnd(tools, groups);
    ByIndexSorts(entries);
    var pairs := ToolResultPairs(ExecuteTools(effect, progress.prepared, progress.immediate),
                                 Collect(effect, progress.immediate, entries));
    forall k | 0 <= k < |pairs| ensures HandedOn(batch, progress, tools, groups, k, pairs[k]) {
      OwnIsHandedOn(batch, progress, tools, groups, entries, k, pairs[k]);
    }
  }

  lemma OwnIsHandedOn(batch: PrepareBatch, progress: Progress, tools: Tools, groups: seq<Group>, entries: seq<(nat, Entry)>, k: nat,
                      pair: (ToolAction, Observation))
    requires k < |batch.actions| && OwnSlot(batch, progress, ByIndex(entries), k, pair)
    requires multiset(ByIndex(entries)) == multiset(entries)
    requires forall e | e in entries :: exists j :: EndsIn(tools, groups, j, e)
    ensures HandedOn(batch, progress, tools, groups, k, pair)
  {
    hide EndsIn, ByIndex;
    if e :| e in ByIndex(entries) && e.1.invocation in progress.prepared && e.1.invocation.sourceIndex == k
            && pair.1 == e.1.completion.observation
    {
      assert e in multiset(ByIndex(entries));
      assert e in entries;
      var j :| EndsIn(tools, groups, j, e);
    }
  }

  /** Completing an invocation does not change the kind of its observation. */
  ghost predicate KeepsKinds(tools: Tools) {
    forall x: Invocation, o: Observation :: tools.complete(x, o).0.observation.ErrorKind() == o.ErrorKind()
  }

  lemma {:induction false} ReportedKeys(updates: seq<Update>, k: nat)
    requires k < |updates| && updates[k].ResultUpdate?
    ensures (updates[k].invocation.sourceIndex, updates[k].invocation) in ResultKeys(updates)
  {
    if k > 0 {
      ReportedKeys(updates[1..], k - 1);
    }
  }

  lemma ReportedIsOwn(tools: Tools, group: Group, k: nat, e: (nat, Entry))
    requires Delivers(tools) && Together(group) && k < |tools.updates(group)|
    requires EndsReported(tools, tools.updates(group), k, e)
    ensures e.1.invocation in group.actions
  {
    var updates := tools.updates(group);
    ReportedKeys(updates, k);
    assert TogetherGroup(group);
    var key := (e.1.invocation.sourceIndex, e.1.invocation);
    assert key in multiset(ResultKeys(updates));
    assert key in multiset(Indexed(group.actions));
    assert key in Indexed(group.actions);
  }

  /** An invocation that runs alone and is stopped hands on no result of a dispatch. */
  lemma StoppedEnds(tools: Tools, groups: seq<Group>, j: nat, e: (nat, Entry))
    requires Delivers(tools) && KeepsKinds(tools) && EndsIn(tools, groups, j, e)
    requires forall g | g in groups && e.1.invocation in g.actions :: !Together(g)
    ensures var kind := e.1.completion.observation.ErrorKind();
            && (tools.stopBefore(e.1.invocation) ==> kind == "discarded")
            && (tools.stopStarted(e.1.invocation) ==> kind in ["discarded", "interrupted"])
  {
    hide Delivers;
    assert groups[j] in groups;
    if !DisturbedBefore(tools, groups, j) && Together(groups[j]) {
      var updates := tools.updates(groups[j]);
      var k :| 0 <= k < |updates| && EndsReported(tools, updates, k, e);
      ReportedIsOwn(tools, groups[j], k, e);
      assert false;
    }
  }

  /** What a batch hands on for an invocation that was stopped: one that runs alone and is
      stopped before it is discarded; one stopped right after its start is interrupted, or
      discarded when a group before was disturbed. */
  lemma StoppedHandedOn(batch: PrepareBatch, progress: Progress, effect: EffectId, tools: Tools, groups: seq<Group>, x: Invocation)
    requires Slotted(batch, |batch.actions|, progress) && Delivers(tools) && Partitions(groups, progress.prepared)
    requires KeepsKinds(tools) && x in progress.prepared
    requires forall g | g in groups && x in g.actions :: !Together(g)
    ensures var pairs := ToolResultPairs(ExecuteTools(effect, progress.prepared, progress.immediate),
                                         Collect(effect, progress.immediate, RunGroups(tools, groups, false)));
            && x.sourceIndex < |pairs|
            && (tools.stopBefore(x) ==> pairs[x.sourceIndex].1.ErrorKind() == "discarded")
            && (tools.stopStarted(x) ==> pairs[x.sourceIndex].1.ErrorKind() in ["discarded", "interrupted"])
  {
    BatchTold(batch, progress, effect, tools, groups);
    InvocationSlotsBelow(progress, |batch.actions|);
    var pairs := ToolResultPairs(ExecuteTools(effect, progress.prepared, progress.immediate),
                                 Collect(effect, progress.immediate, RunGroups(tools, groups, false)));
    OwnSlotOnly(batch, progress, x);
    hide Delivers, KeepsKinds, Partitions, Slotted, EndsIn, ToolResultPairs, Collect, RunGroups, Together;
    assert HandedOn(batch, progress, tools, groups, x.sourceIndex, pairs[x.sourceIndex]);
    var j, e :| EndsIn(tools, groups, j, e) && e.1.invocation in progress.prepared
                && e.1.invocation.sourceIndex == x.sourceIndex && pairs[x.sourceIndex].1 == e.1.completion.observation;
    StoppedEnds(tools, groups, j, e);
  }

  /** The slot of an invocation is no other's. */
  lemma OwnSlotOnly(batch: PrepareBatch, progress: Progress, x: Invocation)
    requires Slotted(batch, |batch.actions|, progress) && x in progress.prepared
    ensures forall y | y in progress.immediate :: y.sourceIndex != x.sourceIndex
    ensures forall y | y in progress.prepared && y.sourceIndex == x.sourceIndex :: y == x
  {
    assert x.sourceIndex in InvocationIndices(progress.prepared);
    forall y | y in progress.immediate ensures y.sourceIndex != x.sourceIndex {
      assert y.sourceIndex in ImmediateIndices(progress.immediate);
    }
  }

  // ------------------------------------------- what is not run leaves no trace

  /** Whether the invocation is dispatched: no group before its own was disturbed, and the turn
      was stopped neither before it nor right after its start. */
  ghost predicate Dispatches(tools: Tools, groups: seq<Group>, x: Invocation) {
    exists j | 0 <= j < |groups| ::
      x in groups[j].actions && !DisturbedBefore(tools, groups, j) && !tools.stopBefore(x) && !tools.stopStarted(x)
  }

  /** Two worlds that differ only in what dispatching would give. */
  ghost predicate SameButDispatch(a: Tools, b: Tools) {
    a == b.(dispatch := a.dispatch)
  }

  lemma SameCompletion(a: Tools, b: Tools, x: Invocation, o: Observation)
    requires SameButDispatch(a, b)
    ensures EntryOf(a, x, o) == EntryOf(b, x, o)
  {
  }

  lemma {:induction false} SameDropped(a: Tools, b: Tools, actions: seq<Invocation>)
    requires SameButDispatch(a, b)
    ensures DropAll(a, actions) == DropAll(b, actions)
  {
    if actions != [] {
      SameDropped(a, b, actions[1..]);
    }
  }

  lemma {:induction false} SameSerial(a: Tools, b: Tools, actions: seq<Invocation>)
    requires SameButDispatch(a, b)
    requires forall x | x in actions && !a.stopBefore(x) && !a.stopStarted(x) :: a.dispatch(x) == b.dispatch(x)
    ensures RunSerial(a, actions) == RunSerial(b, actions)
  {
    if actions != [] {
      SameSerial(a, b, actions[1..]);
      SameCompletion(a, b, actions[0], RunOne(a, actions[0]));
      assert RunOne(a, actions[0]) == RunOne(b, actions[0]);
      hide RunOne, EntryOf;
    }
  }

  lemma {:induction false} SameParallel(a: Tools, b: Tools, updates: seq<Update>, interrupted: bool)
    requires SameButDispatch(a, b)
    ensures RunParallel(a, updates, interrupted) == RunParallel(b, updates, interrupted)
  {
    if updates != [] {
      SameParallel(a, b, updates[1..], interrupted || updates[0].stopped);
    }
  }

  lemma SameGroup(a: Tools, b: Tools, group: Group)
    requires SameButDispatch(a, b)
    requires forall x | x in group.actions && !a.stopBefore(x) && !a.stopStarted(x) :: a.dispatch(x) == b.dispatch(x)
    ensures RunGroup(a, group) == RunGroup(b, group) && DropAll(a, group.actions) == DropAll(b, group.actions)
    ensures Disturbed(a, group) <==> Disturbed(b, group)
  {
    SameDropped(a, b, group.actions);
    if Together(group) {
      SameParallel(a, b, a.updates(group), false);
    } else {
      SameSerial(a, b, group.actions);
    }
    hide RunParallel, RunSerial, DropAll;
  }

  lemma DisturbedNext(tools: Tools, groups: seq<Group>, i: nat)
    requires i < |groups|
    ensures DisturbedBefore(tools, groups, i + 1) <==> DisturbedBefore(tools, groups, i) || Disturbed(tools, groups[i])
  {
    hide Disturbed;
  }

  lemma SameHere(a: Tools, b: Tools, groups: seq<Group>, i: nat)
    requires i < |groups| && SameButDispatch(a, b) && !DisturbedBefore(a, groups, i)
    requires forall x | Dispatches(a, groups, x) :: a.dispatch(x) == b.dispatch(x)
    ensures RunGroup(a, groups[i]) == RunGroup(b, groups[i])
    ensures Disturbed(a, groups[i]) <==> Disturbed(b, groups[i])
  {
    hide RunGroup, Disturbed, DisturbedBefore, SameButDispatch;
    SameGroup(a, b, groups[i]);
  }

  lemma {:induction false} SameFrom(a: Tools, b: Tools, groups: seq<Group>, i: nat, discard: bool)
    requires i <= |groups| && SameButDispatch(a, b)
    requires discard <==> DisturbedBefore(a, groups, i)
    requires forall x | Dispatches(a, groups, x) :: a.dispatch(x) == b.dispatch(x)
    ensures RunGroups(a, groups[i..], discard) == RunGroups(b, groups[i..], discard)
    decreases |groups| - i
  {
    if i < |groups| {
      NextGroups(a, groups, i, discard);
      NextGroups(b, groups, i, discard);
      SameDropped(a, b, groups[i].actions);
      hide RunGroups, RunGroup, DropAll, Disturbed, GroupDiscards, DisturbedBefore, Dispatches, SameButDispatch;
      DisturbedDiscards(a, groups[i]);
      DisturbedDiscards(b, groups[i]);
      DisturbedNext(a, groups, i);
      if !discard {
        SameHere(a, b, groups, i);
      }
      SameFrom(a, b, groups, i + 1, discard || Disturbed(a, groups[i]));
    }
  }

  /** What dispatching would give for invocations that are stopped, or belong to a later group,
      leaves no trace in the result of the batch. */
  lemma UndispatchedUnseen(a: Tools, b: Tools, groups: seq<Group>, effect: EffectId, immediates: seq<Immediate>)
    requires SameButDispatch(a, b)
    requires forall x | Dispatches(a, groups, x) :: a.dispatch(x) == b.dispatch(x)
    ensures Collect(effect, immediates, RunGroups(a, groups, false)) == Collect(effect, immediates, RunGroups(b, groups, false))
  {
    assert groups[0..] == groups;
    SameFrom(a, b, groups, 0, false);
  }
}
