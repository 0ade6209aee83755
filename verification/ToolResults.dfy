/** What an executed batch returns, whatever the order in which its invocations finished. */
module ToolResults {
  import opened Outcomes
  import opened IndexSort
  import opened OperationIds
  import opened AgentEffects
  import opened OperationLedger
  import opened AgentKernel
  import opened AgentServices
  import opened AgentLoop
  import opened ToolPreparation
  import opened ToolExecution

  // ---------------------------------------------- every invocation, once each

  function KeyOf(entry: Entry): Invocation {
    entry.invocation
  }

  /** Whose entries these are. */
  function Keys(entries: seq<(nat, Entry)>): seq<(nat, Invocation)> {
    MapValues(entries, KeyOf)
  }

  function Indexed(invocations: seq<Invocation>): (items: seq<(nat, Invocation)>)
    ensures |items| == |invocations|
  {
    seq(|invocations|, i requires 0 <= i < |invocations| => (invocations[i].sourceIndex, invocations[i]))
  }

  function ResultKeys(updates: seq<Update>): seq<(nat, Invocation)> {
    if updates == [] then []
    else (if updates[0].ResultUpdate? then [(updates[0].invocation.sourceIndex, updates[0].invocation)] else [])
         + ResultKeys(updates[1..])
  }

  /** The executor of a parallel group reports the result of each action once, in any order. */
  ghost predicate Delivers(tools: Tools) {
    forall group: Group | TogetherGroup(group) ::
      multiset(ResultKeys(tools.updates(group))) == multiset(Indexed(group.actions))
  }

  lemma KeysConcat(a: seq<(nat, Entry)>, b: seq<(nat, Entry)>)
    ensures Keys(a + b) == Keys(a) + Keys(b)
  {
  }

  lemma IndexedConcat(a: seq<Invocation>, b: seq<Invocation>)
    ensures Indexed(a + b) == Indexed(a) + Indexed(b)
  {
  }

  lemma KeysPrepend(entry: (nat, Entry), rest: seq<(nat, Entry)>)
    ensures Keys([entry] + rest) == [(entry.0, entry.1.invocation)] + Keys(rest)
  {
  }

  lemma IndexedHead(actions: seq<Invocation>)
    requires actions != []
    ensures Indexed(actions) == [(actions[0].sourceIndex, actions[0])] + Indexed(actions[1..])
  {
  }

  lemma {:induction false} DropKeys(tools: Tools, actions: seq<Invocation>)
    ensures Keys(DropAll(tools, actions)) == Indexed(actions)
  {
    if actions != [] {
      DropKeys(tools, actions[1..]);
      IndexedHead(actions);
      KeysPrepend(Dropped(tools, actions[0]), DropAll(tools, actions[1..]));
    }
  }

  lemma {:induction false} SerialKeys(tools: Tools, actions: seq<Invocation>)
    ensures Keys(RunSerial(tools, actions)) == Indexed(actions)
  {
    if actions != [] {
      SerialKeys(tools, actions[1..]);
      IndexedHead(actions);
      KeysPrepend(EntryOf(tools, actions[0], RunOne(tools, actions[0])), RunSerial(tools, actions[1..]));
    }
  }

  lemma {:induction false} ParallelKeys(tools: Tools, updates: seq<Update>, interrupted: bool)
    ensures Keys(RunParallel(tools, updates, interrupted)) == ResultKeys(updates)
  {
    if updates == [] {
    } else {
      hide *;
      var now := interrupted || updates[0].stopped;
      ParallelKeys(tools, updates[1..], now);
      ParallelNext(tools, updates, interrupted);
      if updates[0].ResultUpdate? {
        KeysPrepend(EntryOf(tools, updates[0].invocation, Settle(updates[0], interrupted)),
                    RunParallel(tools, updates[1..], now));
      }
    }
  }

  lemma ParallelNext(tools: Tools, updates: seq<Update>, interrupted: bool)
    requires updates != []
    ensures var now := interrupted || updates[0].stopped;
            if updates[0].ResultUpdate? then
              var entry := EntryOf(tools, updates[0].invocation, Settle(updates[0], interrupted));
              && RunParallel(tools, updates, interrupted) == [entry] + RunParallel(tools, updates[1..], now)
              && ResultKeys(updates) == [(entry.0, entry.1.invocation)] + ResultKeys(updates[1..])
            else
              && RunParallel(tools, updates, interrupted) == RunParallel(tools, updates[1..], now)
              && ResultKeys(updates) == ResultKeys(updates[1..])
  {
    hide Settle;
  }

  /** Whatever is stopped, interrupted or discarded, every invocation gets one entry. */
  lemma {:induction false} RunPermutes(tools: Tools, groups: seq<Group>, discard: bool)
    requires Delivers(tools)
    ensures multiset(Keys(RunGroups(tools, groups, discard))) == multiset(Indexed(Flatten(groups)))
    decreases |groups|
  {
    if groups != [] {
      var first := if discard then DropAll(tools, groups[0].actions) else RunGroup(tools, groups[0]);
      var after := discard || GroupDiscards(tools, groups[0]);
      GroupPermutes(tools, groups[0]);
      RunPermutes(tools, groups[1..], after);
      hide Keys, Indexed, GroupDiscards, RunGroup, DropAll;
      assert RunGroups(tools, groups, discard) == first + RunGroups(tools, groups[1..], after);
      KeysConcat(first, RunGroups(tools, groups[1..], after));
      IndexedConcat(groups[0].actions, Flatten(groups[1..]));
    }
  }

  lemma GroupPermutes(tools: Tools, group: Group)
    requires Delivers(tools)
    ensures multiset(Keys(RunGroup(tools, group))) == multiset(Indexed(group.actions))
    ensures multiset(Keys(DropAll(tools, group.actions))) == multiset(Indexed(group.actions))
  {
    DropKeys(tools, group.actions);
    if TogetherGroup(group) {
      ParallelKeys(tools, tools.updates(group), false);
    } else {
      SerialKeys(tools, group.actions);
    }
  }

  /** Once a group has discarded something, nothing more is dispatched: every invocation of
      the groups that follow is dropped. */
  lemma {:induction false} DroppedAfter(tools: Tools, groups: seq<Group>)
    ensures RunGroups(tools, groups, true) == DropAll(tools, Flatten(groups))
    decreases |groups|
  {
    if groups != [] {
      DroppedAfter(tools, groups[1..]);
      DropConcat(tools, groups[0].actions, Flatten(groups[1..]));
    }
  }

  lemma {:induction false} DropConcat(tools: Tools, a: seq<Invocation>, b: seq<Invocation>)
    ensures DropAll(tools, a + b) == DropAll(tools, a) + DropAll(tools, b)
  {
    if a == [] {
      assert a + b == b;
    } else {
      assert (a + b)[1..] == a[1..] + b;
      DropConcat(tools, a[1..], b);
    }
  }

  /** A batch in which nothing is stopped, interrupted or discarded. */
  ghost predicate Undisturbed(tools: Tools, groups: seq<Group>) {
    forall g | g in groups ::
      if TogetherGroup(g) then
        forall u | u in tools.updates(g) :: !u.stopped
          && (u.ResultUpdate? ==> u.observation == tools.dispatch(u.invocation) && !IsDiscarded(u.observation))
      else
        forall x | x in g.actions :: !tools.stopBefore(x) && !tools.stopStarted(x) && !IsInterrupted(tools.dispatch(x))
  }

  /** Every entry holds what dispatching its invocation gave. */
  ghost predicate Dispatched(tools: Tools, entries: seq<(nat, Entry)>) {
    forall e | e in entries :: e == EntryOf(tools, e.1.invocation, tools.dispatch(e.1.invocation))
  }

  lemma {:induction false} SerialDispatched(tools: Tools, actions: seq<Invocation>)
    requires forall x | x in actions :: !tools.stopBefore(x) && !tools.stopStarted(x)
    ensures Dispatched(tools, RunSerial(tools, actions))
  {
    if actions != [] {
      assert actions[0] in actions && forall x | x in actions[1..] :: x in actions;
      SerialDispatched(tools, actions[1..]);
    }
  }

  lemma {:induction false} ParallelDispatched(tools: Tools, updates: seq<Update>)
    requires forall u | u in updates :: !u.stopped && (u.ResultUpdate? ==> u.observation == tools.dispatch(u.invocation))
    ensures Dispatched(tools, RunParallel(tools, updates, false))
  {
    if updates != [] {
      assert updates[0] in updates && forall u | u in updates[1..] :: u in updates;
      ParallelDispatched(tools, updates[1..]);
    }
  }

  /** Without a disturbance every invocation is dispatched. */
  lemma {:induction false} AllDispatched(tools: Tools, groups: seq<Group>)
    requires Undisturbed(tools, groups)
    ensures Dispatched(tools, RunGroups(tools, groups, false))
    decreases |groups|
  {
    if groups != [] {
      var g := groups[0];
      assert g in groups && forall h | h in groups[1..] :: h in groups;
      if TogetherGroup(g) {
        ParallelDispatched(tools, tools.updates(g));
      } else {
        SerialDispatched(tools, g.actions);
      }
      assert !GroupDiscards(tools, g);
      AllDispatched(tools, groups[1..]);
    }
  }

  // ------------------------------------------------------------ source order

  ghost predicate AscendingInvocations(invocations: seq<Invocation>) {
    forall i, j | 0 <= i < j < |invocations| :: invocations[i].sourceIndex < invocations[j].sourceIndex
  }

  /** Sorting puts the entries in the order of the invocations. */
  lemma InSourceOrder(invocations: seq<Invocation>, entries: seq<(nat, Entry)>)
    requires AscendingInvocations(invocations)
    requires multiset(Keys(entries)) == multiset(Indexed(invocations))
    ensures Keys(ByIndex(entries)) == Indexed(invocations)
    ensures |ByIndex(entries)| == |invocations|
    ensures forall i | 0 <= i < |invocations| :: ByIndex(entries)[i].1.invocation == invocations[i]
                                                 && ByIndex(entries)[i].0 == invocations[i].sourceIndex
  {
    ByIndexMap(entries, KeyOf);
    SortRestores(Keys(entries), Indexed(invocations));
    var sorted := ByIndex(entries);
    forall i | 0 <= i < |invocations|
      ensures sorted[i].1.invocation == invocations[i] && sorted[i].0 == invocations[i].sourceIndex
    {
      assert Keys(sorted)[i] == Indexed(invocations)[i];
    }
  }

  function Completions(entries: seq<(nat, Entry)>): seq<Completion> {
    seq(|entries|, i requires 0 <= i < |entries| => entries[i].1.completion)
  }

  lemma {:induction false} EventsOfEntries(invocations: seq<Invocation>, entries: seq<(nat, Entry)>)
    requires |entries| == |invocations|
    requires forall i | 0 <= i < |invocations| :: entries[i].1.invocation == invocations[i]
    ensures EntryEvents(entries) == AllCompletionEvents(invocations, Completions(entries))
    decreases |entries|
  {
    if entries != [] {
      assert Completions(entries)[1..] == Completions(entries[1..]);
      EventsOfEntries(invocations[1..], entries[1..]);
    }
  }

  /** Completing an invocation never makes up another kind of operation. */
  ghost predicate PatchesOnly(entries: seq<(nat, Entry)>) {
    forall i | 0 <= i < |entries| :: entries[i].1.completion.WellFormed()
  }

  lemma {:induction false} TokensOf(entries: seq<(nat, Entry)>, token: int)
    ensures token in EntryTokens(entries) <==> exists e :: e in entries && e.1.token == Some(token)
    ensures |EntryTokens(entries)| <= |entries|
  {
    if entries != [] {
      TokensOf(entries[1..], token);
      assert entries == [entries[0]] + entries[1..];
      assert entries[0] in entries;
    }
  }

  /** The tokens to be committed are those of the entries. */
  lemma TokensKept(effect: EffectId, immediates: seq<Immediate>, entries: seq<(nat, Entry)>, token: int)
    ensures token in Collect(effect, immediates, entries).tokens <==> exists e :: e in entries && e.1.token == Some(token)
  {
    var sorted := ByIndex(entries);
    ByIndexSorts(entries);
    TokensOf(sorted, token);
    forall e ensures e in sorted <==> e in entries {
      assert multiset(sorted)[e] == multiset(entries)[e];
    }
  }

  /** One observation for each action and one closing event for each invocation, in source
      order: the result is one that the kernel accepts from the service. */
  lemma CollectServes(effect: EffectId, invocations: seq<Invocation>, immediates: seq<Immediate>, entries: seq<(nat, Entry)>)
    requires AscendingInvocations(invocations) && PatchesOnly(entries)
    requires multiset(Keys(entries)) == multiset(Indexed(invocations))
    ensures ServesExecute(invocations, immediates, Collect(effect, immediates, entries))
    ensures |ByIndex(entries)| == |invocations|
            && Collect(effect, immediates, entries).events
               == AllCompletionEvents(invocations, Completions(ByIndex(entries)))
  {
    var sorted := ByIndex(entries);
    InSourceOrder(invocations, entries);
    EventsOfEntries(invocations, sorted);
    ByIndexSorts(entries);
    ByIndexSorts(IndexedObservations(immediates) + EntryObservations(sorted));
    forall i | 0 <= i < |sorted| ensures Completions(sorted)[i].WellFormed() {
      assert sorted[i] in multiset(sorted);
      assert sorted[i] in entries;
    }
    assert |Completions(sorted)| == |invocations|;
  }

  /** The order in which the invocations finished leaves no trace. */
  lemma AnyOrder(effect: EffectId, invocations: seq<Invocation>, immediates: seq<Immediate>, a: seq<(nat, Entry)>,
                 b: seq<(nat, Entry)>)
    requires AscendingInvocations(invocations)
    requires multiset(Keys(a)) == multiset(Indexed(invocations)) && multiset(a) == multiset(b)
    ensures Collect(effect, immediates, a) == Collect(effect, immediates, b)
  {
    InSourceOrder(invocations, a);
    ByIndexSorts(a);
    var sorted := ByIndex(a);
    assert Ascending(sorted);
    SortRestores(b, sorted);
  }

  /** The executed batch, for every world: what is started is closed once, in source order. */
  lemma ExecuteServes(tools: Tools, groups: seq<Group>, effect: EffectId, invocations: seq<Invocation>,
                      immediates: seq<Immediate>, message: MessageId)
    requires Delivers(tools) && Partitions(groups, invocations) && Named(invocations, message)
    requires PatchesOnly(RunGroups(tools, groups, false))
    ensures ServesExecute(invocations, immediates, Collect(effect, immediates, RunGroups(tools, groups, false)))
  {
    RunPermutes(tools, groups, false);
    CollectServes(effect, invocations, immediates, RunGroups(tools, groups, false));
  }

  // ----------------------------------------------------------- closed once

  function Closings(events: seq<Event>, id: OperationId): nat {
    if events == [] then 0
    else (if events[0].Closing() && events[0].id == id then 1 else 0) + Closings(events[1..], id)
  }

  lemma {:induction false} ClosingsConcat(a: seq<Event>, b: seq<Event>, id: OperationId)
    ensures Closings(a + b, id) == Closings(a, id) + Closings(b, id)
  {
    if a == [] {
      assert a + b == b;
    } else {
      assert (a + b)[1..] == a[1..] + b;
      ClosingsConcat(a[1..], b, id);
    }
  }

  lemma PatchClosings(patch: OperationId, id: OperationId)
    requires patch != id
    ensures Closings(PatchEvents(patch), id) == 0
  {
    var events := PatchEvents(patch);
    ClosingsOne(events[0], id);
    ClosingsOne(events[1], id);
    ClosingsOne(events[2], id);
    assert events == ([events[0]] + [events[1]]) + [events[2]];
    ClosingsConcat([events[0]], [events[1]], id);
    ClosingsConcat([events[0]] + [events[1]], [events[2]], id);
  }

  lemma ClosingsOne(event: Event, id: OperationId)
    ensures Closings([event], id) == if event.Closing() && event.id == id then 1 else 0
  {
    assert [event][1..] == [];
  }

  lemma CompletionClosings(invocation: Invocation, completion: Completion, id: OperationId)
    requires completion.WellFormed() && id.ToolOp?
    ensures Closings(CompletionEvents(invocation, completion), id) == if id == invocation.id then 1 else 0
  {
    var head := [ToolResult(invocation.original.callId, invocation.original.name, completion.observation)];
    var replaced := if completion.replaced then [StateEvent("content_replacement")] else [];
    var patch := if completion.patch.Some? then PatchEvents(completion.patch.value) else [];
    var closing := [ToolClosed(invocation.id, completion.observation)];
    ClosingsConcat(head + replaced + patch, closing, id);
    ClosingsConcat(head + replaced, patch, id);
    ClosingsConcat(head, replaced, id);
    assert Closings(closing, id) == if id == invocation.id then 1 else 0 by {
      assert closing[1..] == [];
    }
    if completion.patch.Some? {
      PatchClosings(completion.patch.value, id);
    }
  }

  /** Each invocation's operation is closed by exactly one event, and no other tool's is. */
  lemma {:induction false} ClosedOnce(invocations: seq<Invocation>, completions: seq<Completion>, id: OperationId)
    requires |invocations| == |completions| && id.ToolOp?
    requires forall i | 0 <= i < |completions| :: completions[i].WellFormed()
    requires forall i, j | 0 <= i < j < |invocations| :: invocations[i].id != invocations[j].id
    ensures Closings(AllCompletionEvents(invocations, completions), id)
         == if exists x | x in invocations :: x.id == id then 1 else 0
    decreases |invocations|
  {
    if invocations != [] {
      CompletionClosings(invocations[0], completions[0], id);
      ClosingsConcat(CompletionEvents(invocations[0], completions[0]),
                     AllCompletionEvents(invocations[1..], completions[1..]), id);
      ClosedOnce(invocations[1..], completions[1..], id);
      assert invocations == [invocations[0]] + invocations[1..];
    }
  }

  // ------------------------------------------------ each with its own action

  type Slot = (nat, (ToolAction, Observation))

  function ImmediateSlots(immediates: seq<Immediate>): (slots: seq<Slot>)
    ensures |slots| == |immediates|
  {
    seq(|immediates|, i requires 0 <= i < |immediates| =>
      (immediates[i].sourceIndex, (immediates[i].original, immediates[i].observation)))
  }

  function EntrySlots(sorted: seq<(nat, Entry)>): (slots: seq<Slot>)
    ensures |slots| == |sorted|
  {
    seq(|sorted|, i requires 0 <= i < |sorted| =>
      (sorted[i].0, (sorted[i].1.invocation.original, sorted[i].1.completion.observation)))
  }

  function ActionOf(pair: (ToolAction, Observation)): ToolAction {
    pair.0
  }

  function ObservationOf(pair: (ToolAction, Observation)): Observation {
    pair.1
  }

  /** Actions and observations are sorted apart, yet meet again as they belong together. */
  lemma ZipSorted(slots: seq<Slot>)
    ensures Zip(Values(ByIndex(MapValues(slots, ActionOf))), Values(ByIndex(MapValues(slots, ObservationOf))))
         == Values(ByIndex(slots))
  {
    ByIndexMap(slots, ActionOf);
    ByIndexMap(slots, ObservationOf);
  }

  lemma SourcesAreSlots(invocations: seq<Invocation>, immediates: seq<Immediate>, sorted: seq<(nat, Entry)>)
    requires |sorted| == |invocations|
    requires forall i | 0 <= i < |invocations| :: sorted[i].1.invocation == invocations[i]
                                                  && sorted[i].0 == invocations[i].sourceIndex
    ensures Sources(invocations, immediates) == MapValues(ImmediateSlots(immediates) + EntrySlots(sorted), ActionOf)
    ensures IndexedObservations(immediates) + EntryObservations(sorted)
         == MapValues(ImmediateSlots(immediates) + EntrySlots(sorted), ObservationOf)
  {
  }

  lemma PairsAreSorted(effect: EffectId, invocations: seq<Invocation>, immediates: seq<Immediate>, entries: seq<(nat, Entry)>)
    requires AscendingInvocations(invocations) && multiset(Keys(entries)) == multiset(Indexed(invocations))
    ensures ToolResultPairs(ExecuteTools(effect, invocations, immediates), Collect(effect, immediates, entries))
         == Values(ByIndex(ImmediateSlots(immediates) + EntrySlots(ByIndex(entries))))
  {
    InSourceOrder(invocations, entries);
    hide Keys, Indexed, Sources, EntryObservations, ImmediateSlots, EntrySlots, Zip, ByIndex;
    SourcesAreSlots(invocations, immediates, ByIndex(entries));
    ZipSorted(ImmediateSlots(immediates) + EntrySlots(ByIndex(entries)));
  }

  /** The slot of action `k`: an immediate result of its own, or an executed invocation. */
  ghost predicate OwnSlot(batch: PrepareBatch, progress: Progress, sorted: seq<(nat, Entry)>, k: nat,
                          pair: (ToolAction, Observation))
    requires k < |batch.actions|
  {
    && pair.0 == batch.actions[k]
    && ((exists x | x in progress.immediate :: x.sourceIndex == k && pair.1 == x.observation)
        || (exists e | e in sorted :: e.1.invocation in progress.prepared && e.1.invocation.sourceIndex == k
                                      && pair.1 == e.1.completion.observation))
  }

  lemma SlotsDistinct(batch: PrepareBatch, progress: Progress, sorted: seq<(nat, Entry)>, slots: seq<Slot>)
    requires Slotted(batch, |batch.actions|, progress) && |sorted| == |progress.prepared|
    requires forall i | 0 <= i < |sorted| :: sorted[i].1.invocation == progress.prepared[i]
                                             && sorted[i].0 == progress.prepared[i].sourceIndex
    requires slots == ImmediateSlots(progress.immediate) + EntrySlots(sorted)
    ensures DistinctIndices(slots) && |slots| == |batch.actions|
    ensures forall i | 0 <= i < |slots| :: slots[i].0 < |batch.actions|
  {
    var m := |progress.immediate|;
    InvocationSlotsBelow(progress, |batch.actions|);
    SlotIndices(progress, sorted, slots);
    SlotsAscending(progress, sorted, slots);
    assert ImmediateIndices(progress.immediate) !! InvocationIndices(progress.prepared);
    assert |slots| == m + |progress.prepared|;
    hide Slotted, ImmediateSlots, EntrySlots, InvocationIndices, ImmediateIndices, DistinctIndices;
    JoinedDistinct(slots, m, ImmediateIndices(progress.immediate), InvocationIndices(progress.prepared));
  }

  lemma SlotsAscending(progress: Progress, sorted: seq<(nat, Entry)>, slots: seq<Slot>)
    requires forall a, b | 0 <= a < b < |progress.prepared| :: progress.prepared[a].sourceIndex < progress.prepared[b].sourceIndex
    requires forall a, b | 0 <= a < b < |progress.immediate| :: progress.immediate[a].sourceIndex < progress.immediate[b].sourceIndex
    requires |sorted| == |progress.prepared|
    requires forall i | 0 <= i < |sorted| :: sorted[i].0 == progress.prepared[i].sourceIndex
    requires slots == ImmediateSlots(progress.immediate) + EntrySlots(sorted)
    ensures forall i, j | 0 <= i < j < |progress.immediate| :: slots[i].0 < slots[j].0
    ensures forall i, j | |progress.immediate| <= i < j < |slots| :: slots[i].0 < slots[j].0
  {
    var m := |progress.immediate|;
    forall i, j | m <= i < j < |slots| ensures slots[i].0 < slots[j].0 {
      assert slots[i].0 == progress.prepared[i - m].sourceIndex && slots[j].0 == progress.prepared[j - m].sourceIndex;
    }
  }

  lemma JoinedDistinct(slots: seq<Slot>, m: nat, left: set<nat>, right: set<nat>)
    requires m <= |slots| && left !! right
    requires forall i, j | 0 <= i < j < m :: slots[i].0 < slots[j].0
    requires forall i, j | m <= i < j < |slots| :: slots[i].0 < slots[j].0
    requires forall i | 0 <= i < m :: slots[i].0 in left
    requires forall i | m <= i < |slots| :: slots[i].0 in right
    ensures DistinctIndices(slots)
  {
  }

  lemma SlotIndices(progress: Progress, sorted: seq<(nat, Entry)>, slots: seq<Slot>)
    requires |sorted| == |progress.prepared|
    requires forall i | 0 <= i < |sorted| :: sorted[i].0 == progress.prepared[i].sourceIndex
    requires slots == ImmediateSlots(progress.immediate) + EntrySlots(sorted)
    ensures var m := |progress.immediate|;
            && (forall i | 0 <= i < m :: slots[i].0 == progress.immediate[i].sourceIndex
                                         && slots[i].0 in ImmediateIndices(progress.immediate)
                                         && progress.immediate[i] in progress.immediate)
            && (forall i | m <= i < |slots| :: slots[i].0 == progress.prepared[i - m].sourceIndex
                                               && slots[i].0 in InvocationIndices(progress.prepared)
                                               && progress.prepared[i - m] in progress.prepared)
  {
    var m := |progress.immediate|;
    forall i | 0 <= i < m ensures slots[i].0 in ImmediateIndices(progress.immediate) {
      assert progress.immediate[i] in progress.immediate;
    }
    forall i | m <= i < |slots| ensures slots[i].0 in InvocationIndices(progress.prepared) {
      assert progress.prepared[i - m] in progress.prepared;
    }
  }

  lemma SlotIsOwn(batch: PrepareBatch, progress: Progress, sorted: seq<(nat, Entry)>, slot: Slot)
    requires Slotted(batch, |batch.actions|, progress) && |sorted| == |progress.prepared|
    requires forall i | 0 <= i < |sorted| :: sorted[i].1.invocation == progress.prepared[i]
                                             && sorted[i].0 == progress.prepared[i].sourceIndex
    requires slot in ImmediateSlots(progress.immediate) + EntrySlots(sorted) && slot.0 < |batch.actions|
    ensures OwnSlot(batch, progress, sorted, slot.0, slot.1)
  {
    if slot in ImmediateSlots(progress.immediate) {
      var i :| 0 <= i < |progress.immediate| && ImmediateSlots(progress.immediate)[i] == slot;
      var x := progress.immediate[i];
      assert x in progress.immediate && ImmediateFits(batch, x);
    } else {
      var i :| 0 <= i < |sorted| && EntrySlots(sorted)[i] == slot;
      var e := sorted[i];
      assert e in sorted && progress.prepared[i] in progress.prepared && InvocationFits(batch, progress.prepared[i]);
    }
  }

  /** A batch of n actions ends with n pairs: pair k holds action k as it was asked for, with
      the observation of its own slot, in whatever order the invocations finished. */
  lemma PairsAreOwn(batch: PrepareBatch, progress: Progress, effect: EffectId, entries: seq<(nat, Entry)>)
    requires Slotted(batch, |batch.actions|, progress)
    requires multiset(Keys(entries)) == multiset(Indexed(progress.prepared))
    ensures var pairs := ToolResultPairs(ExecuteTools(effect, progress.prepared, progress.immediate),
                                         Collect(effect, progress.immediate, entries));
            |pairs| == |batch.actions|
            && forall k | 0 <= k < |pairs| :: OwnSlot(batch, progress, ByIndex(entries), k, pairs[k])
  {
    var sorted := ByIndex(entries);
    assert AscendingInvocations(progress.prepared);
    InSourceOrder(progress.prepared, entries);
    PairsAreSorted(effect, progress.prepared, progress.immediate, entries);
    var slots := ImmediateSlots(progress.immediate) + EntrySlots(sorted);
    SlotsDistinct(batch, progress, sorted, slots);
    hide ImmediateSlots, EntrySlots, Slotted, Keys, Indexed, Collect, ToolResultPairs, DistinctIndices, ByIndex, OwnSlot;
    PlacedSlots(slots);
    forall k | 0 <= k < |slots| ensures OwnSlot(batch, progress, sorted, k, ByIndex(slots)[k].1) {
      SlotIsOwn(batch, progress, sorted, ByIndex(slots)[k]);
    }
  }

  lemma PlacedSlots(slots: seq<Slot>)
    requires DistinctIndices(slots) && forall i | 0 <= i < |slots| :: slots[i].0 < |slots|
    ensures |ByIndex(slots)| == |slots|
    ensures forall k | 0 <= k < |slots| :: ByIndex(slots)[k].0 == k && ByIndex(slots)[k] in slots
  {
    ByIndexSorts(slots);
    forall k | 0 <= k < |slots| ensures ByIndex(slots)[k].0 == k && ByIndex(slots)[k] in slots {
      SortPlaces(slots, k);
    }
  }

  /** A batch that was settled without any invocation: pair k holds action k with the observation
      of its immediate result, and the kernel is handed the same observations in that order. */
  lemma PreparedPairsAreOwn(batch: PrepareBatch, progress: Progress, effect: Effect, result: EffectResult)
    requires Slotted(batch, |batch.actions|, progress) && progress.prepared == []
    requires result.ToolsPrepared? && result.invocations == [] && result.immediates == progress.immediate
    ensures var pairs, observations := ToolResultPairs(effect, result), ImmediateObservations(result.immediates);
            && |pairs| == |observations| == |batch.actions|
            && forall k | 0 <= k < |pairs| ::
                 && pairs[k].0 == batch.actions[k] && pairs[k].1 == observations[k]
                 && exists x :: x in progress.immediate && x.sourceIndex == k && pairs[k].1 == x.observation
  {
    var slots := ImmediateSlots(progress.immediate);
    assert slots + EntrySlots([]) == slots;
    SlotsDistinct(batch, progress, [], slots);
    PlacedSlots(slots);
    assert IndexedObservations(progress.immediate) == MapValues(slots, ObservationOf);
    ByIndexMap(slots, ObservationOf);
    hide Slotted, ByIndex, DistinctIndices;
    forall k | 0 <= k < |slots|
      ensures exists x :: x in progress.immediate && x.sourceIndex == k && ByIndex(slots)[k].1 == (batch.actions[k], x.observation)
    {
      ImmediateSlotIsOwn(batch, progress, ByIndex(slots)[k]);
    }
  }

  lemma ImmediateSlotIsOwn(batch: PrepareBatch, progress: Progress, slot: Slot)
    requires Slotted(batch, |batch.actions|, progress) && slot in ImmediateSlots(progress.immediate)
    ensures slot.0 < |batch.actions|
    ensures exists x :: x in progress.immediate && x.sourceIndex == slot.0 && slot.1 == (batch.actions[slot.0], x.observation)
  {
    var i :| 0 <= i < |progress.immediate| && ImmediateSlots(progress.immediate)[i] == slot;
    var x := progress.immediate[i];
    assert x in progress.immediate && ImmediateFits(batch, x);
  }
}
