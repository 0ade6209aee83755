/** The execution of a prepared batch: invocations run in groups, some of them in parallel
    and finishing in any order, and the results are put back in source order. */
module ToolExecution {
  import opened Outcomes
  import opened IndexSort
  import opened Sequences
  import opened OperationIds
  import opened AgentEffects
  import opened OperationLedger
  import opened AgentKernel
  import opened AgentServices
  import opened AgentLoop

  // ------------------------------------------------------------------ groups

  datatype Group = Group(parallel: bool, actions: seq<Invocation>)

  predicate RunsParallel(x: Invocation) {
    x.readOnly && x.concurrencySafe
  }

  function Flatten(groups: seq<Group>): seq<Invocation> {
    if groups == [] then [] else groups[0].actions + Flatten(groups[1..])
  }

  /** Maximal groups of one kind, in order. */
  ghost predicate Partitions(groups: seq<Group>, actions: seq<Invocation>) {
    && Flatten(groups) == actions
    && AllUniform(groups)
    && Alternating(groups)
  }

  ghost predicate Uniform(group: Group) {
    group.actions != [] && forall x | x in group.actions :: RunsParallel(x) == group.parallel
  }

  ghost predicate AllUniform(groups: seq<Group>) {
    forall g | g in groups :: Uniform(g)
  }

  ghost predicate Alternating(groups: seq<Group>) {
    forall i | 0 <= i < |groups| - 1 :: groups[i].parallel != groups[i + 1].parallel
  }

  lemma {:induction false} FlattenConcat(a: seq<Group>, b: seq<Group>)
    ensures Flatten(a + b) == Flatten(a) + Flatten(b)
  {
    if a == [] {
      assert a + b == b;
    } else {
      assert (a + b)[1..] == a[1..] + b;
      FlattenConcat(a[1..], b);
    }
  }

  lemma FlattenOne(group: Group)
    ensures Flatten([group]) == group.actions
  {
    assert [group][1..] == [];
  }

  lemma NoGroups()
    ensures Partitions([], [])
  {
  }

  /** The loop that groups the invocations. */
  method PartitionToolActions(actions: seq<Invocation>) returns (groups: seq<Group>)
    ensures Partitions(groups, actions)
  {
    groups := [];
    hide Partitions;
    NoGroups();
    assert actions[..0] == [];
    for i := 0 to |actions|
      invariant Partitions(groups, actions[..i])
      invariant i > 0 ==> groups != []
    {
      var action := actions[i];
      var parallel := action.readOnly && action.concurrencySafe;
      assert actions[..i + 1] == actions[..i] + [action];
      if groups == [] || groups[|groups| - 1].parallel != parallel {
        AppendNew(groups, action, actions[..i]);
        groups := groups + [Group(parallel, [action])];
      } else {
        var front, last := groups[..|groups| - 1], groups[|groups| - 1];
        assert front + [last] == groups;
        Append(front, last, action, actions[..i]);
        groups := front + [last.(actions := last.actions + [action])];
      }
    }
    assert actions[..|actions|] == actions;
  }

  function Grown(group: Group, action: Invocation): Group {
    group.(actions := group.actions + [action])
  }

  lemma GrownIsUniform(group: Group, action: Invocation)
    requires Uniform(group) && group.parallel == RunsParallel(action)
    ensures Uniform(Grown(group, action))
  {
  }

  lemma GrownFlattens(front: seq<Group>, last: Group, action: Invocation)
    ensures Flatten(front + [Grown(last, action)]) == Flatten(front + [last]) + [action]
  {
    FlattenConcat(front, [last]);
    FlattenConcat(front, [Grown(last, action)]);
    FlattenOne(last);
    FlattenOne(Grown(last, action));
    Regroup(Flatten(front), last.actions, [action]);
  }

  lemma GrownAlternates(front: seq<Group>, last: Group, action: Invocation)
    requires Alternating(front + [last])
    ensures Alternating(front + [Grown(last, action)])
  {
    var before, after := front + [last], front + [Grown(last, action)];
    forall i | 0 <= i < |after| - 1 ensures after[i].parallel != after[i + 1].parallel {
      assert before[i].parallel != before[i + 1].parallel;
    }
  }

  lemma Append(front: seq<Group>, last: Group, action: Invocation, actions: seq<Invocation>)
    requires last.parallel == RunsParallel(action) && Partitions(front + [last], actions)
    ensures Partitions(front + [Grown(last, action)], actions + [action])
  {
    assert last in front + [last];
    GrownIsUniform(last, action);
    GrownFlattens(front, last, action);
    GrownAlternates(front, last, action);
    assert forall g | g in front :: g in front + [last];
    hide Uniform, Flatten, Alternating, Grown, RunsParallel;
  }

  lemma AppendNew(groups: seq<Group>, action: Invocation, actions: seq<Invocation>)
    requires Partitions(groups, actions)
    requires groups == [] || groups[|groups| - 1].parallel != RunsParallel(action)
    ensures Partitions(groups + [Group(RunsParallel(action), [action])], actions + [action])
  {
    var group := Group(RunsParallel(action), [action]);
    FlattenOne(group);
    FlattenConcat(groups, [group]);
    assert Uniform(group);
    hide Uniform, Flatten, RunsParallel;
  }

  lemma FirstGroup(a: seq<Group>, b: seq<Group>, actions: seq<Invocation>)
    requires Partitions(a, actions) && Partitions(b, actions) && a != [] && b != []
    requires |a[0].actions| <= |b[0].actions|
    ensures a[0] == b[0]
  {
    var n := |a[0].actions|;
    assert Uniform(a[0]) && Uniform(b[0]);
    assert a[0].actions == actions[..n] && b[0].actions[..n] == actions[..n];
    assert a[0].actions[0] in a[0].actions && b[0].actions[0] in b[0].actions;
    if n < |b[0].actions| {
      var next := b[0].actions[n];
      assert next in b[0].actions && next == actions[n];
      NextGroup(a, actions, n);
    }
  }

  /** Right after the first group comes an action of the other kind. */
  lemma NextGroup(a: seq<Group>, actions: seq<Invocation>, n: nat)
    requires Partitions(a, actions) && a != [] && n == |a[0].actions| && n < |actions|
    ensures RunsParallel(actions[n]) != a[0].parallel
  {
    assert Flatten(a[1..]) == actions[n..];
    assert a[1..] != [];
    assert Uniform(a[1]) && a[1].actions[0] in a[1].actions;
    assert a[1..][0] == a[1];
    assert actions[n] == actions[n..][0] == a[1].actions[0];
  }

  lemma EmptyPartition(a: seq<Group>, actions: seq<Invocation>)
    requires Partitions(a, actions)
    ensures a == [] <==> actions == []
  {
    if a != [] {
      assert a[0] in a && Uniform(a[0]);
    }
  }

  /** There is only one such partition. */
  lemma {:induction false} PartitionUnique(a: seq<Group>, b: seq<Group>, actions: seq<Invocation>)
    requires Partitions(a, actions) && Partitions(b, actions)
    ensures a == b
    decreases |a|
  {
    if a == [] || b == [] {
      EmptyPartition(a, actions);
      EmptyPartition(b, actions);
    } else {
      if |a[0].actions| <= |b[0].actions| {
        FirstGroup(a, b, actions);
      } else {
        FirstGroup(b, a, actions);
      }
      RestOfPartition(a, actions);
      RestOfPartition(b, actions);
      PartitionUnique(a[1..], b[1..], actions[|a[0].actions|..]);
      assert a == [a[0]] + a[1..] && b == [b[0]] + b[1..];
    }
  }

  lemma RestOfPartition(a: seq<Group>, actions: seq<Invocation>)
    requires Partitions(a, actions) && a != []
    ensures |a[0].actions| <= |actions| && Partitions(a[1..], actions[|a[0].actions|..])
  {
    var rest := a[1..];
    forall i | 0 <= i < |rest| - 1 ensures rest[i].parallel != rest[i + 1].parallel {
      assert a[i + 1].parallel != a[i + 1 + 1].parallel;
    }
    assert forall g | g in a[1..] :: g in a;
  }

  // ----------------------------------------------------------------- running

  /** What the executor of a parallel group reports, in the order in which it happens; each
      report comes with whether the turn had been stopped by then. */
  datatype Update =
    | StartUpdate(invocation: Invocation, stopped: bool)
    | ResultUpdate(invocation: Invocation, observation: Observation, stopped: bool)

  /** What one invocation leaves behind. */
  datatype Entry = Entry(invocation: Invocation, completion: Completion, token: Option<int>)

  /** Dispatch, stop flags and completion are arbitrary; invocations are told apart by their
      source index. `updates` is what the executor reports for a group. */
  datatype Tools = Tools(
    stopBefore: Invocation -> bool,
    stopStarted: Invocation -> bool,
    dispatch: Invocation -> Observation,
    updates: Group -> seq<Update>,
    complete: (Invocation, Observation) -> (Completion, Option<int>))

  function Interruption(name: string): Observation {
    Observation(name, false, Some("tool execution interrupted"), Fields("interrupted", false, "", map[]))
  }

  function Discard(name: string): Observation {
    Observation(name, false, Some("tool execution discarded"), Fields("discarded", false, "", map[]))
  }

  predicate IsInterrupted(o: Observation) {
    o.ErrorKind() == "interrupted"
  }

  predicate IsDiscarded(o: Observation) {
    o.ErrorKind() == "discarded"
  }

  function EntryOf(tools: Tools, invocation: Invocation, observation: Observation): (entry: (nat, Entry))
    ensures entry.0 == invocation.sourceIndex && entry.1.invocation == invocation
  {
    var (completion, token) := tools.complete(invocation, observation);
    (invocation.sourceIndex, Entry(invocation, completion, token))
  }

  /** An invocation that is not run at all. */
  function Dropped(tools: Tools, invocation: Invocation): (nat, Entry) {
    EntryOf(tools, invocation, Discard(invocation.effective.name))
  }

  function DropAll(tools: Tools, actions: seq<Invocation>): seq<(nat, Entry)> {
    if actions == [] then [] else [Dropped(tools, actions[0])] + DropAll(tools, actions[1..])
  }

  /** The observation of an invocation that runs alone. */
  function RunOne(tools: Tools, x: Invocation): Observation {
    if tools.stopBefore(x) then Discard(x.effective.name)
    else if tools.stopStarted(x) then Interruption(x.effective.name)
    else tools.dispatch(x)
  }

  function RunSerial(tools: Tools, actions: seq<Invocation>): seq<(nat, Entry)> {
    if actions == [] then []
    else [EntryOf(tools, actions[0], RunOne(tools, actions[0]))] + RunSerial(tools, actions[1..])
  }

  /** A stopped or interrupted invocation ends the batch, though its group goes on. */
  predicate SerialDiscards(tools: Tools, actions: seq<Invocation>) {
    exists x | x in actions :: tools.stopBefore(x) || IsInterrupted(RunOne(tools, x))
  }

  /** A result that comes after the stop counts as interrupted, unless it was discarded. */
  function Settle(update: Update, interrupted: bool): Observation
    requires update.ResultUpdate?
  {
    if (interrupted || update.stopped) && !IsDiscarded(update.observation) then Interruption(update.invocation.effective.name)
    else update.observation
  }

  function RunParallel(tools: Tools, updates: seq<Update>, interrupted: bool): seq<(nat, Entry)> {
    if updates == [] then []
    else if updates[0].StartUpdate? then RunParallel(tools, updates[1..], interrupted || updates[0].stopped)
    else
      [EntryOf(tools, updates[0].invocation, Settle(updates[0], interrupted))]
      + RunParallel(tools, updates[1..], interrupted || updates[0].stopped)
  }

  predicate ParallelDiscards(updates: seq<Update>) {
    exists u | u in updates :: u.ResultUpdate? && IsDiscarded(u.observation)
  }

  predicate TogetherGroup(group: Group) {
    group.parallel && |group.actions| > 1
  }

  function RunGroup(tools: Tools, group: Group): seq<(nat, Entry)> {
    if TogetherGroup(group) then RunParallel(tools, tools.updates(group), false) else RunSerial(tools, group.actions)
  }

  predicate GroupDiscards(tools: Tools, group: Group) {
    if TogetherGroup(group) then ParallelDiscards(tools.updates(group)) else SerialDiscards(tools, group.actions)
  }

  /** The groups in turn; once a group has discarded something, the others are dropped. */
  function RunGroups(tools: Tools, groups: seq<Group>, discard: bool): seq<(nat, Entry)> {
    if groups == [] then []
    else if discard then DropAll(tools, groups[0].actions) + RunGroups(tools, groups[1..], true)
    else RunGroup(tools, groups[0]) + RunGroups(tools, groups[1..], GroupDiscards(tools, groups[0]))
  }

  // ----------------------------------------------------------------- results

  function EntryEvents(entries: seq<(nat, Entry)>): seq<Event> {
    if entries == [] then []
    else CompletionEvents(entries[0].1.invocation, entries[0].1.completion) + EntryEvents(entries[1..])
  }

  function EntryTokens(entries: seq<(nat, Entry)>): seq<int> {
    if entries == [] then []
    else (if entries[0].1.token.Some? then [entries[0].1.token.value] else []) + EntryTokens(entries[1..])
  }

  function EntryObservation(entry: Entry): Observation {
    entry.completion.observation
  }

  function EntryObservations(entries: seq<(nat, Entry)>): seq<(nat, Observation)> {
    MapValues(entries, EntryObservation)
  }

  /** Entries that came in any order, put back in source order. */
  function Collect(effect: EffectId, immediates: seq<Immediate>, entries: seq<(nat, Entry)>): EffectResult {
    var sorted := ByIndex(entries);
    ToolsCompleted(effect,
                   Values(ByIndex(IndexedObservations(immediates) + EntryObservations(sorted))),
                   EntryEvents(sorted), EntryTokens(sorted))
  }

  method DropGroup(tools: Tools, actions: seq<Invocation>) returns (entries: seq<(nat, Entry)>)
    ensures entries == DropAll(tools, actions)
  {
    entries := [];
    for i := 0 to |actions|
      invariant entries + DropAll(tools, actions[i..]) == DropAll(tools, actions)
    {
      assert actions[i..][0] == actions[i] && actions[i..][1..] == actions[i + 1..];
      Regroup(entries, [Dropped(tools, actions[i])], DropAll(tools, actions[i + 1..]));
      entries := entries + [Dropped(tools, actions[i])];
    }
    assert actions[|actions|..] == [];
  }

  method ExecuteSerial(tools: Tools, actions: seq<Invocation>) returns (entries: seq<(nat, Entry)>, discard: bool)
    ensures entries == RunSerial(tools, actions) && discard == SerialDiscards(tools, actions)
  {
    entries, discard := [], false;
    for i := 0 to |actions|
      invariant entries + RunSerial(tools, actions[i..]) == RunSerial(tools, actions)
      invariant discard == SerialDiscards(tools, actions[..i])
    {
      var x := actions[i];
      assert actions[i..][0] == x && actions[i..][1..] == actions[i + 1..];
      DiscardsOneMore(tools, actions[..i], x);
      assert actions[..i + 1] == actions[..i] + [x];
      var observation: Observation;
      if tools.stopBefore(x) {
        observation := Discard(x.effective.name);
        discard := true;
      } else {
        observation := if tools.stopStarted(x) then Interruption(x.effective.name) else tools.dispatch(x);
      }
      Regroup(entries, [EntryOf(tools, x, observation)], RunSerial(tools, actions[i + 1..]));
      entries := entries + [EntryOf(tools, x, observation)];
      if IsInterrupted(observation) {
        discard := true;
      }
    }
    assert actions[|actions|..] == [] && actions[..|actions|] == actions;
  }

  lemma DiscardsOneMore(tools: Tools, before: seq<Invocation>, x: Invocation)
    ensures SerialDiscards(tools, before + [x])
        <==> SerialDiscards(tools, before) || tools.stopBefore(x) || IsInterrupted(RunOne(tools, x))
  {
    assert forall y :: y in before + [x] <==> y in before || y == x;
  }

  method ExecuteParallel(tools: Tools, updates: seq<Update>) returns (entries: seq<(nat, Entry)>, discard: bool)
    ensures entries == RunParallel(tools, updates, false) && discard == ParallelDiscards(updates)
  {
    entries, discard := [], false;
    var interrupted := false;
    for i := 0 to |updates|
      invariant entries + RunParallel(tools, updates[i..], interrupted) == RunParallel(tools, updates, false)
      invariant discard == ParallelDiscards(updates[..i])
    {
      var update := updates[i];
      assert updates[i..][0] == update && updates[i..][1..] == updates[i + 1..];
      ParallelOneMore(updates[..i], update);
      assert updates[..i + 1] == updates[..i] + [update];
      if update.stopped {
        interrupted := true;
      }
      if update.ResultUpdate? {
        var observation := update.observation;
        if interrupted && !IsDiscarded(observation) {
          observation := Interruption(update.invocation.effective.name);
        }
        var entry := EntryOf(tools, update.invocation, observation);
        Regroup(entries, [entry], RunParallel(tools, updates[i + 1..], interrupted));
        entries := entries + [entry];
        if IsDiscarded(observation) {
          discard := true;
        }
      }
    }
    assert updates[|updates|..] == [] && updates[..|updates|] == updates;
  }

  lemma ParallelOneMore(before: seq<Update>, u: Update)
    ensures ParallelDiscards(before + [u])
        <==> ParallelDiscards(before) || (u.ResultUpdate? && IsDiscarded(u.observation))
  {
    assert forall y :: y in before + [u] <==> y in before || y == u;
  }

  lemma NextGroups(tools: Tools, groups: seq<Group>, i: nat, discard: bool)
    requires i < |groups|
    ensures RunGroups(tools, groups[i..], discard)
         == if discard then DropAll(tools, groups[i].actions) + RunGroups(tools, groups[i + 1..], true)
            else RunGroup(tools, groups[i]) + RunGroups(tools, groups[i + 1..], GroupDiscards(tools, groups[i]))
  {
    assert groups[i..][0] == groups[i] && groups[i..][1..] == groups[i + 1..];
  }

  lemma NextEntry(entries: seq<(nat, Entry)>, i: nat)
    requires i < |entries|
    ensures EntryEvents(entries[i..])
         == CompletionEvents(entries[i].1.invocation, entries[i].1.completion) + EntryEvents(entries[i + 1..])
    ensures EntryTokens(entries[i..])
         == (if entries[i].1.token.Some? then [entries[i].1.token.value] else []) + EntryTokens(entries[i + 1..])
    ensures EntryObservations(entries[..i + 1])
         == EntryObservations(entries[..i]) + [(entries[i].0, entries[i].1.completion.observation)]
  {
    assert entries[i..][0] == entries[i] && entries[i..][1..] == entries[i + 1..];
    assert entries[..i + 1] == entries[..i] + [entries[i]];
  }

  /** Puts what was collected in source order, entry by entry. */
  method Assemble(effect: EffectId, immediates: seq<Immediate>, completed: seq<(nat, Entry)>) returns (result: EffectResult)
    ensures result == Collect(effect, immediates, completed)
  {
    var sorted := ByIndex(completed);
    var observations := IndexedObservations(immediates);
    var events: seq<Event>, tokens: seq<int> := [], [];
    assert EntryObservations(sorted[..0]) == [];
    assert sorted[0..] == sorted;
    hide EntryEvents, EntryTokens, EntryObservations, CompletionEvents, IndexedObservations, ByIndex;
    for i := 0 to |sorted|
      invariant observations == IndexedObservations(immediates) + EntryObservations(sorted[..i])
      invariant events + EntryEvents(sorted[i..]) == EntryEvents(sorted)
      invariant tokens + EntryTokens(sorted[i..]) == EntryTokens(sorted)
    {
      NextEntry(sorted, i);
      var entry := sorted[i].1;
      var observation := (sorted[i].0, entry.completion.observation);
      Regroup(IndexedObservations(immediates), EntryObservations(sorted[..i]), [observation]);
      Regroup(events, CompletionEvents(entry.invocation, entry.completion), EntryEvents(sorted[i + 1..]));
      observations := observations + [observation];
      events := events + CompletionEvents(entry.invocation, entry.completion);
      if entry.token.Some? {
        Regroup(tokens, [entry.token.value], EntryTokens(sorted[i + 1..]));
        tokens := tokens + [entry.token.value];
      } else {
        assert [] + EntryTokens(sorted[i + 1..]) == EntryTokens(sorted[i + 1..]);
      }
    }
    NoEntries(sorted);
    assert events + [] == events && tokens + [] == tokens;
    result := ToolsCompleted(effect, Values(ByIndex(observations)), events, tokens);
  }

  lemma NoEntries(entries: seq<(nat, Entry)>)
    ensures entries[..|entries|] == entries && EntryEvents(entries[|entries|..]) == [] && EntryTokens(entries[|entries|..]) == []
  {
  }

  /** Runs the groups in turn and returns one result for all. */
  method ExecutePrepared(tools: Tools, effect: EffectId, invocations: seq<Invocation>, immediates: seq<Immediate>)
    returns (result: EffectResult, ghost groups: seq<Group>)
    ensures Partitions(groups, invocations)
    ensures result == Collect(effect, immediates, RunGroups(tools, groups, false))
  {
    var batches := PartitionToolActions(invocations);
    groups := batches;
    var completed: seq<(nat, Entry)> := [];
    var discardRemaining := false;
    ghost var all := RunGroups(tools, batches, false);
    assert batches[0..] == batches;
    hide Partitions, RunParallel, RunSerial, DropAll, ParallelDiscards, SerialDiscards, Collect;
    for i := 0 to |batches|
      invariant completed + RunGroups(tools, batches[i..], discardRemaining) == all
    {
      var batch := batches[i];
      NextGroups(tools, batches, i, discardRemaining);
      var entries: seq<(nat, Entry)>;
      if discardRemaining {
        entries := DropGroup(tools, batch.actions);
      } else if batch.parallel && |batch.actions| > 1 {
        entries, discardRemaining := ExecuteParallel(tools, tools.updates(batch));
      } else {
        entries, discardRemaining := ExecuteSerial(tools, batch.actions);
      }
      Regroup(completed, entries, RunGroups(tools, batches[i + 1..], discardRemaining));
      completed := completed + entries;
    }
    assert batches[|batches|..] == [] && completed + [] == completed;
    result := Assemble(effect, immediates, completed);
  }
}
