/** The checkpoint of a suspended batch: what is stored of it, and how a batch is rebuilt
    from it once the interaction is answered. */
module ToolCheckpoint {
  import opened Outcomes
  import opened OperationIds
  import opened AgentEffects
  import opened OperationLedger
  import opened ToolPreparation

  // ---------------------------------------------------------------- payloads

  /** An observation is stored without the name of its tool. */
  datatype ObservationPayload =
    ObservationPayload(toolName: Option<string>, success: bool, error: Option<string>, data: ObservationData)

  datatype InvocationPayload = InvocationPayload(
    id: OperationId,
    providerCallId: string,
    sourceIndex: int,
    original: ToolAction,
    effective: ToolAction,
    category: string,
    readOnly: bool,
    concurrencySafe: bool,
    presentation: map<string, string>,
    sourceType: string,
    sourceId: string,
    replaySafe: bool,
    mode: string,
    workflow: string)

  datatype ImmediatePayload =
    ImmediatePayload(sourceIndex: int, original: ToolAction, effective: ToolAction, observation: ObservationPayload)

  function StoreInvocation(x: Invocation): InvocationPayload {
    InvocationPayload(x.id, x.providerCallId, x.sourceIndex, x.original, x.effective, x.category, x.readOnly,
                      x.concurrencySafe, x.presentation, x.sourceType, x.sourceId, x.replaySafe, x.mode, x.workflow)
  }

  function LoadInvocation(p: InvocationPayload): Invocation
    requires p.sourceIndex >= 0
  {
    Invocation(p.id, p.providerCallId, p.sourceIndex, p.original, p.effective, Or(p.category, "other"), p.readOnly,
               p.concurrencySafe, p.presentation, p.sourceType, p.sourceId, p.replaySafe, p.mode, p.workflow)
  }

  function StoreObservation(o: Observation): ObservationPayload {
    ObservationPayload(None, o.success, o.error, o.data)
  }

  function LoadObservation(p: ObservationPayload, effective: ToolAction): Observation {
    Observation(if p.toolName.Some? && p.toolName.value != "" then p.toolName.value else effective.name,
                p.success, p.error, p.data)
  }

  function StoreImmediate(x: Immediate): ImmediatePayload {
    ImmediatePayload(x.sourceIndex, x.original, x.effective, StoreObservation(x.observation))
  }

  function LoadImmediate(p: ImmediatePayload): Immediate
    requires p.sourceIndex >= 0
  {
    Immediate(p.sourceIndex, p.original, p.effective, LoadObservation(p.observation, p.effective))
  }

  /** An invocation survives being stored if and only if it has a permission category. */
  lemma InvocationRoundTrip(x: Invocation)
    ensures LoadInvocation(StoreInvocation(x)) == x <==> x.category != ""
  {
    assert LoadInvocation(StoreInvocation(x)) == x.(category := Or(x.category, "other"));
  }

  /** An immediate result survives if and only if its observation names the effective tool. */
  lemma ImmediateRoundTrip(x: Immediate)
    ensures LoadImmediate(StoreImmediate(x)) == x <==> x.observation.toolName == x.effective.name
  {
    assert LoadImmediate(StoreImmediate(x)).observation == x.observation.(toolName := x.effective.name);
  }

  function StoreInvocations(items: seq<Invocation>): seq<InvocationPayload> {
    seq(|items|, i requires 0 <= i < |items| => StoreInvocation(items[i]))
  }

  function StoreImmediates(items: seq<Immediate>): seq<ImmediatePayload> {
    seq(|items|, i requires 0 <= i < |items| => StoreImmediate(items[i]))
  }

  function LoadInvocations(items: seq<InvocationPayload>): seq<Invocation>
    requires forall i | 0 <= i < |items| :: items[i].sourceIndex >= 0
  {
    seq(|items|, i requires 0 <= i < |items| => LoadInvocation(items[i]))
  }

  function LoadImmediates(items: seq<ImmediatePayload>): seq<Immediate>
    requires forall i | 0 <= i < |items| :: items[i].sourceIndex >= 0
  {
    seq(|items|, i requires 0 <= i < |items| => LoadImmediate(items[i]))
  }

  lemma InvocationsRoundTrip(batch: PrepareBatch, items: seq<Invocation>)
    requires forall x | x in items :: InvocationFits(batch, x)
    ensures LoadInvocations(StoreInvocations(items)) == items
  {
    forall i | 0 <= i < |items| ensures LoadInvocation(StoreInvocation(items[i])) == items[i] {
      assert InvocationFits(batch, items[i]);
      InvocationRoundTrip(items[i]);
    }
  }

  lemma ImmediatesRoundTrip(batch: PrepareBatch, items: seq<Immediate>)
    requires forall x | x in items :: ImmediateFits(batch, x)
    ensures LoadImmediates(StoreImmediates(items)) == items
  {
    forall i | 0 <= i < |items| ensures LoadImmediate(StoreImmediate(items[i])) == items[i] {
      assert ImmediateFits(batch, items[i]);
      ImmediateRoundTrip(items[i]);
    }
  }

  // -------------------------------------------------------------- checkpoint

  datatype Checkpoint = Checkpoint(
    message: MessageId,
    continuation: Continuation,
    sourceIndex: int,
    invocation: OperationId,
    actions: seq<ToolAction>,
    effective: ToolAction,
    mode: string,
    workflow: string,
    category: string,
    preparedPrefix: seq<InvocationPayload>,
    immediatePrefix: seq<ImmediatePayload>,
    interaction: string,
    kind: InteractionKind)

  /** A pending interaction with its request payload. */
  datatype StoredPending = StoredPending(pending: Pending, action: ToolAction, checkpoint: Checkpoint)

  function Suspend(batch: PrepareBatch, preparation: Preparation, interaction: string): StoredPending
    requires preparation.Suspended?
  {
    var Suspended(progress, index, kind, effective, category) := preparation;
    StoredPending(
      Pending(interaction, kind, effective.name),
      effective,
      Checkpoint(batch.message, batch.continuation, index, ToolOp(batch.message, index), batch.actions, effective,
                 batch.mode, batch.workflow, category, StoreInvocations(progress.prepared),
                 StoreImmediates(progress.immediate), interaction, kind))
  }

  function StoredIndices(prepared: seq<InvocationPayload>, immediate: seq<ImmediatePayload>): set<int> {
    (set x | x in prepared :: x.sourceIndex) + (set x | x in immediate :: x.sourceIndex)
  }

  /** What a prefix must look like: an item for each index below `source`, once. */
  predicate PrefixValid(checkpoint: Checkpoint) {
    var prepared, immediate, actions, source :=
      checkpoint.preparedPrefix, checkpoint.immediatePrefix, checkpoint.actions, checkpoint.sourceIndex;
    && 0 <= source < |actions|
    && (forall x | x in prepared ::
          0 <= x.sourceIndex < source && x.original == actions[x.sourceIndex]
          && x.id == ToolOp(checkpoint.message, x.sourceIndex))
    && (forall x | x in immediate :: 0 <= x.sourceIndex < source && x.original == actions[x.sourceIndex])
    && var indices := StoredIndices(prepared, immediate);
       |indices| == |prepared| + |immediate| && forall k | 0 <= k < source :: k in indices
  }

  predicate Valid(stored: StoredPending, currentMode: string, workflow: string) {
    var checkpoint := stored.checkpoint;
    && checkpoint.interaction == stored.pending.interaction
    && checkpoint.kind == stored.pending.kind
    && checkpoint.mode == currentMode
    && (workflow != "" ==> checkpoint.workflow == workflow)
    && PrefixValid(checkpoint)
    && checkpoint.invocation == ToolOp(checkpoint.message, checkpoint.sourceIndex)
    && stored.action.name == checkpoint.effective.name
    && stored.action.callId == checkpoint.effective.callId
    && stored.action.arguments == checkpoint.effective.arguments
    && stored.pending.toolName == checkpoint.effective.name
  }

  /** The batch that goes on where the checkpoint was taken. */
  function Rebuild(stored: StoredPending, resolution: Resolution, currentMode: string, workflow: string): Result<PrepareBatch> {
    var c := stored.checkpoint;
    if !Valid(stored, currentMode, workflow) then Err("interaction_checkpoint_invalid")
    else
      assert forall i | 0 <= i < |c.preparedPrefix| :: c.preparedPrefix[i] in c.preparedPrefix;
      assert forall i | 0 <= i < |c.immediatePrefix| :: c.immediatePrefix[i] in c.immediatePrefix;
      Ok(PrepareBatch(c.message, c.actions, c.mode, c.workflow, false, c.sourceIndex,
                      LoadInvocations(c.preparedPrefix), LoadImmediates(c.immediatePrefix), c.continuation,
                      Some(Resume(stored.pending.kind, c.effective, resolution, c.category))))
  }

  /** The batch with everything that was settled before the suspension, and the answer. */
  function Resumed(batch: PrepareBatch, preparation: Preparation, resolution: Resolution): PrepareBatch
    requires preparation.Suspended?
  {
    batch.(startIndex := preparation.index,
           preparedPrefix := preparation.progress.prepared,
           immediatePrefix := preparation.progress.immediate,
           resume := Some(Resume(preparation.kind, preparation.effective, resolution, preparation.category)))
  }

  lemma ResumedIsSound(batch: PrepareBatch, preparation: Preparation, resolution: Resolution)
    requires Placed(batch, preparation) && preparation.Suspended?
    ensures Sound(Resumed(batch, preparation, resolution))
  {
    var resumed := Resumed(batch, preparation, resolution);
    var progress := preparation.progress;
    assert Slotted(batch, preparation.index, progress);
    assert forall x: Invocation :: InvocationFits(batch, x) ==> InvocationFits(resumed, x);
    assert forall x: Immediate :: ImmediateFits(batch, x) ==> ImmediateFits(resumed, x);
  }

  function Range(n: nat): (indices: set<int>)
    ensures forall k :: k in indices <==> 0 <= k < n
    ensures |indices| == n
  {
    if n == 0 then {} else Range(n - 1) + {n - 1}
  }

  lemma InvocationsStored(items: seq<Invocation>, k: int)
    ensures k in (set x | x in StoreInvocations(items) :: x.sourceIndex) <==> k >= 0 && k in InvocationIndices(items)
  {
    var stored := StoreInvocations(items);
    if k >= 0 && k in InvocationIndices(items) {
      var x :| x in items && x.sourceIndex == k;
      var i :| 0 <= i < |items| && items[i] == x;
      assert stored[i] in stored;
    }
    if k in (set x | x in stored :: x.sourceIndex) {
      var i :| 0 <= i < |stored| && stored[i].sourceIndex == k;
      assert items[i] in items;
    }
  }

  lemma ImmediatesStored(items: seq<Immediate>, k: int)
    ensures k in (set x | x in StoreImmediates(items) :: x.sourceIndex) <==> k >= 0 && k in ImmediateIndices(items)
  {
    var stored := StoreImmediates(items);
    if k >= 0 && k in ImmediateIndices(items) {
      var x :| x in items && x.sourceIndex == k;
      var i :| 0 <= i < |items| && items[i] == x;
      assert stored[i] in stored;
    }
    if k in (set x | x in stored :: x.sourceIndex) {
      var i :| 0 <= i < |stored| && stored[i].sourceIndex == k;
      assert items[i] in items;
    }
  }

  lemma StoredIndicesAre(batch: PrepareBatch, n: nat, progress: Progress)
    requires Slotted(batch, n, progress)
    ensures StoredIndices(StoreInvocations(progress.prepared), StoreImmediates(progress.immediate)) == Range(n)
  {
    forall k: int
      ensures k in StoredIndices(StoreInvocations(progress.prepared), StoreImmediates(progress.immediate))
              <==> 0 <= k < n
    {
      InvocationsStored(progress.prepared, k);
      ImmediatesStored(progress.immediate, k);
      if k >= 0 {
        assert k in InvocationIndices(progress.prepared) + ImmediateIndices(progress.immediate) <==> k in Below(n);
      }
    }
  }

  lemma StoredItemsFit(batch: PrepareBatch, n: nat, progress: Progress)
    requires Slotted(batch, n, progress)
    ensures forall x | x in StoreInvocations(progress.prepared) ::
              0 <= x.sourceIndex < n && x.sourceIndex < |batch.actions|
              && x.original == batch.actions[x.sourceIndex] && x.id == ToolOp(batch.message, x.sourceIndex)
    ensures forall x | x in StoreImmediates(progress.immediate) ::
              0 <= x.sourceIndex < n && x.sourceIndex < |batch.actions| && x.original == batch.actions[x.sourceIndex]
  {
    InvocationSlotsBelow(progress, n);
    forall i | 0 <= i < |progress.prepared| ensures InvocationFits(batch, progress.prepared[i]) {
      assert progress.prepared[i] in progress.prepared;
    }
    forall i | 0 <= i < |progress.immediate| ensures ImmediateFits(batch, progress.immediate[i]) {
      assert progress.immediate[i] in progress.immediate;
    }
  }

  lemma PrefixIsValid(batch: PrepareBatch, n: nat, progress: Progress, checkpoint: Checkpoint)
    requires Slotted(batch, n, progress) && n < |batch.actions|
    requires checkpoint.preparedPrefix == StoreInvocations(progress.prepared)
    requires checkpoint.immediatePrefix == StoreImmediates(progress.immediate)
    requires checkpoint.actions == batch.actions && checkpoint.message == batch.message && checkpoint.sourceIndex == n
    ensures PrefixValid(checkpoint)
  {
    StoredIndicesAre(batch, n, progress);
    StoredItemsFit(batch, n, progress);
  }

  lemma SuspendIsValid(batch: PrepareBatch, preparation: Preparation, interaction: string, currentMode: string, workflow: string)
    requires Placed(batch, preparation) && preparation.Suspended?
    ensures Valid(Suspend(batch, preparation, interaction), currentMode, workflow)
            <==> currentMode == batch.mode && (workflow != "" ==> workflow == batch.workflow)
  {
    hide PrefixValid, StoreInvocations, StoreImmediates, Slotted;
    PrefixIsValid(batch, preparation.index, preparation.progress, Suspend(batch, preparation, interaction).checkpoint);
  }

  /** The checkpoint of a suspended batch gives back the batch as it stood, with the answer,
      if and only if mode and workflow are still those of the batch. */
  lemma RebuildRestores(batch: PrepareBatch, preparation: Preparation, interaction: string, resolution: Resolution,
                        currentMode: string, workflow: string)
    requires Placed(batch, preparation) && preparation.Suspended?
    ensures Rebuild(Suspend(batch, preparation, interaction), resolution, currentMode, workflow)
         == if currentMode == batch.mode && (workflow != "" ==> workflow == batch.workflow)
            then Ok(Resumed(batch, preparation, resolution))
            else Err("interaction_checkpoint_invalid")
  {
    SuspendIsValid(batch, preparation, interaction, currentMode, workflow);
    InvocationsRoundTrip(batch, preparation.progress.prepared);
    ImmediatesRoundTrip(batch, preparation.progress.immediate);
  }

  // ------------------------------------------------- whatever is in the store

  /** Every index below `source` has exactly one item, in one list or the other. */
  ghost predicate OneEach(prepared: seq<int>, immediate: seq<int>, source: int) {
    && |prepared| + |immediate| == source
    && (forall i | 0 <= i < |prepared| :: 0 <= prepared[i] < source)
    && (forall i | 0 <= i < |immediate| :: 0 <= immediate[i] < source)
    && (forall i, j | 0 <= i < j < |prepared| :: prepared[i] != prepared[j])
    && (forall i, j | 0 <= i < j < |immediate| :: immediate[i] != immediate[j])
    && (forall i, j | 0 <= i < |prepared| && 0 <= j < |immediate| :: prepared[i] != immediate[j])
  }

  function PreparedAt(items: seq<InvocationPayload>): seq<int> {
    seq(|items|, i requires 0 <= i < |items| => items[i].sourceIndex)
  }

  function ImmediateAt(items: seq<ImmediatePayload>): seq<int> {
    seq(|items|, i requires 0 <= i < |items| => items[i].sourceIndex)
  }

  function Elements(items: seq<int>): set<int> {
    set x | x in items
  }

  lemma {:induction false} CountElements(items: seq<int>)
    ensures |Elements(items)| <= |items|
    ensures |Elements(items)| == |items| ==> forall i, j | 0 <= i < j < |items| :: items[i] != items[j]
  {
    if items != [] {
      CountElements(items[1..]);
      assert items == [items[0]] + items[1..];
      assert Elements(items) == {items[0]} + Elements(items[1..]);
      if |Elements(items)| == |items| {
        assert items[0] !in Elements(items[1..]);
        forall i, j | 0 <= i < j < |items| ensures items[i] != items[j] {
          if i > 0 {
            assert items[1..][i - 1] != items[1..][j - 1];
          } else {
            assert items[j] in items[1..];
          }
        }
      }
    }
  }

  lemma IndicesAre(prepared: seq<InvocationPayload>, immediate: seq<ImmediatePayload>)
    ensures StoredIndices(prepared, immediate) == Elements(PreparedAt(prepared) + ImmediateAt(immediate))
  {
    forall k ensures k in StoredIndices(prepared, immediate) <==> k in Elements(PreparedAt(prepared) + ImmediateAt(immediate)) {
      var all := PreparedAt(prepared) + ImmediateAt(immediate);
      if k in all {
        var i :| 0 <= i < |all| && all[i] == k;
        if i < |prepared| {
          assert prepared[i] in prepared;
        } else {
          assert immediate[i - |prepared|] in immediate;
        }
      }
      if x :| x in prepared && x.sourceIndex == k {
        var i :| 0 <= i < |prepared| && prepared[i] == x;
        assert all[i] == k;
      }
      if x :| x in immediate && x.sourceIndex == k {
        var i :| 0 <= i < |immediate| && immediate[i] == x;
        assert all[|prepared| + i] == k;
      }
    }
  }

  lemma InRange(indices: set<int>, source: nat)
    requires forall k :: k in indices <==> 0 <= k < source
    ensures |indices| == source
  {
    assert indices == Range(source);
  }

  lemma ValidIsOneEach(checkpoint: Checkpoint)
    requires PrefixValid(checkpoint)
    ensures OneEach(PreparedAt(checkpoint.preparedPrefix), ImmediateAt(checkpoint.immediatePrefix), checkpoint.sourceIndex)
  {
    var prepared, immediate := PreparedAt(checkpoint.preparedPrefix), ImmediateAt(checkpoint.immediatePrefix);
    var all := prepared + immediate;
    IndicesAre(checkpoint.preparedPrefix, checkpoint.immediatePrefix);
    CountElements(all);
    Bounded(checkpoint);
    InRange(Elements(all), checkpoint.sourceIndex);
    assert forall i, j | 0 <= i < j < |all| :: all[i] != all[j];
    assert forall i | 0 <= i < |prepared| :: all[i] == prepared[i];
    assert forall i | 0 <= i < |immediate| :: all[|prepared| + i] == immediate[i];
  }

  lemma Bounded(checkpoint: Checkpoint)
    requires PrefixValid(checkpoint)
    ensures forall i | 0 <= i < |checkpoint.preparedPrefix| :: 0 <= PreparedAt(checkpoint.preparedPrefix)[i] < checkpoint.sourceIndex
    ensures forall i | 0 <= i < |checkpoint.immediatePrefix| :: 0 <= ImmediateAt(checkpoint.immediatePrefix)[i] < checkpoint.sourceIndex
    ensures var all := PreparedAt(checkpoint.preparedPrefix) + ImmediateAt(checkpoint.immediatePrefix);
            forall k :: k in Elements(all) <==> 0 <= k < checkpoint.sourceIndex
  {
    IndicesAre(checkpoint.preparedPrefix, checkpoint.immediatePrefix);
    assert forall i | 0 <= i < |checkpoint.preparedPrefix| :: checkpoint.preparedPrefix[i] in checkpoint.preparedPrefix;
    assert forall i | 0 <= i < |checkpoint.immediatePrefix| :: checkpoint.immediatePrefix[i] in checkpoint.immediatePrefix;
  }

  /** The answer is for the interaction that the checkpoint was taken for, in the mode and
      workflow of the moment, and for the action that the user was shown. */
  predicate SameInteraction(stored: StoredPending, mode: string, workflow: string) {
    var c := stored.checkpoint;
    && c.interaction == stored.pending.interaction && c.kind == stored.pending.kind
    && c.mode == mode && (workflow == "" || c.workflow == workflow)
    && stored.pending.toolName == stored.action.name == c.effective.name
    && stored.action.callId == c.effective.callId && stored.action.arguments == c.effective.arguments
  }

  /** Whatever the store holds: a batch is rebuilt only for the interaction that is answered, and
      with exactly one item for each action before the one that waited, under its own action and
      operation. */
  lemma RebuiltIsWhole(stored: StoredPending, resolution: Resolution, mode: string, workflow: string)
    requires Rebuild(stored, resolution, mode, workflow).Ok?
    ensures SameInteraction(stored, mode, workflow)
    ensures var c, batch := stored.checkpoint, Rebuild(stored, resolution, mode, workflow).value;
            && batch.startIndex == c.sourceIndex < |batch.actions| && batch.actions == c.actions && batch.message == c.message
            && c.invocation == ToolOp(c.message, batch.startIndex)
            && batch.mode == c.mode && batch.workflow == c.workflow && batch.continuation == c.continuation && !batch.truncated
            && batch.resume == Some(Resume(c.kind, c.effective, resolution, c.category))
            && OneEach(PreparedAt(c.preparedPrefix), ImmediateAt(c.immediatePrefix), batch.startIndex)
            && |batch.preparedPrefix| == |c.preparedPrefix| && |batch.immediatePrefix| == |c.immediatePrefix|
            && (forall i | 0 <= i < |batch.preparedPrefix| ::
                  var x := batch.preparedPrefix[i];
                  && x.sourceIndex == c.preparedPrefix[i].sourceIndex && x.sourceIndex < batch.startIndex
                  && x.original == batch.actions[x.sourceIndex] && x.id == ToolOp(batch.message, x.sourceIndex))
            && (forall i | 0 <= i < |batch.immediatePrefix| ::
                  var x := batch.immediatePrefix[i];
                  && x.sourceIndex == c.immediatePrefix[i].sourceIndex && x.sourceIndex < batch.startIndex
                  && x.original == batch.actions[x.sourceIndex]
                  && (x.observation.toolName == "" ==> x.effective.name == ""))
  {
    var c := stored.checkpoint;
    ValidIsOneEach(c);
    assert forall i | 0 <= i < |c.preparedPrefix| :: c.preparedPrefix[i] in c.preparedPrefix;
    assert forall i | 0 <= i < |c.immediatePrefix| :: c.immediatePrefix[i] in c.immediatePrefix;
    hide OneEach, StoredIndices;
  }
}
