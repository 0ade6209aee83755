/** What every prepared invocation has gone through, also when its batch was suspended and
    resumed on the way. */
module ToolClearance {
  import opened Outcomes
  import opened AgentEffects
  import opened ToolPreparation
  import opened ToolCheckpoint

  // ------------------------------------------------------------ one sitting

  /** All that an invocation needs to be prepared: approval of the permission that its batch
      was suspended for, or all the checks of a preparation. */
  ghost predicate WasPermitted(world: World, batch: PrepareBatch, handlers: Handlers, x: Invocation) {
    var i := x.sourceIndex;
    && i < |batch.actions| && MayWrite(world, x.effective, batch.mode) && world.catalog(x.effective.name).Some?
    && if i == batch.startIndex && batch.resume.Some? then
         batch.resume.value.kind.Permission? && batch.resume.value.resolution.approved
         && x.effective == batch.resume.value.effective
         && (batch.resume.value.category != "" ==> x.category == batch.resume.value.category)
       else
         && Hooked(world, batch, i) == Some(x.effective) && !Interactive(x.effective.name)
         && x.category == CategoryOf(world.policy, x.effective.name)
         && (Grants(world.policy, x.effective) || (Asks(world.policy, x.effective) && handlers.permit(i) == Some(true)))
  }

  lemma ReadyWasPermitted(world: World, batch: PrepareBatch, handlers: Handlers, i: nat)
    requires i < |batch.actions| && OutcomeAt(world, batch, i, handlers).Ready?
    requires i == batch.startIndex && batch.resume.Some? ==> batch.resume.value.effective.name == batch.actions[i].name
    ensures WasPermitted(world, batch, handlers, OutcomeAt(world, batch, i, handlers).invocation)
  {
    hide PrepareAction, ResumeAction, Hooked, Grants, Asks, CategoryOf, Interactive, MayWrite;
    OutcomeFits(world, batch, i, handlers);
    if i == batch.startIndex && batch.resume.Some? {
      OnlyApprovedResume(world, batch, i);
    } else {
      OnlyPermittedRun(world, batch, i, handlers);
    }
  }

  lemma {:induction false} PreparedWerePermitted(world: World, batch: PrepareBatch, handlers: Handlers, i: nat,
                                                 progress: Progress, x: Invocation)
    requires ResumeFits(batch) && x in PrepareFrom(world, batch, handlers, i, progress).progress.prepared
    ensures x in progress.prepared || WasPermitted(world, batch, handlers, x)
    decreases |batch.actions| - i
  {
    hide OutcomeAt, WasPermitted, ResumeFits;
    if i < |batch.actions| && !OutcomeAt(world, batch, i, handlers).Waiting? {
      var outcome := OutcomeAt(world, batch, i, handlers);
      PreparedWerePermitted(world, batch, handlers, i + 1, Add(progress, outcome), x);
      if x in Add(progress, outcome).prepared && x !in progress.prepared {
        ResumeFitsAt(batch, i);
        ReadyWasPermitted(world, batch, handlers, i);
      }
    }
  }

  lemma ResumeFitsAt(batch: PrepareBatch, i: nat)
    requires ResumeFits(batch) && i < |batch.actions|
    ensures i == batch.startIndex && batch.resume.Some? ==> batch.resume.value.effective.name == batch.actions[i].name
  {
  }

  // ------------------------------------------------------------ many sittings

  /** One preparation of a batch. World and handlers may be others the next time. */
  datatype Sitting = Sitting(world: World, handlers: Handlers, batch: PrepareBatch)
  {
    function Preparation(): Preparation {
      PrepareAll(world, batch, handlers)
    }
  }

  /** What resumes a suspended batch, and the mode and workflow of that moment. */
  datatype Comeback = Comeback(interaction: string, resolution: Resolution, mode: string, workflow: string)

  /** A batch that was never prepared before. */
  predicate IsNew(batch: PrepareBatch) {
    batch.startIndex == 0 && batch.preparedPrefix == [] && batch.immediatePrefix == [] && batch.resume.None?
  }

  /** The batch is new, or the last of the sittings was suspended and the batch was rebuilt from
      the checkpoint that this left. */
  ghost predicate Reached(sittings: seq<Sitting>, backs: seq<Comeback>, batch: PrepareBatch)
    requires |sittings| == |backs|
    decreases |sittings|
  {
    if sittings == [] then IsNew(batch)
    else
      var n := |sittings| - 1;
      && Reached(sittings[..n], backs[..n], sittings[n].batch)
      && Rebuilt(sittings[n], backs[n], batch)
  }

  ghost predicate Rebuilt(last: Sitting, back: Comeback, batch: PrepareBatch) {
    && last.Preparation().Suspended?
    && Rebuild(Suspend(last.batch, last.Preparation(), back.interaction), back.resolution, back.mode, back.workflow) == Ok(batch)
  }

  lemma SittingPlaces(x: Sitting)
    requires Sound(x.batch)
    ensures Placed(x.batch, x.Preparation())
  {
    hide Placed, Slotted, PrepareFrom;
    PrepareFromPlaced(x.world, x.batch, x.handlers, x.batch.startIndex, Prefix(x.batch));
  }

  lemma RebuiltIsResumed(last: Sitting, back: Comeback, batch: PrepareBatch)
    requires Sound(last.batch) && Rebuilt(last, back, batch)
    ensures batch == Resumed(last.batch, last.Preparation(), back.resolution) && Sound(batch)
  {
    SittingPlaces(last);
    hide Sound, Placed, PrepareAll;
    RebuildRestores(last.batch, last.Preparation(), back.interaction, back.resolution, back.mode, back.workflow);
    ResumedIsSound(last.batch, last.Preparation(), back.resolution);
  }

  lemma {:induction false} ReachedIsSound(sittings: seq<Sitting>, backs: seq<Comeback>, batch: PrepareBatch)
    requires |sittings| == |backs| && Reached(sittings, backs, batch)
    ensures Sound(batch)
    decreases |sittings|
  {
    hide Sound, Rebuilt;
    if sittings == [] {
      NewBatchIsSound(batch);
    } else {
      var n := |sittings| - 1;
      ReachedIsSound(sittings[..n], backs[..n], sittings[n].batch);
      RebuiltIsResumed(sittings[n], backs[n], batch);
    }
  }

  /** In that sitting the user was asked for this permission: the action had passed all that
      comes before the policy, the policy asked, and nobody was there to answer. */
  ghost predicate WasAsked(at: Sitting, i: nat, effective: ToolAction, category: string) {
    && i < |at.batch.actions| && Hooked(at.world, at.batch, i) == Some(effective)
    && Asks(at.world.policy, effective) && category == CategoryOf(at.world.policy, effective.name)
    && at.handlers.permit(i).None?
  }

  /** An invocation was cleared in sitting `k`: it went through all the checks there or, where
      its batch was resumed for it, the permission was granted that the sitting before had asked
      for under the same category. */
  ghost predicate Cleared(sittings: seq<Sitting>, k: nat, x: Invocation) {
    && k < |sittings|
    && WasPermitted(sittings[k].world, sittings[k].batch, sittings[k].handlers, x)
    && (x.sourceIndex == sittings[k].batch.startIndex && sittings[k].batch.resume.Some? ==>
          k > 0 && WasAsked(sittings[k - 1], x.sourceIndex, x.effective, x.category))
  }

  /** An invocation was cleared in some sitting over its batch. */
  ghost predicate ClearedIn(sittings: seq<Sitting>, x: Invocation) {
    exists k :: Cleared(sittings, k, x)
  }

  lemma WaitingWasAsked(at: Sitting, i: nat)
    requires i < |at.batch.actions|
    ensures var outcome := OutcomeAt(at.world, at.batch, i, at.handlers);
            outcome.Waiting? && outcome.kind.Permission? ==>
              WasAsked(at, i, outcome.effective, outcome.category) && outcome.category != ""
  {
    EnterIsHooked(at.world, at.batch, i);
    if Enter(at.world, at.batch, i).Open? {
      RequestNamesCategory(at.world.policy, Enter(at.world, at.batch, i).effective);
      PolicyDecides(at.world.policy, Enter(at.world, at.batch, i).effective);
    }
    hide Evaluate, Asks, CategoryOf, Interactive, MayWrite, Failed, Enter, Hooked, ReadyInvocation, ResumeAction;
    ResumeNeverWaits(at.world, at.batch, i);
  }

  lemma ResumeNeverWaits(world: World, batch: PrepareBatch, i: nat)
    requires i < |batch.actions|
    ensures batch.resume.Some? ==> !ResumeAction(world, batch, i).Waiting?
  {
  }

  /** What a batch is resumed for was asked for in the last sitting. */
  lemma ResumedWasAsked(last: Sitting, back: Comeback, batch: PrepareBatch)
    requires Sound(last.batch) && Rebuilt(last, back, batch)
    ensures batch.resume.Some?
    ensures var resume := batch.resume.value;
            resume.kind.Permission? ==>
              WasAsked(last, batch.startIndex, resume.effective, resume.category) && resume.category != ""
  {
    RebuiltIsResumed(last, back, batch);
    hide OutcomeAt, Slotted, Rebuild, WasAsked;
    FirstWaiting(last.world, last.batch, last.handlers, last.batch.startIndex, Prefix(last.batch));
    WaitingWasAsked(last, last.Preparation().index);
  }

  /** Whatever was suspended and resumed in between, every invocation that a sitting has
      prepared was cleared in it or in one before. */
  lemma {:induction false} AllCleared(sittings: seq<Sitting>, backs: seq<Comeback>, last: Sitting, x: Invocation)
    requires |sittings| == |backs| && Reached(sittings, backs, last.batch)
    requires x in last.Preparation().progress.prepared
    ensures ClearedIn(sittings + [last], x)
    decreases |sittings|
  {
    hide *;
    PermittedOrPrefix(sittings, backs, last, x);
    if WasPermitted(last.world, last.batch, last.handlers, x) {
      ClearedHere(sittings, backs, last, x);
    } else {
      var n := |sittings| - 1;
      LastSitting(sittings, backs, last);
      AllCleared(sittings[..n], backs[..n], sittings[n], x);
      assert sittings[..n] + [sittings[n]] == sittings;
      ClearedLater(sittings, last, x);
    }
  }

  lemma PermittedOrPrefix(sittings: seq<Sitting>, backs: seq<Comeback>, last: Sitting, x: Invocation)
    requires |sittings| == |backs| && Reached(sittings, backs, last.batch)
    requires x in last.Preparation().progress.prepared
    ensures WasPermitted(last.world, last.batch, last.handlers, x) || (sittings != [] && x in last.batch.preparedPrefix)
  {
    ReachedIsSound(sittings, backs, last.batch);
    assert ResumeFits(last.batch);
    hide Sound, ResumeFits, PrepareFrom, WasPermitted, Rebuilt;
    PreparedWerePermitted(last.world, last.batch, last.handlers, last.batch.startIndex, Prefix(last.batch), x);
  }

  lemma LastSitting(sittings: seq<Sitting>, backs: seq<Comeback>, last: Sitting)
    requires |sittings| == |backs| && sittings != [] && Reached(sittings, backs, last.batch)
    ensures var n := |sittings| - 1;
            && Reached(sittings[..n], backs[..n], sittings[n].batch)
            && last.batch.preparedPrefix == sittings[n].Preparation().progress.prepared
  {
    var n := |sittings| - 1;
    hide Sound, Rebuilt, PrepareAll;
    ReachedIsSound(sittings[..n], backs[..n], sittings[n].batch);
    RebuiltIsResumed(sittings[n], backs[n], last.batch);
  }

  lemma ClearedHere(sittings: seq<Sitting>, backs: seq<Comeback>, last: Sitting, x: Invocation)
    requires |sittings| == |backs| && Reached(sittings, backs, last.batch)
    requires WasPermitted(last.world, last.batch, last.handlers, x)
    ensures ClearedIn(sittings + [last], x)
  {
    if sittings != [] {
      var n := |sittings| - 1;
      ReachedIsSound(sittings[..n], backs[..n], sittings[n].batch);
      ResumedWasAsked(sittings[n], backs[n], last.batch);
    }
    hide WasAsked, Rebuilt, Sound, Hooked, Grants, Asks, CategoryOf, Interactive, MayWrite;
    assert Cleared(sittings + [last], |sittings|, x);
  }

  lemma ClearedLater(sittings: seq<Sitting>, last: Sitting, x: Invocation)
    requires ClearedIn(sittings, x)
    ensures ClearedIn(sittings + [last], x)
  {
    hide WasAsked, WasPermitted;
    var k :| Cleared(sittings, k, x);
    assert Cleared(sittings + [last], k, x);
  }
}
