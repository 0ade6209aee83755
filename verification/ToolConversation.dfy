/** A batch that is suspended and resumed until it is prepared, against the same batch
    prepared in one go with the same answers given inline. */
module ToolConversation {
  import opened Outcomes
  import opened Text
  import opened OperationIds
  import opened AgentEffects
  import opened OperationLedger
  import opened ToolPreparation
  import opened ToolCheckpoint

  /** What the user answers at each action, whenever it is asked. */
  type Answers = nat -> Resolution

  function Inline(answers: Answers): Handlers {
    Handlers((i: nat) => Some(answers(i).approved), (i: nat) => Some(answers(i)))
  }

  /** Handlers that give some of the answers and are silent about the others. */
  ghost predicate Agree(handlers: Handlers, answers: Answers) {
    forall i: nat ::
      && (handlers.permit(i).Some? ==> handlers.permit(i).value == answers(i).approved)
      && (handlers.respond(i).Some? ==> handlers.respond(i).value == answers(i))
  }

  // ------------------------------------------------------------- one action

  /** An action that was settled without waiting is settled the same way inline. */
  lemma SettledAlike(world: World, batch: PrepareBatch, i: nat, handlers: Handlers, answers: Answers)
    requires i < |batch.actions| && Agree(handlers, answers)
    requires !OutcomeAt(world, batch, i, handlers).Waiting?
    ensures OutcomeAt(world, batch, i, Inline(answers)) == OutcomeAt(world, batch, i, handlers)
  {
  }

  lemma InlineNeverWaits(world: World, batch: PrepareBatch, i: nat, answers: Answers)
    requires i < |batch.actions|
    ensures !OutcomeAt(world, batch, i, Inline(answers)).Waiting?
  {
  }

  /** A permission granted after a suspension leads an interactive action to the catalog
      instead of to the user. */
  predicate Detour(preparation: Preparation, answers: Answers) {
    && preparation.Suspended? && preparation.kind.Permission?
    && Interactive(preparation.effective.name) && answers(preparation.index).approved
  }

  /** The resumed action, in the batch rebuilt from the checkpoint. */
  function ResumedOutcome(world: World, batch: PrepareBatch, waiting: Outcome, i: nat, answers: Answers): Outcome
    requires i < |batch.actions| && waiting.Waiting?
  {
    ResumeAction(world, batch.(resume := Some(Resume(waiting.kind, waiting.effective, answers(i), waiting.category))), i)
  }

  lemma PermissionAlike(world: World, batch: PrepareBatch, i: nat, effective: ToolAction, category: string, answers: Answers)
    requires i < |batch.actions|
    ensures var inline := if answers(i).approved then Permitted(world, batch, i, effective, category, Some(answers(i)))
                          else Done(Rejected(i, batch.actions[i], effective, NOT_APPROVED));
            var resumed := ResumedOutcome(world, batch, Waiting(Permission, effective, category), i, answers);
            (inline == resumed <==> !(Interactive(effective.name) && answers(i).approved))
            && (inline != resumed ==> inline.Done?)
  {
    assert Answered(effective, answers(i), batch.mode).success;
  }

  lemma UserInputAlike(world: World, batch: PrepareBatch, i: nat, effective: ToolAction, category: string,
                       handlers: Handlers, answers: Answers)
    requires i < |batch.actions| && Agree(handlers, answers)
    requires Permitted(world, batch, i, effective, category, handlers.respond(i)).Waiting?
    ensures Permitted(world, batch, i, effective, category, Some(answers(i)))
         == ResumedOutcome(world, batch, Permitted(world, batch, i, effective, category, handlers.respond(i)), i, answers)
  {
  }

  /** Resuming an action gives what answering inline gives, if and only if it is no detour. */
  lemma ResumedAlike(world: World, batch: PrepareBatch, i: nat, handlers: Handlers, answers: Answers)
    requires i < |batch.actions| && Agree(handlers, answers)
    requires !(i == batch.startIndex && batch.resume.Some?)
    requires PrepareAction(world, batch, i, handlers).Waiting?
    ensures var waiting := PrepareAction(world, batch, i, handlers);
            var inline, resumed := PrepareAction(world, batch, i, Inline(answers)), ResumedOutcome(world, batch, waiting, i, answers);
            (inline == resumed <==>
               !(waiting.kind.Permission? && Interactive(waiting.effective.name) && answers(i).approved))
            && (inline != resumed ==> inline.Done?)
  {
    var effective := Enter(world, batch, i).effective;
    var decision := Evaluate(world.policy, effective);
    RequestNamesCategory(world.policy, effective);
    if PrepareAction(world, batch, i, handlers).kind.Permission? {
      assert decision.Ask?;
      PermissionAlike(world, batch, i, effective, decision.category, answers);
    } else {
      UserInputAlike(world, batch, i, effective, decision.category, handlers, answers);
    }
  }

  // ------------------------------------------------------------- one batch

  /** Up to the action that waits, the batch goes as it does inline. */
  lemma {:induction false} SameUntilWaiting(world: World, batch: PrepareBatch, handlers: Handlers, answers: Answers, i: nat,
                                            progress: Progress)
    requires i <= |batch.actions| && Agree(handlers, answers)
    ensures var preparation := PrepareFrom(world, batch, handlers, i, progress);
            && (preparation.Suspended? ==> i <= preparation.index < |batch.actions|)
            && PrepareFrom(world, batch, Inline(answers), i, progress)
               == if preparation.Finished? then preparation
                  else PrepareFrom(world, batch, Inline(answers), preparation.index, preparation.progress)
    decreases |batch.actions| - i
  {
    hide OutcomeAt;
    if i < |batch.actions| && !OutcomeAt(world, batch, i, handlers).Waiting? {
      SettledAlike(world, batch, i, handlers, answers);
      SameUntilWaiting(world, batch, handlers, answers, i + 1, Add(progress, OutcomeAt(world, batch, i, handlers)));
    }
  }

  /** Beyond its first action, a batch does not depend on where it was resumed. */
  lemma {:induction false} SameTail(world: World, batch: PrepareBatch, resumed: PrepareBatch, handlers: Handlers, i: nat,
                                    progress: Progress)
    requires i > batch.startIndex && i > resumed.startIndex
    requires resumed.actions == batch.actions && resumed.message == batch.message && resumed.mode == batch.mode
    requires resumed.workflow == batch.workflow && resumed.truncated == batch.truncated
    ensures PrepareFrom(world, resumed, handlers, i, progress) == PrepareFrom(world, batch, handlers, i, progress)
    decreases |batch.actions| - i
  {
    hide OutcomeAt;
    if i < |batch.actions| {
      SameAction(world, batch, resumed, handlers, i);
      var outcome := OutcomeAt(world, batch, i, handlers);
      if !outcome.Waiting? {
        SameTail(world, batch, resumed, handlers, i + 1, Add(progress, outcome));
      }
    }
  }

  lemma SameAction(world: World, batch: PrepareBatch, resumed: PrepareBatch, handlers: Handlers, i: nat)
    requires i > batch.startIndex && i > resumed.startIndex && i < |batch.actions|
    requires resumed.actions == batch.actions && resumed.message == batch.message && resumed.mode == batch.mode
    requires resumed.workflow == batch.workflow && resumed.truncated == batch.truncated
    ensures OutcomeAt(world, resumed, i, handlers) == OutcomeAt(world, batch, i, handlers)
  {
    assert Enter(world, resumed, i) == Enter(world, batch, i);
    match Enter(world, batch, i)
    case Stopped(_) =>
    case Open(effective) => SameDecision(world, batch, resumed, handlers, i, effective);
  }

  lemma SameDecision(world: World, batch: PrepareBatch, resumed: PrepareBatch, handlers: Handlers, i: nat,
                     effective: ToolAction)
    requires i < |batch.actions|
    requires resumed.actions == batch.actions && resumed.message == batch.message && resumed.mode == batch.mode
    requires resumed.workflow == batch.workflow
    ensures Decide(world, resumed, i, effective, handlers) == Decide(world, batch, i, effective, handlers)
  {
    forall category: string, response ensures
      Permitted(world, resumed, i, effective, category, response) == Permitted(world, batch, i, effective, category, response)
    {
    }
  }

  function WithEvents(events: seq<Event>, preparation: Preparation): Preparation {
    preparation.(progress := preparation.progress.(events := events + preparation.progress.events))
  }

  lemma AddWithEvents(progress: Progress, outcome: Outcome, events: seq<Event>)
    requires !outcome.Waiting?
    ensures var next := Add(progress, outcome);
            Add(progress.(events := events + progress.events), outcome) == next.(events := events + next.events)
  {
  }

  /** Events recorded before do not matter to what follows. */
  lemma {:induction false} EventsBefore(world: World, batch: PrepareBatch, handlers: Handlers, i: nat, progress: Progress,
                                        events: seq<Event>)
    ensures PrepareFrom(world, batch, handlers, i, progress.(events := events + progress.events))
         == WithEvents(events, PrepareFrom(world, batch, handlers, i, progress))
    decreases |batch.actions| - i
  {
    hide OutcomeAt;
    if i < |batch.actions| {
      var outcome := OutcomeAt(world, batch, i, handlers);
      if !outcome.Waiting? {
        AddWithEvents(progress, outcome, events);
        EventsBefore(world, batch, handlers, i + 1, Add(progress, outcome), events);
      }
    }
  }

  /** What is settled stays at the front of both lists. */
  lemma {:induction false} Extends(world: World, batch: PrepareBatch, handlers: Handlers, i: nat, progress: Progress)
    ensures var later := PrepareFrom(world, batch, handlers, i, progress).progress;
            progress.prepared <= later.prepared && progress.immediate <= later.immediate
    decreases |batch.actions| - i
  {
    hide OutcomeAt;
    if i < |batch.actions| {
      var outcome := OutcomeAt(world, batch, i, handlers);
      if !outcome.Waiting? {
        assert progress.prepared <= Add(progress, outcome).prepared && progress.immediate <= Add(progress, outcome).immediate;
        hide Add;
        Extends(world, batch, handlers, i + 1, Add(progress, outcome));
      }
    }
  }

  // -------------------------------------------------------- one suspension

  /** A suspended batch, and the batch resumed from it: both go on with the next action,
      each after its own version of the action that waited. */
  lemma OneSuspension(world: World, batch: PrepareBatch, handlers: Handlers, answers: Answers, waited: Preparation,
                      resumed: PrepareBatch)
    returns (inline: Outcome, answered: Outcome)
    requires batch.startIndex <= |batch.actions| && Agree(handlers, answers)
    requires waited == PrepareAll(world, batch, handlers) && waited.Suspended?
    requires resumed == Resumed(batch, waited, answers(waited.index))
    ensures batch.startIndex <= waited.index < |batch.actions| && !inline.Waiting? && !answered.Waiting?
    ensures answered == ResumeAction(world, resumed, waited.index)
    ensures Fits(batch, waited.index, inline)
    ensures PrepareAll(world, batch, Inline(answers))
         == PrepareFrom(world, batch, Inline(answers), waited.index + 1, Add(waited.progress, inline))
    ensures PrepareAll(world, resumed, Inline(answers))
         == PrepareFrom(world, batch, Inline(answers), waited.index + 1, Add(waited.progress.(events := []), answered))
    ensures (inline == answered <==> !Detour(waited, answers)) && (inline != answered ==> inline.Done?)
  {
    hide OutcomeAt, PrepareAction, ResumeAction, Fits;
    var i := waited.index;
    FirstWaiting(world, batch, handlers, batch.startIndex, Prefix(batch));
    SameUntilWaiting(world, batch, handlers, answers, batch.startIndex, Prefix(batch));
    WaitingAlike(world, batch, handlers, answers, waited, resumed);
    inline, answered := OutcomeAt(world, batch, i, Inline(answers)), OutcomeAt(world, resumed, i, Inline(answers));
    SameTail(world, batch, resumed, Inline(answers), i + 1, Add(waited.progress.(events := []), answered));
  }

  lemma WaitingAlike(world: World, batch: PrepareBatch, handlers: Handlers, answers: Answers, waited: Preparation,
                     resumed: PrepareBatch)
    requires Agree(handlers, answers) && waited.Suspended? && waited.index < |batch.actions|
    requires OutcomeAt(world, batch, waited.index, handlers) == Waiting(waited.kind, waited.effective, waited.category)
    requires resumed == Resumed(batch, waited, answers(waited.index))
    ensures var inline := OutcomeAt(world, batch, waited.index, Inline(answers));
            var answered := OutcomeAt(world, resumed, waited.index, Inline(answers));
            && !inline.Waiting? && answered == ResumeAction(world, resumed, waited.index)
            && Fits(batch, waited.index, inline)
            && (inline == answered <==> !Detour(waited, answers)) && (inline != answered ==> inline.Done?)
  {
    var i := waited.index;
    ResumedAlike(world, batch, i, handlers, answers);
    InlineNeverWaits(world, batch, i, answers);
    assert ResumedOutcome(world, batch, OutcomeAt(world, batch, i, handlers), i, answers) == ResumeAction(world, resumed, i);
  }

  // ---------------------------------------------------------- conversations

  /** The preparations of one batch: each suspension is answered and the batch resumed, for
      as long as there are handlers for another turn. */
  function Conversation(world: World, batch: PrepareBatch, turns: seq<Handlers>, answers: Answers): (all: seq<Preparation>)
    requires turns != []
    ensures 1 <= |all| <= |turns|
    ensures all[0] == PrepareAll(world, batch, turns[0])
    decreases |turns|
  {
    var first := PrepareAll(world, batch, turns[0]);
    if first.Finished? || |turns| == 1 then [first]
    else [first] + Conversation(world, Resumed(batch, first, answers(first.index)), turns[1..], answers)
  }

  function Last(all: seq<Preparation>): Preparation
    requires all != []
  {
    all[|all| - 1]
  }

  ghost predicate AllAgree(turns: seq<Handlers>, answers: Answers) {
    forall k | 0 <= k < |turns| :: Agree(turns[k], answers)
  }

  /** The events of all the preparations, without those of the prompts. */
  function AllEvents(all: seq<Preparation>): seq<Event> {
    if all == [] then [] else all[0].progress.events + AllEvents(all[1..])
  }

  predicate AnyDetour(all: seq<Preparation>, answers: Answers) {
    exists k | 0 <= k < |all| :: Detour(all[k], answers)
  }

  lemma SplitConversation(world: World, batch: PrepareBatch, turns: seq<Handlers>, answers: Answers)
    returns (first: Preparation, rest: seq<Preparation>)
    requires |turns| > 1 && PrepareAll(world, batch, turns[0]).Suspended?
    ensures first == PrepareAll(world, batch, turns[0])
    ensures rest == Conversation(world, Resumed(batch, first, answers(first.index)), turns[1..], answers)
    ensures rest != [] && Conversation(world, batch, turns, answers) == [first] + rest
    ensures Last([first] + rest) == Last(rest)
    ensures AllEvents([first] + rest) == first.progress.events + AllEvents(rest)
    ensures AnyDetour([first] + rest, answers) <==> Detour(first, answers) || AnyDetour(rest, answers)
  {
    hide *;
    first := PrepareAll(world, batch, turns[0]);
    rest := Conversation(world, Resumed(batch, first, answers(first.index)), turns[1..], answers);
    ConversationGoesOn(world, batch, turns, answers);
    JoinedTurns(first, rest, answers);
  }

  lemma ConversationGoesOn(world: World, batch: PrepareBatch, turns: seq<Handlers>, answers: Answers)
    requires |turns| > 1 && PrepareAll(world, batch, turns[0]).Suspended?
    ensures var first := PrepareAll(world, batch, turns[0]);
            Conversation(world, batch, turns, answers)
              == [first] + Conversation(world, Resumed(batch, first, answers(first.index)), turns[1..], answers)
  {
    hide PrepareAll, Resumed;
  }

  lemma JoinedTurns(first: Preparation, rest: seq<Preparation>, answers: Answers)
    requires rest != []
    ensures Last([first] + rest) == Last(rest)
    ensures AllEvents([first] + rest) == first.progress.events + AllEvents(rest)
    ensures AnyDetour([first] + rest, answers) <==> Detour(first, answers) || AnyDetour(rest, answers)
  {
    hide Detour;
    var all := [first] + rest;
    assert all[1..] == rest;
    if k :| 0 <= k < |rest| && Detour(rest[k], answers) {
      assert all[k + 1] == rest[k];
    }
    if Detour(first, answers) {
      assert all[0] == first;
    }
  }

  /** Both lists of `base` stand at the front of those of `later`. */
  predicate Grows(base: Progress, later: Progress) {
    base.prepared <= later.prepared && base.immediate <= later.immediate
  }

  /** The batch goes on from what was settled, and a resumed action comes first. */
  function Settled(world: World, batch: PrepareBatch): Progress
    requires batch.resume.Some? ==> batch.startIndex < |batch.actions|
  {
    if batch.resume.Some? then Add(Prefix(batch), ResumeAction(world, batch, batch.startIndex)) else Prefix(batch)
  }

  lemma FirstExtends(world: World, batch: PrepareBatch, handlers: Handlers)
    requires Sound(batch)
    ensures Grows(Settled(world, batch), PrepareAll(world, batch, handlers).progress)
    ensures Placed(batch, PrepareAll(world, batch, handlers))
    ensures PrepareAll(world, batch, handlers).Suspended? ==>
              PrepareAll(world, batch, handlers).index >= batch.startIndex + (if batch.resume.Some? then 1 else 0)
  {
    hide ResumeAction, PrepareAction, Add, PrepareFrom, Placed, Slotted;
    PrepareFromPlaced(world, batch, handlers, batch.startIndex, Prefix(batch));
    FirstWaiting(world, batch, handlers, batch.startIndex, Prefix(batch));
    Extends(world, batch, handlers, batch.startIndex, Prefix(batch));
    if batch.resume.Some? {
      ResumeFirst(world, batch, handlers);
      Extends(world, batch, handlers, batch.startIndex + 1, Settled(world, batch));
    }
  }

  lemma ResumeFirst(world: World, batch: PrepareBatch, handlers: Handlers)
    requires batch.resume.Some? && batch.startIndex < |batch.actions|
    ensures PrepareAll(world, batch, handlers)
         == PrepareFrom(world, batch, handlers, batch.startIndex + 1, Settled(world, batch))
  {
    hide ResumeAction, PrepareAction, Add;
  }

  /** Every suspension but the last is followed by one at a later action, or by the end. */
  predicate Advancing(all: seq<Preparation>) {
    forall k | 0 <= k < |all| - 1 ::
      all[k].Suspended? && (all[k + 1].Suspended? ==> all[k].index < all[k + 1].index)
  }

  lemma AdvancingPrepend(first: Preparation, rest: seq<Preparation>)
    requires first.Suspended? && rest != [] && Advancing(rest)
    requires rest[0].Suspended? ==> first.index < rest[0].index
    ensures Advancing([first] + rest)
  {
  }

  lemma GrowsBack(base: Progress, middle: Progress, later: Progress)
    requires Grows(base, middle) && Grows(middle, later)
    ensures Grows(base, later)
  {
  }

  lemma SettledGrows(world: World, batch: PrepareBatch, waited: Preparation, resolution: Resolution)
    requires Placed(batch, waited) && waited.Suspended?
    ensures Grows(waited.progress, Settled(world, Resumed(batch, waited, resolution)))
  {
  }

  /** How many preparations a conversation can still take. */
  function TurnsLeft(batch: PrepareBatch): int {
    |batch.actions| - batch.startIndex + (if batch.resume.Some? then 0 else 1)
  }

  /** Along a conversation the batch is resumed at later and later actions, so there are no
      more suspensions than actions left, and what was settled once stays. */
  lemma {:induction false} ConversationProgress(world: World, batch: PrepareBatch, turns: seq<Handlers>, answers: Answers)
    requires Sound(batch) && turns != []
    ensures var all := Conversation(world, batch, turns, answers);
            && Grows(Settled(world, batch), Last(all).progress) && Placed(batch, Last(all))
            && |all| <= TurnsLeft(batch) && Advancing(all)
    decreases |turns|
  {
    FirstExtends(world, batch, turns[0]);
    if |turns| > 1 && PrepareAll(world, batch, turns[0]).Suspended? {
      var first, rest := SplitConversation(world, batch, turns, answers);
      var resumed := Resumed(batch, first, answers(first.index));
      ResumedIsSound(batch, first, answers(first.index));
      SettledGrows(world, batch, first, answers(first.index));
      FirstExtends(world, resumed, turns[1]);
      PlacedEither(batch, resumed, Last(Conversation(world, resumed, turns[1..], answers)));
      hide Placed, PrepareAll, Settled, Grows, Advancing;
      ConversationProgress(world, resumed, turns[1..], answers);
      AdvancingPrepend(first, rest);
      GrowsBack(first.progress, Settled(world, resumed), Last(rest).progress);
      GrowsBack(Settled(world, batch), first.progress, Last(rest).progress);
    }
  }

  lemma PlacedEither(batch: PrepareBatch, resumed: PrepareBatch, preparation: Preparation)
    requires resumed.actions == batch.actions && resumed.message == batch.message && resumed.truncated == batch.truncated
    ensures Placed(resumed, preparation) <==> Placed(batch, preparation)
  {
    assert forall x: Invocation :: InvocationFits(batch, x) <==> InvocationFits(resumed, x);
    assert forall x: Immediate :: ImmediateFits(batch, x) <==> ImmediateFits(resumed, x);
  }

  // ------------------------------------------------------- the main result

  predicate SameSlots(a: Preparation, b: Preparation) {
    a.progress.prepared == b.progress.prepared && a.progress.immediate == b.progress.immediate
  }

  lemma InlineFinishes(world: World, batch: PrepareBatch, answers: Answers)
    requires batch.startIndex <= |batch.actions|
    ensures PrepareAll(world, batch, Inline(answers)).Finished?
  {
    FirstWaiting(world, batch, Inline(answers), batch.startIndex, Prefix(batch));
    var preparation := PrepareAll(world, batch, Inline(answers));
    if preparation.Suspended? {
      InlineNeverWaits(world, batch, preparation.index, answers);
    }
  }

  /** No detour: the two go on alike, but for the events that were already recorded. */
  lemma WithoutDetour(world: World, batch: PrepareBatch, answers: Answers, i: nat, progress: Progress, outcome: Outcome)
    requires !outcome.Waiting?
    ensures PrepareFrom(world, batch, Inline(answers), i, Add(progress, outcome))
         == WithEvents(progress.events,
                       PrepareFrom(world, batch, Inline(answers), i, Add(progress.(events := []), outcome)))
  {
    var bare := progress.(events := []);
    AddWithEvents(bare, outcome, progress.events);
    assert progress.events + [] == progress.events;
    EventsBefore(world, batch, Inline(answers), i, Add(bare, outcome), progress.events);
  }

  /** Two versions of one action leave different slots behind. */
  lemma DifferentSlots(batch: PrepareBatch, i: nat, base: Progress, inline: Immediate, answered: Outcome, a: Progress, b: Progress)
    requires Slotted(batch, |batch.actions|, b) && i < |batch.actions|
    requires Fits(batch, i, Done(inline)) && Fits(batch, i, answered) && !answered.Waiting? && Done(inline) != answered
    requires Grows(Add(base, Done(inline)), a)
    requires Grows(Add(base, answered), b)
    ensures a.prepared != b.prepared || a.immediate != b.immediate
  {
    var n := |base.immediate|;
    assert Add(base, Done(inline)).immediate[n] == inline == a.immediate[n];
    assert inline in a.immediate && inline.sourceIndex in ImmediateIndices(a.immediate);
    match answered
    case Done(x) => assert Add(base, answered).immediate[n] == x == b.immediate[n];
    case Ready(x) =>
      var m := |base.prepared|;
      assert Add(base, answered).prepared[m] == x == b.prepared[m];
      assert x in b.prepared && x.sourceIndex in InvocationIndices(b.prepared);
  }

  /** What a conversation leaves behind, against the inline preparation. */
  ghost predicate Refines(all: seq<Preparation>, inline: Preparation, answers: Answers)
    requires all != []
  {
    && inline.Finished?
    && (SameSlots(Last(all), inline) <==> !AnyDetour(all, answers))
    && (!AnyDetour(all, answers) ==> AllEvents(all) == inline.progress.events)
  }

  lemma OneTurn(world: World, batch: PrepareBatch, handlers: Handlers, answers: Answers)
    requires batch.startIndex <= |batch.actions| && Agree(handlers, answers)
    requires PrepareAll(world, batch, handlers).Finished?
    ensures Refines([PrepareAll(world, batch, handlers)], PrepareAll(world, batch, Inline(answers)), answers)
  {
    SameUntilWaiting(world, batch, handlers, answers, batch.startIndex, Prefix(batch));
    hide PrepareAll;
    var all := [PrepareAll(world, batch, handlers)];
    assert all[1..] == [];
    assert AllEvents(all) == all[0].progress.events;
  }

  /** Joins a suspension that was no detour to what followed it. */
  lemma PlainTurn(first: Preparation, rest: seq<Preparation>, all: seq<Preparation>, inline: Preparation,
                  inlineRest: Preparation, answers: Answers)
    requires rest != [] && all != [] && Refines(rest, inlineRest, answers)
    requires inline == WithEvents(first.progress.events, inlineRest) && !Detour(first, answers)
    requires Last(all) == Last(rest) && AllEvents(all) == first.progress.events + AllEvents(rest)
    requires AnyDetour(all, answers) <==> Detour(first, answers) || AnyDetour(rest, answers)
    ensures Refines(all, inline, answers)
  {
  }

  /** A detour can never be made up for. */
  lemma DetourTurn(world: World, batch: PrepareBatch, turns: seq<Handlers>, answers: Answers, first: Preparation,
                   inline: Immediate)
    requires Sound(batch) && turns != [] && first.Suspended? && Placed(batch, first)
    requires Fits(batch, first.index, Done(inline))
    requires var resumed := Resumed(batch, first, answers(first.index));
             && Done(inline) != ResumeAction(world, resumed, first.index)
             && Last(Conversation(world, resumed, turns, answers)).Finished?
    requires PrepareAll(world, batch, Inline(answers)).Finished?
    requires PrepareAll(world, batch, Inline(answers))
          == PrepareFrom(world, batch, Inline(answers), first.index + 1, Add(first.progress, Done(inline)))
    ensures var resumed := Resumed(batch, first, answers(first.index));
            !SameSlots(Last(Conversation(world, resumed, turns, answers)), PrepareAll(world, batch, Inline(answers)))
  {
    var resumed := Resumed(batch, first, answers(first.index));
    var answered := ResumeAction(world, resumed, first.index);
    var last := Last(Conversation(world, resumed, turns, answers));
    ResumedSettles(world, batch, first, answers(first.index));
    hide Conversation, PrepareFrom, ResumeAction, PrepareAll, Settled, Slotted, Resumed, Inline, Fits;
    ResumedIsSound(batch, first, answers(first.index));
    ConversationProgress(world, resumed, turns, answers);
    PlacedFinished(batch, resumed, last);
    Extends(world, batch, Inline(answers), first.index + 1, Add(first.progress, Done(inline)));
    DifferentSlots(batch, first.index, first.progress.(events := []), inline, answered,
                   PrepareAll(world, batch, Inline(answers)).progress, last.progress);
  }

  /** A resumed batch starts from what was settled and the action that was answered. */
  lemma ResumedSettles(world: World, batch: PrepareBatch, first: Preparation, resolution: Resolution)
    requires first.Suspended? && Placed(batch, first)
    ensures var resumed := Resumed(batch, first, resolution);
            && first.index < |batch.actions|
            && resumed.actions == batch.actions && resumed.message == batch.message && resumed.truncated == batch.truncated
            && resumed.resume.Some? && resumed.startIndex == first.index
            && Settled(world, resumed) == Add(first.progress.(events := []), ResumeAction(world, resumed, first.index))
            && Fits(batch, first.index, ResumeAction(world, resumed, first.index))
  {
    hide Slotted;
  }

  lemma PlacedFinished(batch: PrepareBatch, resumed: PrepareBatch, last: Preparation)
    requires resumed.actions == batch.actions && resumed.message == batch.message && resumed.truncated == batch.truncated
    requires Placed(resumed, last) && last.Finished?
    ensures Slotted(batch, |batch.actions|, last.progress)
  {
    hide Slotted;
    PlacedEither(batch, resumed, last);
  }

  /** However often a batch is suspended and resumed with the given answers, it ends up with
      the invocations, the immediate results and the events that the same answers given
      inline lead to, if and only if no suspension was a detour. */
  lemma {:induction false} SuspendedAsInline(world: World, batch: PrepareBatch, turns: seq<Handlers>, answers: Answers)
    requires Sound(batch) && turns != [] && AllAgree(turns, answers)
    requires Last(Conversation(world, batch, turns, answers)).Finished?
    ensures Refines(Conversation(world, batch, turns, answers), PrepareAll(world, batch, Inline(answers)), answers)
    decreases |turns|
  {
    assert Agree(turns[0], answers);
    if PrepareAll(world, batch, turns[0]).Finished? {
      OneTurn(world, batch, turns[0], answers);
    } else {
      var first, rest := SplitConversation(world, batch, turns, answers);
      var resumed := Resumed(batch, first, answers(first.index));
      FirstExtends(world, batch, turns[0]);
      ResumedIsSound(batch, first, answers(first.index));
      hide PrepareAll, Conversation, Placed, Detour, ResumeAction;
      SuspendedAsInline(world, resumed, turns[1..], answers);
      LastTurn(world, batch, turns, answers, first, rest, resumed);
    }
  }

  lemma LastTurn(world: World, batch: PrepareBatch, turns: seq<Handlers>, answers: Answers, first: Preparation,
                 rest: seq<Preparation>, resumed: PrepareBatch)
    requires Sound(batch) && |turns| > 1 && Agree(turns[0], answers)
    requires first == PrepareAll(world, batch, turns[0]) && first.Suspended? && Placed(batch, first)
    requires resumed == Resumed(batch, first, answers(first.index))
    requires rest == Conversation(world, resumed, turns[1..], answers) && Last(rest).Finished?
    requires Refines(rest, PrepareAll(world, resumed, Inline(answers)), answers)
    requires Conversation(world, batch, turns, answers) == [first] + rest
    ensures Refines(Conversation(world, batch, turns, answers), PrepareAll(world, batch, Inline(answers)), answers)
  {
    var inline, answered := OneSuspension(world, batch, turns[0], answers, first, resumed);
    InlineFinishes(world, batch, answers);
    var f, r := SplitConversation(world, batch, turns, answers);
    hide PrepareAll, Conversation, Placed, Detour, ResumeAction, PrepareFrom;
    if Detour(first, answers) {
      DetourTurn(world, batch, turns[1..], answers, first, inline.immediate);
    } else {
      WithoutDetour(world, batch, answers, first.index + 1, first.progress, inline);
      PlainTurn(first, rest, [first] + rest, PrepareAll(world, batch, Inline(answers)),
                PrepareAll(world, resumed, Inline(answers)), answers);
    }
  }

  // ----------------------------------------------- when there is a detour

  /** Nobody answers the permission prompt of an interactive action that comes to it, and
      the answer given later approves. */
  predicate DetourAt(world: World, batch: PrepareBatch, i: nat, handlers: Handlers, answers: Answers)
    requires i < |batch.actions|
  {
    && !(i == batch.startIndex && batch.resume.Some?)
    && Hooked(world, batch, i).Some?
    && Interactive(Hooked(world, batch, i).value.name)
    && Asks(world.policy, Hooked(world, batch, i).value)
    && handlers.permit(i).None? && answers(i).approved
  }

  /** Going through the actions, with the handlers of the next turn after each one that
      waits, some action is a detour. */
  predicate MeetsDetour(world: World, batch: PrepareBatch, turns: seq<Handlers>, answers: Answers, i: nat)
    decreases |batch.actions| - i
  {
    && i < |batch.actions| && turns != []
    && (DetourAt(world, batch, i, turns[0], answers)
        || MeetsDetour(world, batch, if OutcomeAt(world, batch, i, turns[0]).Waiting? then turns[1..] else turns, answers, i + 1))
  }

  lemma DetourWaits(world: World, batch: PrepareBatch, i: nat, handlers: Handlers, answers: Answers)
    requires i < |batch.actions|
    ensures var outcome := OutcomeAt(world, batch, i, handlers);
            DetourAt(world, batch, i, handlers, answers) <==>
              outcome.Waiting? && outcome.kind.Permission? && Interactive(outcome.effective.name) && answers(i).approved
  {
    EnterIsHooked(world, batch, i);
    if Hooked(world, batch, i).Some? {
      PolicyDecides(world.policy, Hooked(world, batch, i).value);
    }
    hide Interactive, Evaluate, Asks, WriteFailure, ReadyInvocation, Answered, Enter, Hooked;
  }

  /** One preparation goes through the actions up to the one that waits. */
  lemma {:induction false} MeetsUntilWaiting(world: World, batch: PrepareBatch, turns: seq<Handlers>, answers: Answers, i: nat,
                                             progress: Progress)
    requires turns != []
    ensures var preparation := PrepareFrom(world, batch, turns[0], i, progress);
            MeetsDetour(world, batch, turns, answers, i) <==>
              preparation.Suspended?
              && (Detour(preparation, answers) || MeetsDetour(world, batch, turns[1..], answers, preparation.index + 1))
    decreases |batch.actions| - i
  {
    hide OutcomeAt, DetourAt;
    if i < |batch.actions| {
      DetourWaits(world, batch, i, turns[0], answers);
      var outcome := OutcomeAt(world, batch, i, turns[0]);
      if !outcome.Waiting? {
        MeetsUntilWaiting(world, batch, turns, answers, i + 1, Add(progress, outcome));
      }
    }
  }

  lemma {:induction false} MeetsSameTail(world: World, batch: PrepareBatch, resumed: PrepareBatch, turns: seq<Handlers>,
                                         answers: Answers, i: nat)
    requires i > batch.startIndex && i > resumed.startIndex
    requires resumed.actions == batch.actions && resumed.message == batch.message && resumed.mode == batch.mode
    requires resumed.workflow == batch.workflow && resumed.truncated == batch.truncated
    ensures MeetsDetour(world, resumed, turns, answers, i) <==> MeetsDetour(world, batch, turns, answers, i)
    decreases |batch.actions| - i
  {
    hide OutcomeAt, DetourAt;
    if i < |batch.actions| && turns != [] {
      SameAction(world, batch, resumed, turns[0], i);
      DetourWaits(world, batch, i, turns[0], answers);
      DetourWaits(world, resumed, i, turns[0], answers);
      MeetsSameTail(world, batch, resumed, if OutcomeAt(world, batch, i, turns[0]).Waiting? then turns[1..] else turns, answers,
                    i + 1);
    }
  }

  /** The resumed action does not wait again. */
  lemma MeetsResumed(world: World, batch: PrepareBatch, waited: Preparation, turns: seq<Handlers>, answers: Answers)
    requires waited.Suspended? && batch.startIndex <= waited.index < |batch.actions| && turns != []
    ensures var resumed := Resumed(batch, waited, answers(waited.index));
            && resumed.startIndex == waited.index && resumed.actions == batch.actions
            && (MeetsDetour(world, resumed, turns, answers, waited.index)
                <==> MeetsDetour(world, batch, turns, answers, waited.index + 1))
  {
    var resumed := Resumed(batch, waited, answers(waited.index));
    assert !OutcomeAt(world, resumed, waited.index, turns[0]).Waiting?;
    DetourWaits(world, resumed, waited.index, turns[0], answers);
    hide OutcomeAt, DetourAt;
    MeetsSameTail(world, batch, resumed, turns, answers, waited.index + 1);
  }

  lemma FirstMeets(world: World, batch: PrepareBatch, turns: seq<Handlers>, answers: Answers)
    requires turns != [] && batch.startIndex <= |batch.actions|
    ensures var first := PrepareAll(world, batch, turns[0]);
            && (first.Suspended? ==> batch.startIndex <= first.index < |batch.actions|)
            && (MeetsDetour(world, batch, turns, answers, batch.startIndex) <==>
                  first.Suspended?
                  && (Detour(first, answers) || MeetsDetour(world, batch, turns[1..], answers, first.index + 1)))
  {
    hide OutcomeAt, PrepareFrom, Detour, MeetsDetour;
    MeetsUntilWaiting(world, batch, turns, answers, batch.startIndex, Prefix(batch));
    FirstWaiting(world, batch, turns[0], batch.startIndex, Prefix(batch));
  }

  lemma ConversationEnds(world: World, batch: PrepareBatch, turns: seq<Handlers>, answers: Answers)
    requires turns != [] && (PrepareAll(world, batch, turns[0]).Finished? || |turns| == 1)
    ensures Conversation(world, batch, turns, answers) == [PrepareAll(world, batch, turns[0])]
  {
    hide PrepareAll;
  }

  /** Whether a conversation meets a detour is decided by what goes into it. */
  lemma {:induction false} DetourCondition(world: World, batch: PrepareBatch, turns: seq<Handlers>, answers: Answers)
    requires turns != [] && batch.startIndex <= |batch.actions|
    ensures AnyDetour(Conversation(world, batch, turns, answers), answers)
       <==> MeetsDetour(world, batch, turns, answers, batch.startIndex)
    decreases |turns|
  {
    hide *;
    var first := PrepareAll(world, batch, turns[0]);
    FirstMeets(world, batch, turns, answers);
    if first.Finished? || |turns| == 1 {
      ConversationEnds(world, batch, turns, answers);
      OneAlone(first, answers);
      NoTurns(world, batch, answers, if first.Suspended? then first.index + 1 else 0);
      assert |turns| == 1 ==> turns[1..] == [];
    } else {
      var f, rest := SplitConversation(world, batch, turns, answers);
      MeetsResumed(world, batch, first, turns[1..], answers);
      DetourCondition(world, Resumed(batch, first, answers(first.index)), turns[1..], answers);
    }
  }

  lemma OneAlone(first: Preparation, answers: Answers)
    ensures AnyDetour([first], answers) <==> Detour(first, answers)
    ensures first.Finished? ==> !Detour(first, answers)
  {
    assert [first][0] == first;
  }

  lemma NoTurns(world: World, batch: PrepareBatch, answers: Answers, i: nat)
    ensures !MeetsDetour(world, batch, [], answers, i)
  {
  }

  /** The main result, with its condition on what goes in. */
  lemma InlineUnlessAsked(world: World, batch: PrepareBatch, turns: seq<Handlers>, answers: Answers)
    requires Sound(batch) && turns != [] && AllAgree(turns, answers)
    requires Last(Conversation(world, batch, turns, answers)).Finished?
    ensures var all, inline := Conversation(world, batch, turns, answers), PrepareAll(world, batch, Inline(answers));
            && inline.Finished?
            && (SameSlots(Last(all), inline) <==> !MeetsDetour(world, batch, turns, answers, batch.startIndex))
            && (SameSlots(Last(all), inline) ==> AllEvents(all) == inline.progress.events)
  {
    hide Conversation, PrepareAll, MeetsDetour, AnyDetour, SameSlots, AllEvents, Slotted;
    SuspendedAsInline(world, batch, turns, answers);
    DetourCondition(world, batch, turns, answers);
  }

  /** A policy that never asks about the tools that themselves ask. */
  ghost predicate NeverAsksTwice(policy: Policy) {
    forall action: ToolAction | Interactive(action.name) :: !Asks(policy, action)
  }

  /** Under such a policy suspending never makes a difference. */
  lemma {:induction false} NoDetourByPolicy(world: World, batch: PrepareBatch, turns: seq<Handlers>, answers: Answers, i: nat)
    requires NeverAsksTwice(world.policy)
    ensures !MeetsDetour(world, batch, turns, answers, i)
    decreases |batch.actions| - i
  {
    hide OutcomeAt, Interactive, Asks;
    if i < |batch.actions| && turns != [] {
      NoDetourByPolicy(world, batch, if OutcomeAt(world, batch, i, turns[0]).Waiting? then turns[1..] else turns, answers, i + 1);
    }
  }

  // ------------------------------------------------------------ an instance

  /** Nobody answers while a batch is prepared. */
  const SILENT := Handlers((i: nat) => None, (i: nat) => None)

  const YES := Resolution(true, "", None, "", "")

  /** A batch of one action, as a reply asks for it. */
  function Single(message: MessageId, action: ToolAction, mode: string): PrepareBatch {
    PrepareBatch(message, [action], mode, "", false, 0, [], [], ToContext, None)
  }

  /** In any world whose hook lets an interactive action through and whose policy asks about
      it, approving the prompt after a suspension does not lead where approving it inline
      does. */
  lemma AskedTwice(world: World, message: MessageId, action: ToolAction, mode: string)
    requires Interactive(action.name) && world.hook(action, mode, "").Proceed? && Asks(world.policy, action)
    ensures var batch, turns, answers := Single(message, action, mode), [SILENT, SILENT], (i: nat) => YES;
            && Last(Conversation(world, batch, turns, answers)).Finished?
            && !SameSlots(Last(Conversation(world, batch, turns, answers)), PrepareAll(world, batch, Inline(answers)))
  {
    var batch, turns, answers := Single(message, action, mode), [SILENT, SILENT], (i: nat) => YES;
    SingleIsSound(message, action, mode);
    assert DetourAt(world, batch, 0, SILENT, answers);
    TwoTurns(world, batch, action, answers);
    hide *;
    SilenceAgrees(turns, answers);
    MeetsNow(world, batch, turns, answers);
    InlineUnlessAsked(world, batch, turns, answers);
  }

  lemma MeetsNow(world: World, batch: PrepareBatch, turns: seq<Handlers>, answers: Answers)
    requires batch.startIndex < |batch.actions| && turns != [] && DetourAt(world, batch, batch.startIndex, turns[0], answers)
    ensures MeetsDetour(world, batch, turns, answers, batch.startIndex)
  {
  }

  lemma SingleIsSound(message: MessageId, action: ToolAction, mode: string)
    ensures Sound(Single(message, action, mode))
  {
    assert Below(0) == {};
  }

  lemma SilenceAgrees(turns: seq<Handlers>, answers: Answers)
    requires turns == [SILENT, SILENT]
    ensures AllAgree(turns, answers)
  {
  }

  lemma TwoTurns(world: World, batch: PrepareBatch, action: ToolAction, answers: Answers)
    requires batch.actions == [action] && batch.startIndex == 0 && batch.resume.None?
    requires PrepareAction(world, batch, 0, SILENT).Waiting?
    ensures Last(Conversation(world, batch, [SILENT, SILENT], answers)).Finished?
  {
    hide PrepareAction, ResumeAction;
    var first := PrepareAll(world, batch, SILENT);
    assert first.Suspended? && first.index == 0;
    var resumed := Resumed(batch, first, answers(0));
    var outcome := OutcomeAt(world, resumed, 0, SILENT);
    assert PrepareFrom(world, resumed, SILENT, 1, Add(Prefix(resumed), outcome)).Finished?;
    assert PrepareAll(world, resumed, SILENT).Finished?;
    hide PrepareAll;
    assert [SILENT, SILENT][1..] == [SILENT];
    assert Conversation(world, resumed, [SILENT], answers) == [PrepareAll(world, resumed, SILENT)];
  }

  /** A world that lets everything through, asks about every tool and knows none. */
  const CAUTIOUS := World((name, mode, workflow) => true, (action, mode, workflow) => Proceed,
                          Policy(name => "other", (action, category) => None, {}, false, false, false),
                          (action, mode) => None, name => None)

  /** A switch of mode that is asked about and approved: answered inline the user is asked
      for the mode, after a suspension the tool is reported missing. */
  lemma ModeSwitchDetour(message: MessageId)
    ensures var action := ToolAction("propose_mode_switch", map[], "c", "");
            var batch, turns, answers := Single(message, action, "spec"), [SILENT, SILENT], (i: nat) => YES;
            && Last(Conversation(CAUTIOUS, batch, turns, answers)).Finished?
            && !SameSlots(Last(Conversation(CAUTIOUS, batch, turns, answers)), PrepareAll(CAUTIOUS, batch, Inline(answers)))
  {
    var action := ToolAction("propose_mode_switch", map[], "c", "");
    CautiousAsks(action);
    assert Interactive(action.name);
    hide *;
    AskedTwice(CAUTIOUS, message, action, "spec");
  }

  lemma CautiousAsks(action: ToolAction)
    ensures CAUTIOUS.hook(action, "spec", "").Proceed?
    ensures Asks(CAUTIOUS.policy, action)
  {
    CategoryIsOfficial(CAUTIOUS.policy, action.name);
    assert CategoryOf(CAUTIOUS.policy, action.name) == "other" by {
      assert Strip("other") == "other";
    }
    hide CategoryOf;
    assert "other" !in ["read", "workspace_write", "shell_exec", "toolchain_exec", "git_write", "network", "telemetry"];
  }
}
