/** What every interleaving of scope operations keeps. */
module ScopeSafety {
  import opened Outcomes
  import opened Runs
  import opened ScopeMachine

  // ------------------------------------------------------------------- lists

  lemma {:induction false} WithoutIsRemoval(ids: seq<Id>, id: Id)
    requires NoDuplicates(ids)
    ensures NoDuplicates(Without(ids, id))
    ensures forall k :: k in Without(ids, id) <==> k in ids && k != id
  {
    if ids != [] && ids[0] != id {
      var rest := ids[1..];
      assert NoDuplicates(rest);
      WithoutIsRemoval(rest, id);
      assert ids[0] !in rest;
      assert ids == [ids[0]] + rest;
    } else if ids != [] {
      assert ids == [ids[0]] + ids[1..];
    }
  }

  /** The steps that touch no list of registrations. */
  ghost predicate SameLists(s: State, t: State) {
    && t.scopes.Keys == s.scopes.Keys && t.registry.Keys == s.registry.Keys
    && (forall scope | scope in s.scopes :: t.scopes[scope].registrations == s.scopes[scope].registrations)
    && (forall id | id in s.registry :: t.registry[id].scope == s.registry[id].scope && t.registry[id].active == s.registry[id].active)
  }

  lemma ListedSame(s: State, t: State)
    requires Listed(s) && SameLists(s, t)
    ensures Listed(t)
  {
  }

  lemma ListedCreate(s: State, t: State, id: Id)
    requires Listed(s) && id !in s.scopes && t.registry == s.registry && t.scopes.Keys == s.scopes.Keys + {id}
    requires t.scopes[id].registrations == []
    requires forall scope | scope in s.scopes :: t.scopes[scope].registrations == s.scopes[scope].registrations
    ensures Listed(t)
  {
  }

  lemma ListedRegister(s: State, t: State, id: Id, scope: Id)
    requires Listed(s) && DoRegister(s, id, scope) == Some(t)
    ensures Listed(t)
  {
    var before, after := s.scopes[scope].registrations, t.scopes[scope].registrations;
    assert id !in before;
    assert forall k :: k in after <==> k in before || k == id;
  }

  /** The registrations `taken` leave the list of `scope` and become inactive. */
  lemma ListedTake(s: State, t: State, scope: Id, taken: set<Id>)
    requires Listed(s) && scope in s.scopes && t.scopes.Keys == s.scopes.Keys && t.registry.Keys == s.registry.Keys
    requires forall k | k in taken :: k in s.scopes[scope].registrations
    requires forall k | k in s.registry :: t.registry[k].scope == s.registry[k].scope
                                           && t.registry[k].active == (s.registry[k].active && k !in taken)
    requires forall other | other in s.scopes && other != scope :: t.scopes[other].registrations == s.scopes[other].registrations
    requires NoDuplicates(t.scopes[scope].registrations)
    requires forall k :: k in t.scopes[scope].registrations <==> k in s.scopes[scope].registrations && k !in taken
    ensures Listed(t)
  {
    forall other, k | other in t.scopes
      ensures k in t.scopes[other].registrations
              <==> k in t.registry && t.registry[k].scope == other && t.registry[k].active
    {
      assert k in s.scopes[other].registrations <==> k in s.registry && s.registry[k].scope == other && s.registry[k].active;
      if k in taken {
        assert s.registry[k].scope == scope;
      }
    }
  }

  lemma ListedDisposeOne(s: State, t: State, call: Id, id: Id)
    requires Listed(s) && DoDisposeOne(s, call, id) == Some(t)
    ensures Listed(t)
  {
    if s.registry[id].active {
      var scope := s.registry[id].scope;
      WithoutIsRemoval(s.scopes[scope].registrations, id);
      ListedTake(s, t, scope, {id});
    }
  }

  lemma CutTaken(ids: seq<Id>, cut: nat)
    requires NoDuplicates(ids) && cut <= |ids|
    ensures NoDuplicates(ids[..cut]) && NoDuplicates(ids[cut..])
    ensures forall k :: k in ids[..cut] <==> k in ids && k !in ids[cut..]
  {
    assert ids == ids[..cut] + ids[cut..];
  }

  function Cut(s: State, call: Id): nat
    requires call in s.calls && s.calls[call].Transaction? && s.calls[call].scope in s.scopes
  {
    var Transaction(scope, checkpoint) := s.calls[call];
    if checkpoint <= |s.scopes[scope].registrations| then checkpoint else |s.scopes[scope].registrations|
  }

  lemma ListedFail(s: State, t: State, call: Id)
    requires Listed(s) && DoFail(s, call) == Some(t)
    ensures Listed(t)
  {
    var scope := s.calls[call].scope;
    var ids, cut := s.scopes[scope].registrations, Cut(s, call);
    CutTaken(ids, cut);
    ListedTake(s, t, scope, set k | k in ids[cut..]);
  }

  lemma ListedDispose(s: State, t: State, call: Id, scope: Id, thread: Id)
    requires Listed(s) && DoDispose(s, call, scope, thread) == Some(t)
    ensures Listed(t)
  {
    if t.scopes != s.scopes {
      ListedTake(s, t, scope, set k | k in s.scopes[scope].registrations);
    } else if t != s {
      assert t.registry == s.registry;
    }
  }

  predicate TouchesLists(step: Step) {
    step.CreateRoot? || step.CreateChild? || step.Register? || step.DisposeOne? || step.Fail? || step.Dispose?
  }

  lemma OthersKeepLists(s: State, t: State, step: Step)
    requires Next(s, step) == Some(t) && !TouchesLists(step)
    ensures SameLists(s, t)
  {
    match step
    case Enter(_, _) =>
    case Exit(_) =>
    case Begin(_, _) =>
    case Commit(_) =>
    case Quiesce(_) =>
    case NextChild(_) =>
    case PassQuiet(_) =>
    case RunHeld(_) =>
    case Finish(_) =>
    case Detach(_) =>
    case Return(_) =>
  }

  lemma ListedKept(s: State, t: State, step: Step)
    requires Listed(s) && Next(s, step) == Some(t)
    ensures Listed(t)
  {
    match step
    case CreateRoot(id) => ListedCreate(s, t, id);
    case CreateChild(id, _) => ListedCreate(s, t, id);
    case Register(id, scope) => ListedRegister(s, t, id, scope);
    case DisposeOne(call, id) => ListedDisposeOne(s, t, call, id);
    case Fail(call) => ListedFail(s, t, call);
    case Dispose(call, scope, thread) => ListedDispose(s, t, call, scope, thread);
    case _ =>
      OthersKeepLists(s, t, step);
      ListedSame(s, t);
  }

  // ----------------------------------------------------------------- tickets

  /** The steps that move no disposer: calls keep or lose nothing, and registrations stay. */
  ghost predicate SameTickets(s: State, t: State) {
    && t.registry == s.registry
    && (forall c | c in t.calls :: t.calls[c].Held() != [] ==> c in s.calls && t.calls[c].Held() == s.calls[c].Held())
    && (forall c | c in s.calls :: s.calls[c].Held() != [] ==> c in t.calls && t.calls[c].Held() == s.calls[c].Held())
  }

  lemma TicketedSame(s: State, t: State)
    requires Ticketed(s) && SameTickets(s, t)
    ensures Ticketed(t)
  {
    assert Exclusive(t);
    forall id | id in t.registry && !t.registry[id].active && t.registry[id].runs == 0
      ensures exists c :: c in t.calls && id in t.calls[c].Held()
    {
      var c :| c in s.calls && id in s.calls[c].Held();
      assert c in t.calls;
    }
  }

  predicate MovesTickets(step: Step) {
    step.Register? || step.DisposeOne? || step.Fail? || step.Dispose? || step.RunHeld?
  }

  lemma OthersKeepTickets(s: State, t: State, step: Step)
    requires Next(s, step) == Some(t) && !MovesTickets(step)
    ensures SameTickets(s, t)
  {
    match step
    case CreateRoot(_) =>
    case CreateChild(_, _) =>
    case Enter(_, _) =>
    case Exit(_) =>
    case Begin(_, _) =>
    case Commit(_) =>
    case Quiesce(_) =>
    case NextChild(_) =>
    case PassQuiet(_) =>
    case Finish(_) =>
    case Detach(_) =>
    case Return(_) =>
  }

  lemma TicketedRegister(s: State, t: State, id: Id, scope: Id)
    requires Ticketed(s) && DoRegister(s, id, scope) == Some(t)
    ensures Ticketed(t)
  {
    forall k | k in t.registry && !t.registry[k].active && t.registry[k].runs == 0
      ensures exists c :: c in t.calls && k in t.calls[c].Held()
    {
      assert k != id;
      var c :| c in s.calls && k in s.calls[c].Held();
      assert c in t.calls;
    }
  }

  /** A call that holds nothing takes over registrations that were active. */
  ghost predicate Takes(s: State, t: State, call: Id, taken: seq<Id>) {
    && (call in s.calls ==> s.calls[call].Held() == [])
    && NoDuplicates(taken) && (forall k | k in taken :: k in s.registry && s.registry[k].active)
    && t.registry == Deactivated(s.registry, taken)
    && call in t.calls && t.calls[call].Held() == taken
    && (forall c | c != call :: (c in t.calls <==> c in s.calls) && (c in s.calls ==> t.calls[c] == s.calls[c]))
  }

  lemma ExclusiveTake(s: State, t: State, call: Id, taken: seq<Id>)
    requires Exclusive(s) && Takes(s, t, call, taken)
    ensures Exclusive(t)
  {
    hide *;
    SplitExclusive(s);
    TakeUnused(s, t, call, taken);
    TakeApart(s, t, call, taken);
    TakeOnce(s, t, call, taken);
    SplitExclusive(t);
  }

  lemma SplitExclusive(s: State)
    ensures Exclusive(s) <==> HeldUnused(s) && HeldApart(s) && AtMostOnce(s)
  {
    hide HeldUnused, HeldApart, AtMostOnce;
  }

  lemma TakeUnused(s: State, t: State, call: Id, taken: seq<Id>)
    requires HeldUnused(s) && AtMostOnce(s) && Takes(s, t, call, taken)
    ensures HeldUnused(t)
  {
    hide NoDuplicates;
    forall c, id | c in t.calls && id in t.calls[c].Held()
      ensures id in t.registry && !t.registry[id].active && t.registry[id].runs == 0
    {
      assert c != call ==> id in s.calls[c].Held();
    }
  }

  lemma TakeApart(s: State, t: State, call: Id, taken: seq<Id>)
    requires HeldApart(s) && HeldUnused(s) && Takes(s, t, call, taken)
    ensures HeldApart(t)
  {
    forall c, d, id | c in t.calls && d in t.calls && id in t.calls[c].Held() && id in t.calls[d].Held() ensures c == d {
      assert c != call ==> id in s.calls[c].Held();
      assert d != call ==> id in s.calls[d].Held();
    }
    hide NoDuplicates;
  }

  lemma TakeOnce(s: State, t: State, call: Id, taken: seq<Id>)
    requires AtMostOnce(s) && Takes(s, t, call, taken)
    ensures AtMostOnce(t)
  {
    hide NoDuplicates;
  }

  lemma NotLostTake(s: State, t: State, call: Id, taken: seq<Id>)
    requires NotLost(s) && Takes(s, t, call, taken)
    ensures NotLost(t)
  {
    forall k | k in t.registry && !t.registry[k].active && t.registry[k].runs == 0
      ensures exists c :: c in t.calls && k in t.calls[c].Held()
    {
      if k in taken {
        assert k in t.calls[call].Held();
      } else {
        var c :| c in s.calls && k in s.calls[c].Held();
        assert c in t.calls;
      }
    }
  }

  lemma TicketedTake(s: State, t: State, call: Id, taken: seq<Id>)
    requires Ticketed(s) && Takes(s, t, call, taken)
    ensures Ticketed(t)
  {
    hide Exclusive, NotLost, Takes;
    ExclusiveTake(s, t, call, taken);
    NotLostTake(s, t, call, taken);
  }

  lemma TicketedDisposeOne(s: State, t: State, call: Id, id: Id)
    requires Listed(s) && Ticketed(s) && DoDisposeOne(s, call, id) == Some(t)
    ensures Ticketed(t)
  {
    if s.registry[id].active {
      OneTaken(s, t, call, id);
      hide *;
      TicketedTake(s, t, call, [id]);
    }
  }

  lemma OneTaken(s: State, t: State, call: Id, id: Id)
    requires DoDisposeOne(s, call, id) == Some(t) && s.registry[id].active
    ensures Takes(s, t, call, [id])
  {
    hide Without;
    assert t.registry == Deactivated(s.registry, [id]);
  }

  lemma ListActive(s: State, scope: Id)
    requires Listed(s) && scope in s.scopes
    ensures forall k | k in s.scopes[scope].registrations :: k in s.registry && s.registry[k].active && s.registry[k].scope == scope
  {
  }

  lemma TicketedFail(s: State, t: State, call: Id)
    requires Listed(s) && Ticketed(s) && DoFail(s, call) == Some(t)
    ensures Ticketed(t)
  {
    var scope := s.calls[call].scope;
    CutTaken(s.scopes[scope].registrations, Cut(s, call));
    ListActive(s, scope);
    TicketedTake(s, t, call, s.scopes[scope].registrations[Cut(s, call)..]);
  }

  lemma TicketedDispose(s: State, t: State, call: Id, scope: Id, thread: Id)
    requires Listed(s) && Ticketed(s) && DoDispose(s, call, scope, thread) == Some(t)
    ensures Ticketed(t)
  {
    if t.scopes != s.scopes {
      ListActive(s, scope);
      TicketedTake(s, t, call, s.scopes[scope].registrations);
    } else {
      TicketedSame(s, t);
    }
  }

  /** A call runs the last disposer that it holds. */
  ghost predicate CallsLast(s: State, t: State, call: Id, held: seq<Id>, id: Id) {
    && call in s.calls && s.calls[call].Held() == held + [id] && id in s.registry
    && t.registry == s.registry[id := s.registry[id].(runs := s.registry[id].runs + 1)]
    && t.calls.Keys == s.calls.Keys && t.calls[call].Held() == held
    && (forall c | c in s.calls && c != call :: t.calls[c] == s.calls[c])
  }

  lemma RunsLast(s: State, t: State, call: Id) returns (held: seq<Id>, id: Id)
    requires DoRunHeld(s, call) == Some(t)
    ensures CallsLast(s, t, call, held, id)
  {
    var all := s.calls[call].Held();
    held, id := all[..|all| - 1], all[|all| - 1];
    assert all == held + [id];
  }

  lemma ExclusiveRun(s: State, t: State, call: Id, held: seq<Id>, id: Id)
    requires Exclusive(s) && CallsLast(s, t, call, held, id)
    ensures Exclusive(t)
  {
    var all := held + [id];
    assert all[|held|] == id && NoDuplicates(all);
    assert id in s.calls[call].Held();
    forall k | k in held ensures k != id && k in s.calls[call].Held() {
      var i :| 0 <= i < |held| && held[i] == k;
      assert all[i] == k;
    }
    forall i, j | 0 <= i < j < |held| ensures held[i] != held[j] {
      assert all[i] == held[i] && all[j] == held[j];
    }
  }

  lemma NotLostRun(s: State, t: State, call: Id, held: seq<Id>, id: Id)
    requires NotLost(s) && CallsLast(s, t, call, held, id)
    ensures NotLost(t)
  {
    forall k | k in t.registry && !t.registry[k].active && t.registry[k].runs == 0
      ensures exists c :: c in t.calls && k in t.calls[c].Held()
    {
      assert k != id;
      var c :| c in s.calls && k in s.calls[c].Held();
      assert c in t.calls;
    }
  }

  lemma TicketedRun(s: State, t: State, call: Id)
    requires Ticketed(s) && DoRunHeld(s, call) == Some(t)
    ensures Ticketed(t)
  {
    hide Exclusive, NotLost, CallsLast, DoRunHeld;
    var held, id := RunsLast(s, t, call);
    ExclusiveRun(s, t, call, held, id);
    NotLostRun(s, t, call, held, id);
  }

  lemma TicketedKept(s: State, t: State, step: Step)
    requires Listed(s) && Ticketed(s) && Next(s, step) == Some(t)
    ensures Ticketed(t)
  {
    hide Ticketed, Listed;
    match step
    case Register(id, scope) => TicketedRegister(s, t, id, scope);
    case DisposeOne(call, id) => TicketedDisposeOne(s, t, call, id);
    case Fail(call) => TicketedFail(s, t, call);
    case Dispose(call, scope, thread) => TicketedDispose(s, t, call, scope, thread);
    case RunHeld(call) => TicketedRun(s, t, call);
    case _ =>
      OthersKeepTickets(s, t, step);
      TicketedSame(s, t);
  }

  // ------------------------------------------------------------- operations

  ghost predicate SameOperations(s: State, t: State) {
    && t.scopes.Keys == s.scopes.Keys
    && (forall scope | scope in s.scopes ::
          t.scopes[scope].operations == s.scopes[scope].operations
          && (t.scopes[scope].quiescent == s.scopes[scope].quiescent
              || t.scopes[scope].quiescent == (s.scopes[scope].quiescent || s.scopes[scope].operations == 0)))
    && SameInFlight(s, t)
  }

  ghost predicate SameInFlight(s: State, t: State) {
    && (forall c | c in t.calls && t.calls[c].Operation? :: c in s.calls && s.calls[c] == t.calls[c])
    && (forall c | c in s.calls && s.calls[c].Operation? :: c in t.calls && s.calls[c] == t.calls[c])
  }

  lemma InFlightSame(s: State, t: State, scope: Id)
    requires SameInFlight(s, t)
    ensures InFlight(t, scope) == InFlight(s, scope)
  {
  }

  lemma CountedSame(s: State, t: State)
    requires Counted(s) && SameOperations(s, t)
    ensures Counted(t)
  {
    forall scope | scope in t.scopes ensures t.scopes[scope].operations == |InFlight(t, scope)| {
      InFlightSame(s, t, scope);
    }
  }

  lemma CountedCreate(s: State, t: State, id: Id)
    requires Counted(s) && id !in s.scopes && t.calls == s.calls && t.scopes.Keys == s.scopes.Keys + {id}
    requires t.scopes[id].operations == 0 && t.scopes[id].quiescent
    requires forall scope | scope in s.scopes ::
               t.scopes[scope].operations == s.scopes[scope].operations && t.scopes[scope].quiescent == s.scopes[scope].quiescent
    ensures Counted(t)
  {
    assert InFlight(t, id) == {};
    assert forall scope :: InFlight(t, scope) == InFlight(s, scope);
  }

  lemma Adds(before: set<Id>, after: set<Id>, id: Id)
    requires id !in before && id in after
    requires forall c :: c in after <==> c in before || c == id
    ensures |after| == |before| + 1
  {
    assert after == before + {id};
  }

  lemma InFlightEnter(s: State, t: State, call: Id, scope: Id, other: Id)
    requires call !in s.calls && t.calls == s.calls[call := Operation(scope)]
    ensures |InFlight(t, other)| == |InFlight(s, other)| + (if other == scope then 1 else 0)
  {
    if other == scope {
      assert call !in InFlight(s, scope);
      Adds(InFlight(s, scope), InFlight(t, scope), call);
    } else {
      assert InFlight(t, other) == InFlight(s, other);
    }
  }

  lemma CountedEnter(s: State, t: State, call: Id, scope: Id)
    requires Counted(s) && DoEnter(s, call, scope) == Some(t)
    ensures Counted(t)
  {
    hide InFlight;
    forall other | other in t.scopes ensures t.scopes[other].operations == |InFlight(t, other)| {
      InFlightEnter(s, t, call, scope, other);
    }
  }

  lemma CountedExit(s: State, t: State, call: Id)
    requires Counted(s) && DoExit(s, call) == Some(t)
    ensures Counted(t)
  {
    forall other | other in t.scopes ensures t.scopes[other].operations == |InFlight(t, other)| {
      InFlightExit(s, t, call, other);
    }
    hide InFlight;
  }

  lemma InFlightExit(s: State, t: State, call: Id, other: Id)
    requires call in s.calls && s.calls[call].Operation? && t.calls == Drop(s.calls, call)
    ensures |InFlight(t, other)| == |InFlight(s, other)| - (if other == s.calls[call].scope then 1 else 0)
  {
    assert InFlight(t, other) == InFlight(s, other) - (if other == s.calls[call].scope then {call} else {});
    assert other == s.calls[call].scope ==> call in InFlight(s, other);
  }

  /** The steps that only work on calls. */
  predicate CallsOnly(step: Step) {
    step.Begin? || step.Commit? || step.NextChild? || step.PassQuiet? || step.RunHeld? || step.Return?
  }

  lemma CallsKeepOperations(s: State, t: State, step: Step)
    requires Next(s, step) == Some(t) && CallsOnly(step)
    ensures t.scopes == s.scopes && SameInFlight(s, t)
  {
    match step
    case Begin(_, _) =>
    case Commit(_) =>
    case NextChild(_) =>
    case PassQuiet(_) =>
    case RunHeld(_) =>
    case Return(_) =>
  }

  lemma OthersKeepOperations(s: State, t: State, step: Step)
    requires Next(s, step) == Some(t) && !CallsOnly(step)
    requires !step.CreateRoot? && !step.CreateChild? && !step.Enter? && !step.Exit?
    ensures SameOperations(s, t)
  {
    if step.Dispose? {
      DisposeKeepsOperations(s, t, step.call, step.scope, step.thread);
    } else if step.Register? || step.DisposeOne? || step.Fail? {
      ListsKeepOperations(s, t, step);
    } else {
      StatusKeepsOperations(s, t, step);
    }
  }

  lemma RegisterListsKeepOperations(s: State, t: State, id: Id, scope: Id)
    requires DoRegister(s, id, scope) == Some(t)
    ensures SameOperations(s, t)
  {
  }

  lemma DisposeOneListsKeepOperations(s: State, t: State, call: Id, id: Id)
    requires DoDisposeOne(s, call, id) == Some(t)
    ensures SameOperations(s, t)
  {
    hide Without;
  }

  lemma FailListsKeepOperations(s: State, t: State, call: Id)
    requires DoFail(s, call) == Some(t)
    ensures SameOperations(s, t)
  {
    hide Deactivated;
  }

  lemma ListsKeepOperations(s: State, t: State, step: Step)
    requires Next(s, step) == Some(t) && (step.Register? || step.DisposeOne? || step.Fail?)
    ensures SameOperations(s, t)
  {
    hide SameOperations, DoDisposeOne, DoFail, DoRegister;
    match step
    case Register(id, scope) => RegisterListsKeepOperations(s, t, id, scope);
    case DisposeOne(call, id) => DisposeOneListsKeepOperations(s, t, call, id);
    case Fail(call) => FailListsKeepOperations(s, t, call);
  }

  lemma QuiesceStatusKeepsOperations(s: State, t: State, scope: Id)
    requires DoQuiesce(s, scope) == Some(t)
    ensures SameOperations(s, t)
  {
  }

  lemma FinishStatusKeepsOperations(s: State, t: State, call: Id)
    requires DoFinish(s, call) == Some(t)
    ensures SameOperations(s, t)
  {
  }

  lemma DetachStatusKeepsOperations(s: State, t: State, call: Id)
    requires DoDetach(s, call) == Some(t)
    ensures SameOperations(s, t)
  {
    hide WithoutAll;
  }

  lemma StatusKeepsOperations(s: State, t: State, step: Step)
    requires Next(s, step) == Some(t) && (step.Quiesce? || step.Finish? || step.Detach?)
    ensures SameOperations(s, t)
  {
    hide SameOperations, DoDetach, DoFinish, DoQuiesce;
    match step
    case Quiesce(scope) => QuiesceStatusKeepsOperations(s, t, scope);
    case Finish(call) => FinishStatusKeepsOperations(s, t, call);
    case Detach(call) => DetachStatusKeepsOperations(s, t, call);
  }

  lemma DisposeKeepsOperations(s: State, t: State, call: Id, scope: Id, thread: Id)
    requires DoDispose(s, call, scope, thread) == Some(t)
    ensures SameOperations(s, t)
  {
    hide Deactivated;
  }

  lemma CountedKept(s: State, t: State, step: Step)
    requires Counted(s) && Next(s, step) == Some(t)
    ensures Counted(t)
  {
    if CallsOnly(step) {
      CallsKeepOperations(s, t, step);
      CountedSame(s, t);
    } else if step.CreateRoot? || step.CreateChild? {
      CountedCreate(s, t, step.id);
    } else if step.Enter? {
      CountedEnter(s, t, step.call, step.scope);
    } else if step.Exit? {
      CountedExit(s, t, step.call);
    } else {
      hide Counted, Next;
      OthersKeepOperations(s, t, step);
      CountedSame(s, t);
    }
  }

  // ------------------------------------------------------------------ owners

  /** Owners stay or end, and scopes stay as far as owners look at them. */
  ghost predicate SameOwners(s: State, t: State) {
    && t.scopes.Keys == s.scopes.Keys && t.registry.Keys == s.registry.Keys
    && (forall id | id in s.registry :: t.registry[id].scope == s.registry[id].scope)
    && (forall scope | scope in s.scopes :: SameForOwner(s.scopes[scope], t.scopes[scope]))
    && (forall c | c in t.calls && t.calls[c].Owner? ::
          c in s.calls && s.calls[c].Owner? && Continues(s.calls[c], t.calls[c]))
  }

  /** A call by the same owner, further on but in the same phase. */
  ghost predicate Continues(before: Call, after: Call)
    requires before.Owner? && after.Owner?
  {
    && after.scope == before.scope && after.thread == before.thread && after.phase == before.phase
    && forall id | id in after.held :: id in before.held
  }

  ghost predicate SameForOwner(before: Scope, after: Scope) {
    && after.disposing == before.disposing && after.complete == before.complete
    && after.operations <= before.operations
    && (after.status == before.status || (before.status.Active? && after.status.Quiescing?))
    && (before.registrations == [] ==> after.registrations == [])
  }

  lemma OwnedSame(s: State, t: State)
    requires Owned(s) && SameOwners(s, t)
    ensures Owned(t)
  {
  }

  /** Admission: what an ACTIVE scope takes in does not concern an owner. */
  lemma OwnedAdmit(s: State, t: State, scope: Id)
    requires Owned(s) && scope in s.scopes && s.scopes[scope].status.Active? && t.scopes.Keys == s.scopes.Keys
    requires s.registry.Keys <= t.registry.Keys && forall id | id in s.registry :: t.registry[id] == s.registry[id]
    requires forall other | other in s.scopes && other != scope :: t.scopes[other] == s.scopes[other]
    requires t.scopes[scope].status.Active? && t.scopes[scope].disposing == s.scopes[scope].disposing
             && t.scopes[scope].complete == s.scopes[scope].complete
    requires forall c | c in t.calls && t.calls[c].Owner? :: c in s.calls && t.calls[c] == s.calls[c]
    ensures Owned(t)
  {
  }

  lemma OwnedCreate(s: State, t: State, id: Id)
    requires Owned(s) && id !in s.scopes && t.calls == s.calls && t.registry == s.registry
    requires t.scopes.Keys == s.scopes.Keys + {id}
    requires t.scopes[id] == NewScope(None) || exists parent :: t.scopes[id] == NewScope(Some(parent))
    requires forall scope | scope in s.scopes :: SameForOwner(s.scopes[scope], t.scopes[scope])
    ensures Owned(t)
  {
  }

  lemma OwnedDispose(s: State, t: State, call: Id, scope: Id, thread: Id)
    requires Listed(s) && Owned(s) && DoDispose(s, call, scope, thread) == Some(t)
    ensures Owned(t)
  {
    var it := s.scopes[scope];
    if !it.status.Disposed? && it.disposing.None? {
      ListActive(s, scope);
      NobodyOwns(s, scope);
      hide Listed, Owned;
      NewOwner(s, t, call, scope, thread);
    } else {
      OwnedSame(s, t);
    }
  }

  lemma NobodyOwns(s: State, scope: Id)
    requires Owned(s) && scope in s.scopes && s.scopes[scope].disposing.None?
    ensures forall c | c in s.calls && s.calls[c].Owner? :: s.calls[c].scope != scope
  {
  }

  lemma NewOwner(s: State, t: State, call: Id, scope: Id, thread: Id)
    requires Owned(s) && scope in s.scopes && call !in s.calls && call in t.calls && t.scopes.Keys == s.scopes.Keys
    requires !s.scopes[scope].status.Disposed? && s.scopes[scope].disposing.None?
    requires forall c | c in s.calls && s.calls[c].Owner? :: s.calls[c].scope != scope
    requires t.scopes[scope].status.Quiescing? && t.scopes[scope].disposing == Some(thread)
             && t.scopes[scope].registrations == [] && t.scopes[scope].complete == s.scopes[scope].complete
    requires forall other | other in s.scopes && other != scope :: t.scopes[other] == s.scopes[other]
    requires t.registry.Keys == s.registry.Keys && forall id | id in s.registry :: t.registry[id].scope == s.registry[id].scope
    requires t.calls.Keys == s.calls.Keys + {call} && forall c | c in s.calls :: t.calls[c] == s.calls[c]
    requires var it := t.calls[call];
             && it.Owner? && it.scope == scope && it.thread == thread && it.phase.Children?
             && forall id | id in it.held :: id in s.registry && s.registry[id].scope == scope
    ensures Owned(t)
  {
  }

  lemma OwnedPass(s: State, t: State, call: Id)
    requires Counted(s) && Owned(s) && DoPassQuiet(s, call) == Some(t)
    ensures Owned(t)
  {
  }

  lemma OwnedFinish(s: State, t: State, call: Id)
    requires Owned(s) && DoFinish(s, call) == Some(t)
    ensures Owned(t)
  {
    var scope := s.calls[call].scope;
    assert forall c | c in t.calls && t.calls[c].Owner? :: t.calls[c].scope != scope;
  }

  lemma CallsKeepOwners(s: State, t: State, step: Step)
    requires Next(s, step) == Some(t)
    requires step.Begin? || step.Commit? || step.NextChild? || step.Return? || step.RunHeld?
    ensures SameOwners(s, t)
  {
    match step
    case Begin(_, _) =>
    case Commit(_) =>
    case NextChild(_) =>
    case Return(_) =>
    case RunHeld(_) =>
  }

  lemma ScopesKeepOwners(s: State, t: State, step: Step)
    requires Next(s, step) == Some(t) && (step.DisposeOne? || step.Fail? || step.Exit?)
    ensures SameOwners(s, t)
  {
    match step
    case DisposeOne(_, _) =>
    case Fail(_) =>
    case Exit(_) =>
  }

  lemma StatusKeepsOwners(s: State, t: State, step: Step)
    requires Next(s, step) == Some(t) && (step.Quiesce? || step.Detach?)
    ensures SameOwners(s, t)
  {
    match step
    case Quiesce(_) =>
    case Detach(_) =>
  }

  lemma OthersKeepOwners(s: State, t: State, step: Step)
    requires Next(s, step) == Some(t)
    requires !step.CreateRoot? && !step.CreateChild? && !step.Register? && !step.Enter?
    requires !step.Dispose? && !step.PassQuiet? && !step.Finish?
    ensures SameOwners(s, t)
  {
    hide Next, SameOwners;
    if step.DisposeOne? || step.Fail? || step.Exit? {
      ScopesKeepOwners(s, t, step);
    } else if step.Quiesce? || step.Detach? {
      StatusKeepsOwners(s, t, step);
    } else {
      CallsKeepOwners(s, t, step);
    }
  }

  lemma OwnedKept(s: State, t: State, step: Step)
    requires Listed(s) && Counted(s) && Owned(s) && Next(s, step) == Some(t)
    ensures Owned(t)
  {
    hide Owned, Listed, Counted;
    match step
    case CreateRoot(id) => OwnedCreate(s, t, id);
    case CreateChild(id, _) => OwnedCreate(s, t, id);
    case Register(_, scope) => OwnedAdmit(s, t, scope);
    case Enter(_, scope) => OwnedAdmit(s, t, scope);
    case Dispose(call, scope, thread) => OwnedDispose(s, t, call, scope, thread);
    case PassQuiet(call) => OwnedPass(s, t, call);
    case Finish(call) => OwnedFinish(s, t, call);
    case _ =>
      OthersKeepOwners(s, t, step);
      OwnedSame(s, t);
  }

  // -------------------------------------------------------------- every run

  ghost predicate Safe(s: State) {
    Listed(s) && Ticketed(s) && Counted(s) && Owned(s)
  }

  lemma SafeKept(s: State, t: State, step: Step)
    requires Safe(s) && Next(s, step) == Some(t)
    ensures Safe(t)
  {
    hide Listed, Ticketed, Counted, Owned, Next;
    ListedKept(s, t, step);
    TicketedKept(s, t, step);
    CountedKept(s, t, step);
    OwnedKept(s, t, step);
  }

  /** The states that an interleaving goes through. */
  function States(steps: seq<Step>): seq<State> {
    Trace(START, steps, Next)
  }

  /** In every state of every interleaving: each disposer has been called at most once and
      its call is never lost, the lists hold exactly the active registrations, the flag says
      whether an operation is active, and a scope has at most one disposing call. */
  lemma {:induction false} AlwaysSafe(steps: seq<Step>, i: nat)
    requires i < |States(steps)|
    ensures Safe(States(steps)[i])
  {
    if i > 0 {
      AlwaysSafe(steps, i - 1);
      TraceSteps(START, steps, Next, i - 1);
      hide Safe, Next;
      SafeKept(States(steps)[i - 1], States(steps)[i], steps[i - 1]);
    }
  }

  /** Whenever a disposing call runs a disposer, it is one of its own scope that never ran
      before, and no admitted operation of the scope is in flight. */
  lemma QuietDisposal(s: State, t: State, call: Id)
    requires Safe(s) && Next(s, RunHeld(call)) == Some(t) && s.calls[call].Owner?
    ensures InFlight(s, s.calls[call].scope) == {}
    ensures s.calls[call].held != []
    ensures var id := s.calls[call].held[|s.calls[call].held| - 1];
            && id in s.registry && id in t.registry
            && s.registry[id].scope == s.calls[call].scope && s.registry[id].runs == 0 && t.registry[id].runs == 1
  {
    hide *;
    RunsOwn(s, t, call);
    SafeParts(s);
    NothingInFlight(s, call);
    HeldNeverRan(s, call, s.calls[call].held[|s.calls[call].held| - 1]);
  }

  lemma SafeParts(s: State)
    requires Safe(s)
    ensures Counted(s) && Owned(s) && Exclusive(s)
  {
    hide Counted, Owned, Exclusive, NotLost, Listed;
  }

  lemma RunsOwn(s: State, t: State, call: Id)
    requires Next(s, RunHeld(call)) == Some(t)
    ensures call in s.calls
    ensures s.calls[call].Owner? ==>
              var it := s.calls[call];
              && it.phase.Own? && it.held != []
              && var id := it.held[|it.held| - 1];
                 id in it.Held() && id in s.registry && id in t.registry && t.registry[id].runs == s.registry[id].runs + 1
  {
  }

  lemma HeldNeverRan(s: State, call: Id, id: Id)
    requires Exclusive(s) && call in s.calls && id in s.calls[call].Held()
    ensures id in s.registry && s.registry[id].runs == 0
  {
  }

  lemma NothingInFlight(s: State, call: Id)
    requires Counted(s) && Owned(s) && call in s.calls && s.calls[call].Owner? && s.calls[call].phase.Own?
    ensures InFlight(s, s.calls[call].scope) == {}
    ensures forall id | id in s.calls[call].held :: id in s.registry && s.registry[id].scope == s.calls[call].scope
  {
    assert |InFlight(s, s.calls[call].scope)| == 0;
  }

  /** Once disposal is over, nothing of the scope is registered, and a disposer that has not
      run yet is in the hands of the individual call or the rollback that took it first. */
  lemma DisposedIsClean(s: State, scope: Id, id: Id)
    requires Safe(s) && scope in s.scopes && s.scopes[scope].status.Disposed?
    requires id in s.registry && s.registry[id].scope == scope
    ensures !s.registry[id].active && s.scopes[scope].registrations == []
    ensures s.registry[id].runs == 1 || exists c :: c in s.calls && s.calls[c].Runner? && id in s.calls[c].held
  {
    assert id !in s.scopes[scope].registrations;
    if s.registry[id].runs == 0 {
      var c :| c in s.calls && id in s.calls[c].Held();
      assert !s.calls[c].Owner?;
    }
  }

  function Members(s: State, scope: Id): set<Id> {
    set id | id in s.registry && s.registry[id].scope == scope
  }

  function Offspring(s: State, scope: Id): set<Id> {
    set id | id in s.scopes && s.scopes[id].parent == Some(scope)
  }

  /** The scope has left ACTIVE for good: nothing is admitted from `s` to `t`. */
  ghost predicate Closed(s: State, t: State, scope: Id) {
    && scope in t.scopes && !t.scopes[scope].status.Active?
    && Members(t, scope) == Members(s, scope)
    && InFlight(t, scope) <= InFlight(s, scope)
    && Offspring(t, scope) == Offspring(s, scope)
  }

  ghost predicate Shut(s: State, scope: Id) {
    scope in s.scopes && !s.scopes[scope].status.Active?
  }

  lemma CallsStayShut(s: State, t: State, step: Step, scope: Id)
    requires Shut(s, scope) && Next(s, step) == Some(t) && (CallsOnly(step) || step.Exit? || step.Enter?)
    ensures Closed(s, t, scope)
  {
    match step
    case Begin(_, _) =>
    case Commit(_) =>
    case NextChild(_) =>
    case PassQuiet(_) =>
    case RunHeld(_) =>
    case Return(_) =>
    case Exit(_) =>
    case Enter(_, _) =>
  }

  lemma RegisterScopesStayShut(s: State, t: State, id: Id, at: Id, scope: Id)
    requires Shut(s, scope) && DoRegister(s, id, at) == Some(t)
    ensures Closed(s, t, scope)
  {
  }

  lemma DisposeOneScopesStayShut(s: State, t: State, call: Id, id: Id, scope: Id)
    requires Shut(s, scope) && DoDisposeOne(s, call, id) == Some(t)
    ensures Closed(s, t, scope)
  {
    hide Without;
  }

  lemma FailScopesStayShut(s: State, t: State, call: Id, scope: Id)
    requires Shut(s, scope) && DoFail(s, call) == Some(t)
    ensures Closed(s, t, scope)
  {
  }

  lemma DisposeScopesStayShut(s: State, t: State, call: Id, at: Id, thread: Id, scope: Id)
    requires Shut(s, scope) && DoDispose(s, call, at, thread) == Some(t)
    ensures Closed(s, t, scope)
  {
  }

  lemma ScopesStayShut(s: State, t: State, step: Step, scope: Id)
    requires Shut(s, scope) && Next(s, step) == Some(t)
    requires step.Register? || step.DisposeOne? || step.Fail? || step.Dispose?
    ensures Closed(s, t, scope)
  {
    hide Closed, Shut, DoDispose, DoDisposeOne, DoFail, DoRegister;
    match step
    case Register(id, at) => RegisterScopesStayShut(s, t, id, at, scope);
    case DisposeOne(call, id) => DisposeOneScopesStayShut(s, t, call, id, scope);
    case Fail(call) => FailScopesStayShut(s, t, call, scope);
    case Dispose(call, at, thread) => DisposeScopesStayShut(s, t, call, at, thread, scope);
  }

  lemma StatusStaysShut(s: State, t: State, step: Step, scope: Id)
    requires Shut(s, scope) && Next(s, step) == Some(t)
    requires step.CreateRoot? || step.CreateChild? || step.Quiesce? || step.Finish? || step.Detach?
    ensures Closed(s, t, scope)
  {
    hide WithoutAll;
    match step
    case CreateRoot(_) =>
    case CreateChild(_, _) =>
    case Quiesce(_) =>
    case Finish(_) =>
    case Detach(_) =>
  }

  /** Once a scope has left ACTIVE, no registration, no operation and no child is admitted,
      in whatever way the run goes on. */
  lemma {:induction false} ClosedForGood(steps: seq<Step>, i: nat, j: nat, scope: Id)
    requires i <= j < |States(steps)| && Shut(States(steps)[i], scope)
    ensures Closed(States(steps)[i], States(steps)[j], scope)
    decreases j
  {
    if i < j {
      ClosedForGood(steps, i, j - 1, scope);
      TraceSteps(START, steps, Next, j - 1);
      hide Next, States, Closed;
      ClosedOn(States(steps)[i], States(steps)[j - 1], States(steps)[j], steps[j - 1], scope);
    } else {
      hide States;
    }
  }

  lemma ClosedOn(first: State, s: State, t: State, step: Step, scope: Id)
    requires Closed(first, s, scope) && Next(s, step) == Some(t)
    ensures Closed(first, t, scope)
  {
    assert Shut(s, scope);
    hide Next, Members, InFlight, Offspring;
    if CallsOnly(step) || step.Exit? || step.Enter? {
      CallsStayShut(s, t, step, scope);
    } else if step.Register? || step.DisposeOne? || step.Fail? || step.Dispose? {
      ScopesStayShut(s, t, step, scope);
    } else {
      StatusStaysShut(s, t, step, scope);
    }
  }

  /** Some call has made itself the one that disposes of the scope. */
  ghost predicate Claimed(s: State, scope: Id) {
    scope in s.scopes && (s.scopes[scope].disposing.Some? || s.scopes[scope].status.Disposed?)
  }

  lemma ClaimedKept(s: State, t: State, step: Step, scope: Id)
    requires Claimed(s, scope) && Next(s, step) == Some(t)
    ensures Claimed(t, scope)
  {
    hide Without, WithoutAll, Deactivated, Drop;
    if CallsOnly(step) {
      CallsKeepOperations(s, t, step);
    } else if step.Register? || step.DisposeOne? || step.Fail? || step.Dispose? {
      ClaimedInLists(s, t, step, scope);
    } else {
      ClaimedElsewhere(s, t, step, scope);
    }
  }

  lemma ClaimedInLists(s: State, t: State, step: Step, scope: Id)
    requires Claimed(s, scope) && Next(s, step) == Some(t)
    requires step.Register? || step.DisposeOne? || step.Fail? || step.Dispose?
    ensures Claimed(t, scope)
  {
    hide Without, Deactivated;
    match step
    case Register(_, _) =>
    case DisposeOne(_, _) =>
    case Fail(_) =>
    case Dispose(_, _, _) =>
  }

  lemma ClaimedElsewhere(s: State, t: State, step: Step, scope: Id)
    requires Claimed(s, scope) && Next(s, step) == Some(t) && !CallsOnly(step)
    requires !step.Register? && !step.DisposeOne? && !step.Fail? && !step.Dispose?
    ensures Claimed(t, scope)
  {
    hide WithoutAll, Drop;
    match step
    case CreateRoot(_) =>
    case CreateChild(_, _) =>
    case Enter(_, _) =>
    case Exit(_) =>
    case Quiesce(_) =>
    case Finish(_) =>
    case Detach(_) =>
  }

  /** A scope is claimed once in a run: whoever calls dispose later becomes no owner. */
  lemma {:induction false} ClaimedOnce(steps: seq<Step>, i: nat, j: nat, scope: Id)
    requires i <= j && j + 1 < |States(steps)| && Claimed(States(steps)[i], scope)
    requires steps[j].Dispose? && steps[j].scope == scope
    ensures Claimed(States(steps)[j], scope)
    ensures forall c | c in States(steps)[j + 1].calls && States(steps)[j + 1].calls[c].Owner? ::
              c in States(steps)[j].calls && States(steps)[j].calls[c] == States(steps)[j + 1].calls[c]
  {
    StaysClaimed(steps, i, j, scope);
    TraceSteps(START, steps, Next, j);
  }

  lemma {:induction false} StaysClaimed(steps: seq<Step>, i: nat, j: nat, scope: Id)
    requires i <= j < |States(steps)| && Claimed(States(steps)[i], scope)
    ensures Claimed(States(steps)[j], scope)
    decreases j
  {
    if i < j {
      StaysClaimed(steps, i, j - 1, scope);
      TraceSteps(START, steps, Next, j - 1);
      hide Next;
      ClaimedKept(States(steps)[j - 1], States(steps)[j], steps[j - 1], scope);
    }
  }
}
