/** A tree of registration scopes used by one thread: the methods that change it, proved
    against what the acts come to. */
module ScopeTree {
  import opened Outcomes
  import opened Sequences
  import opened ScopeOrder
  import opened ScopeActs

  // -------------------------------------------------------------- the class

  class ScopeForest {
    var nodes: seq<Node>
    var parents: Parents
    var owners: seq<nat>
    var active: set<Id>
    var ran: seq<Id>
    const fails: Id -> bool

    ghost predicate Valid()
      reads this
    {
      Fit(State())
    }

    ghost function State(): Forest
      reads this
    {
      Forest(nodes, parents, owners, active, ran)
    }

    constructor (fails: Id -> bool)
      ensures Valid() && State() == Forest([], [], [], {}, []) && this.fails == fails
    {
      this.fails := fails;
      nodes, parents, owners, active, ran := [], [], [], {}, [];
    }

    /** A new scope, below an active one if it has a parent. */
    method Create(parent: Option<nat>) returns (created: Option<nat>)
      requires Valid() && (parent.Some? ==> parent.value < |nodes|)
      modifies this`nodes, this`parents
      ensures Valid()
      ensures created.None? <==> parent.Some? && !old(nodes)[parent.value].status.Active?
      ensures created.None? ==> nodes == old(nodes) && parents == old(parents)
      ensures created.Some? ==>
                && created.value == |old(nodes)| && parents == old(parents) + [parent]
                && nodes == (if parent.Some? then
                               old(nodes)[parent.value := old(nodes)[parent.value].(children := old(nodes)[parent.value].children + [created.value])]
                             else old(nodes)) + [Node(Active, [], [])]
    {
      if parent.Some? && !nodes[parent.value].status.Active? {
        return None;
      }
      CreateKeepsShape(nodes, parents, parent);
      var x := |nodes|;
      if parent.Some? {
        nodes := nodes[parent.value := nodes[parent.value].(children := nodes[parent.value].children + [x])];
      }
      nodes := nodes + [Node(Active, [], [])];
      parents := parents + [parent];
      CreateKeepsLists(old(nodes), nodes, owners, active);
      return Some(x);
    }

    method Register(x: nat) returns (id: Option<Id>)
      requires Valid() && x < |nodes|
      modifies this`nodes, this`owners, this`active
      ensures Valid()
      ensures id.None? <==> !old(nodes)[x].status.Active?
      ensures id.None? ==> nodes == old(nodes) && owners == old(owners) && active == old(active)
      ensures id.Some? ==>
                && id.value == |old(owners)| && owners == old(owners) + [x] && active == old(active) + {id.value}
                && nodes == old(nodes)[x := old(nodes)[x].(registrations := old(nodes)[x].registrations + [id.value])]
    {
      if !nodes[x].status.Active? {
        return None;
      }
      var next := |owners|;
      SameShape(nodes, parents, x, nodes[x].registrations + [next]);
      RegisterKeepsLists(nodes, owners, active, x);
      nodes := nodes[x := nodes[x].(registrations := nodes[x].registrations + [next])];
      owners := owners + [x];
      active := active + {next};
      return Some(next);
    }

    /** Disposes of one registration; the second time nothing happens. */
    method DisposeOne(id: Id) returns (failed: bool)
      requires Valid() && id < |owners|
      modifies this`nodes, this`active, this`ran
      ensures Valid()
      ensures id !in old(active) ==> nodes == old(nodes) && active == old(active) && ran == old(ran) && !failed
      ensures id in old(active) ==>
                && ran == old(ran) + [id] && failed == fails(id) && active == old(active) - {id}
                && nodes == old(nodes)[owners[id] := old(nodes)[owners[id]].(
                     registrations := Without(old(nodes)[owners[id]].registrations, id))]
    {
      if id !in active {
        return false;
      }
      var x := owners[id];
      assert NodeShaped(nodes, parents, x);
      WithoutKeeps(nodes[x].registrations, id);
      SameShape(nodes, parents, x, Without(nodes[x].registrations, id));
      DropKeepsLists(nodes, owners, active, x, id);
      nodes := nodes[x := nodes[x].(registrations := Without(nodes[x].registrations, id))];
      active := active - {id};
      ran := ran + [id];
      return fails(id);
    }

    /** Undoes the registrations beyond a checkpoint, the latest first. */
    method Rollback(x: nat, checkpoint: nat) returns (failures: seq<Id>)
      requires Valid() && x < |nodes|
      modifies this`nodes, this`active, this`ran
      ensures Valid()
      ensures var taken := From(old(nodes)[x].registrations, checkpoint);
              && ran == old(ran) + Reverse(taken) && failures == Failing(Reverse(taken), fails)
              && active == old(active) - (set id | id in taken)
              && nodes == old(nodes)[x := old(nodes)[x].(registrations := UpTo(old(nodes)[x].registrations, checkpoint))]
    {
      var ids := nodes[x].registrations;
      assert NodeShaped(nodes, parents, x);
      SameShape(nodes, parents, x, UpTo(ids, checkpoint));
      CutKeepsLists(nodes, owners, active, x, checkpoint);
      var taken := From(ids, checkpoint);
      nodes := nodes[x := nodes[x].(registrations := UpTo(ids, checkpoint))];
      active := active - (set id | id in taken);
      failures := RunOwn(taken);
    }

    /** Stops admission to a scope and to all under it. */
    method Quiesce(x: nat)
      requires Valid() && x < |nodes|
      modifies this`nodes
      ensures Valid() && nodes == Hushed(old(nodes), parents, x)
      decreases |nodes| - x
    {
      ghost var before := nodes;
      if nodes[x].status.Disposed? {
        GoneIsHushed(nodes, parents, x);
        return;
      }
      HushKeepsShape(nodes, parents, x);
      if nodes[x].status.Active? {
        nodes := nodes[x := nodes[x].(status := Quiescing)];
      }
      var children := nodes[x].children;
      var i := 0;
      while i < |children|
        invariant 0 <= i <= |children| && children == before[x].children && Valid()
        invariant PartlyHushed(before, nodes, parents, x, i)
      {
        assert children[i] in children && NodeShaped(before, parents, x);
        ghost var now := nodes;
        Quiesce(children[i]);
        HushedNext(before, now, nodes, parents, x, i);
        i := i + 1;
      }
      HushedEnds(before, nodes, parents, x);
    }

    /** Disposes of a scope: its children, the latest first, then its own registrations, the
        latest first. A disposer that raises does not stop the others. */
    method Dispose(x: nat) returns (failures: seq<Id>)
      requires Valid() && x < |nodes|
      modifies this
      ensures Valid() && parents == old(parents) && owners == old(owners)
      ensures old(nodes[x]).status.Disposed? ==>
                nodes == old(nodes) && active == old(active) && ran == old(ran) && failures == []
      ensures !old(nodes[x]).status.Disposed? ==>
                && Removed(old(nodes), nodes, parents, x)
                && ran == old(ran) + Order(old(nodes), x)
                && active == old(active) - Members(Order(old(nodes), x))
                && failures == Failing(Order(old(nodes), x), fails)
      decreases |nodes| - x, 1
    {
      failures := [];
      if nodes[x].status.Disposed? {
        return;
      }
      ghost var before := nodes;
      var own := nodes[x].registrations;
      var children := nodes[x].children;
      StartKeepsShape(nodes, parents, x);
      StartKeepsLists(nodes, owners, active, x);
      PartlyStarts(nodes, parents, x);
      active := active - (set id | id in own);
      nodes := nodes[x := Node(Quiescing, [], children)];
      failures := DisposeChildren(x, before);
      var ownFailures := RunOwn(own);
      failures := failures + ownFailures;
      FailingConcat(OrderOf(before, x, children), Reverse(own), fails);
      Regroup(old(ran), OrderOf(before, x, children), Reverse(own));
      ghost var now := nodes;
      Forget(x);
      PartlyEnds(before, now, nodes, parents, x);
      RemovedActive(old(State()), State(), x);
    }

    /** The children in turn, the latest first; each is disposed of and leaves the list. */
    method DisposeChildren(x: nat, ghost before: seq<Node>) returns (failures: seq<Id>)
      requires Valid() && x < |nodes| && TreeShaped(before, parents) && |before| == |nodes|
      requires Partly(before, nodes, parents, x, |before[x].children|)
      modifies this
      ensures Valid() && parents == old(parents) && owners == old(owners)
      ensures |before| == |nodes| && Partly(before, nodes, parents, x, 0)
      ensures ran == old(ran) + OrderOf(before, x, before[x].children)
      ensures failures == Failing(OrderOf(before, x, before[x].children), fails)
      decreases |nodes| - x, 0
    {
      failures := [];
      var children := nodes[x].children;
      assert before[x].children[..|before[x].children|] == before[x].children;
      ghost var all := OrderOf(before, x, children);
      var i := |children|;
      hide OrderOf, Failing, Order, TreeShaped, Listed, Partly, Removed;
      while i > 0
        invariant 0 <= i <= |children| && Valid() && parents == old(parents) && owners == old(owners)
        invariant |nodes| == |before| && Partly(before, nodes, parents, x, i)
        invariant ran + OrderOf(before, x, children[..i]) == old(ran) + all
        invariant failures + Failing(OrderOf(before, x, children[..i]), fails) == Failing(all, fails)
      {
        i := i - 1;
        OrderOfLast(before, nodes, parents, x, i + 1);
        ghost var now := nodes;
        ghost var rest := OrderOf(before, x, children[..i]);
        Regroup(ran, Order(now, children[i]), rest);
        FailingConcat(Order(now, children[i]), rest, fails);
        Regroup(failures, Failing(Order(now, children[i]), fails), Failing(rest, fails));
        var more := Dispose(children[i]);
        failures := failures + more;
        PartlyNext(before, now, nodes, parents, x, i + 1);
      }
      assert children[..0] == [] && ran + [] == ran && failures + [] == failures;
    }

    /** The disposers of one scope, the latest first. */
    method RunOwn(own: seq<Id>) returns (failures: seq<Id>)
      modifies this`ran
      ensures ran == old(ran) + Reverse(own) && failures == Failing(Reverse(own), fails)
    {
      failures := [];
      assert own[..|own|] == own && own[..0] == [];
      assert Reverse([]) == [] && Failing([], fails) == [];
      hide Reverse, Failing;
      var i := |own|;
      while i > 0
        invariant 0 <= i <= |own|
        invariant ran + Reverse(own[..i]) == old(ran) + Reverse(own)
        invariant failures + Failing(Reverse(own[..i]), fails) == Failing(Reverse(own), fails)
      {
        i := i - 1;
        ReverseLast(own, i + 1);
        ghost var rest := Reverse(own[..i]);
        FailingNext(own[i], rest, fails);
        Regroup(ran, [own[i]], rest);
        ran := ran + [own[i]];
        if fails(own[i]) {
          Regroup(failures, [own[i]], Failing(rest, fails));
          failures := failures + [own[i]];
        }
      }
      assert ran + [] == ran && failures + [] == failures;
    }

    /** Marks the scope as disposed and takes it off its parent's list. */
    method Forget(x: nat)
      requires Valid() && x < |nodes| && nodes[x].children == [] && nodes[x].registrations == []
      modifies this`nodes
      ensures Valid() && |nodes| == |old(nodes)|
      ensures forall y | 0 <= y < |nodes| ::
                nodes[y] == if y == x then GONE
                            else if parents[x] == Some(y) then old(nodes)[y].(children := Without(old(nodes)[y].children, x))
                            else old(nodes)[y]
    {
      ghost var before := nodes;
      assert NodeShaped(nodes, parents, x);
      nodes := nodes[x := GONE];
      if parents[x].Some? {
        var p := parents[x].value;
        nodes := nodes[p := nodes[p].(children := Without(nodes[p].children, x))];
      }
      EndKeepsShape(before, nodes, parents, x);
      EndKeepsLists(before, nodes, owners, active, x);
    }

    /** Does one act; an act on what does not exist is none. */
    method Do(act: Act)
      requires Valid()
      modifies this
      ensures Valid() && State() == After(old(State()), act)
      decreases act, 2
    {
      ghost var f := State();
      match act {
        case Creates(parent) =>
          if parent.None? || parent.value < |nodes| {
            var _ := Create(parent);
          }
        case Registers(x) =>
          if x < |nodes| {
            var _ := Register(x);
          }
        case DisposesOne(id) =>
          if id < |owners| {
            var _ := DisposeOne(id);
          }
        case Quiesces(x) =>
          if x < |nodes| {
            Quiesce(x);
          }
        case Disposes(x) =>
          if x < |nodes| {
            var _ := Dispose(x);
            if !f.nodes[x].status.Disposed? {
              RemovedIsPruned(f.nodes, nodes, parents, x);
            }
          }
        case Transacts(x, body, raises) =>
          if x < |nodes| {
            var _, _ := Transaction(x, body, raises);
          }
      }
    }

    method DoAll(acts: seq<Act>)
      requires Valid()
      modifies this
      ensures Valid() && State() == AfterAll(old(State()), acts)
      decreases acts, 0
    {
      if acts != [] {
        Do(acts[0]);
        DoAll(acts[1..]);
      }
    }

    /** A transaction on an active scope; its body may do anything, also with other scopes and
        in transactions of its own. When it fails, what lies beyond the checkpoint is undone. */
    method Transaction(x: nat, body: seq<Act>, raises: bool) returns (admitted: bool, failures: seq<Id>)
      requires Valid() && x < |nodes|
      modifies this
      ensures Valid() && State() == After(old(State()), Transacts(x, body, raises))
      ensures admitted <==> old(nodes)[x].status.Active?
      ensures !admitted ==> State() == old(State())
      ensures admitted && !raises ==> State() == AfterAll(old(State()), body)
      ensures admitted && raises ==>
                var g := AfterAll(old(State()), body);
                && |old(nodes)| <= |g.nodes| == |nodes| && old(ran) <= g.ran <= ran
                && Undoes(old(State()), g, State(), x)
                && (NothingNew(old(State()), State(), x) <==>
                      DisposedOf(old(State()), g, x) == {} || NothingNew(old(State()), g, x))
                && failures == Failing(ran[|g.ran|..], fails)
      ensures !(admitted && raises) ==> failures == []
      decreases body, 1
    {
      failures := [];
      if !nodes[x].status.Active? {
        return false, [];
      }
      var checkpoint := |nodes[x].registrations|;
      DoAll(body);
      if raises {
        ghost var g := State();
        failures := Rollback(x, checkpoint);
        RollbackExact(old(State()), x, body);
      }
      return true, failures;
    }
  }

  lemma FailingNext(id: Id, rest: seq<Id>, fails: Id -> bool)
    ensures Failing([id] + rest, fails) == if fails(id) then [id] + Failing(rest, fails) else Failing(rest, fails)
  {
    assert ([id] + rest)[1..] == rest;
  }

  /** A failed transaction that leaves something behind: two registrations are made before it;
      its body disposes of the first and makes a third. The third stays. */
  method LeftBehind(fails: Id -> bool) returns (admitted: bool, left: seq<Id>, called: seq<Id>)
    ensures admitted && left == [1, 2] && called == [0]
  {
    hide Fit, After, AfterAll, Undoes, NothingNew, DisposedOf, Reverse, Failing;
    var forest := TwoRegistered(fails);
    LeavesThird(forest.State());
    var failures;
    admitted, failures := forest.Transaction(0, [DisposesOne(0), Registers(0)], true);
    left, called := forest.nodes[0].registrations, forest.ran;
  }

  method TwoRegistered(fails: Id -> bool) returns (forest: ScopeForest)
    ensures fresh(forest) && forest.Valid() && OneScope(forest.State(), [0, 1], 2, [])
  {
    forest := new ScopeForest(fails);
    hide Fit;
    var _ := forest.Create(None);
    assert OneScope(forest.State(), [], 0, []);
    var _ := forest.Register(0);
    assert OneScope(forest.State(), [0], 1, []) by { assert [] + [0] == [0]; }
    var _ := forest.Register(0);
    assert OneScope(forest.State(), [0, 1], 2, []) by { assert [0] + [1] == [0, 1]; }
  }

  /** One scope with the given registrations, of `made` that were made, and the disposers called. */
  ghost predicate OneScope(f: Forest, listed: seq<Id>, made: nat, ran: seq<Id>) {
    && f.nodes == [Node(Active, listed, [])] && f.active == Members(listed) && f.ran == ran
    && f.owners == seq(made, _ => 0)
  }

  lemma LeavesThird(f: Forest)
    requires Fit(f) && OneScope(f, [0, 1], 2, [])
    ensures var h := After(f, Transacts(0, [DisposesOne(0), Registers(0)], true));
            |h.nodes| == 1 && h.nodes[0].registrations == [1, 2] && h.ran == [0]
  {
    var g := After(f, DisposesOne(0));
    DropsFirst(f);
    RegistersThird(g);
    NothingBeyond();
    hide Fit, Passed, After, AfterAll, Reverse;
    AfterTwo(f, DisposesOne(0), Registers(0));
    FailedIsRolledBack(f, 0, [DisposesOne(0), Registers(0)]);
  }

  lemma AfterTwo(f: Forest, first: Act, second: Act)
    requires Fit(f)
    ensures AfterAll(f, [first, second]) == After(After(f, first), second)
  {
    hide Fit, Passed, After;
    var g := After(f, first);
    assert [first, second][1..] == [second] && [second][1..] == [];
    assert AfterAll(g, [second]) == AfterAll(After(g, second), []);
  }

  lemma FailedIsRolledBack(f: Forest, x: nat, body: seq<Act>)
    requires Fit(f) && x < |f.nodes| && f.nodes[x].status.Active?
    ensures |f.nodes| <= |AfterAll(f, body).nodes|
    ensures After(f, Transacts(x, body, true)) == RolledBack(AfterAll(f, body), x, |f.nodes[x].registrations|)
  {
    hide AfterAll, Fit, RolledBack;
  }

  lemma DropsFirst(f: Forest)
    requires Fit(f) && OneScope(f, [0, 1], 2, [])
    ensures OneScope(After(f, DisposesOne(0)), [1], 2, [0])
  {
    assert Without([0, 1], 0) == [1] by { assert [0, 1][1..] == [1] && [1][1..] == []; }
    assert 0 in [0, 1];
    hide Fit, Passed;
  }

  lemma RegistersThird(f: Forest)
    requires Fit(f) && OneScope(f, [1], 2, [0])
    ensures OneScope(After(f, Registers(0)), [1, 2], 3, [0])
  {
    assert [1, 2] == [1] + [2];
    hide Fit, Passed;
  }

  lemma NothingBeyond()
    ensures Reverse([]) == [] && From([1, 2], 2) == [] && UpTo([1, 2], 2) == [1, 2]
  {
  }
}
