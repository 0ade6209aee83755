/** What one may do with a tree of scopes, what each act comes to, and what holds over any
    number of acts: what a transaction undoes, and what admits no more. */
module ScopeActs {
  import opened Outcomes
  import opened ScopeOrder

  // ------------------------------------------------- lists cut at a length

  /** How many of the listed registrations were made before number `mark`. */
  function Kept(now: seq<Id>, mark: nat): (n: nat)
    ensures n <= |now|
    ensures forall i | 0 <= i < n :: now[i] < mark
    ensures n < |now| ==> now[n] >= mark
  {
    if now == [] || now[0] >= mark then 0 else 1 + Kept(now[1..], mark)
  }

  /** The registrations made from number `mark` on that are still listed. */
  function Made(now: seq<Id>, mark: nat): seq<Id> {
    now[Kept(now, mark)..]
  }

  /** A list some time after it was `begun`, when the next registration was to be `mark`. */
  ghost predicate Since(begun: seq<Id>, mark: nat, now: seq<Id>) {
    && Increasing(begun) && Increasing(now)
    && (forall id | id in begun :: id < mark)
    && (forall id | id in now && id < mark :: id in begun)
  }

  function Members(ids: seq<Id>): set<Id> {
    set id | id in ids
  }

  lemma MembersHead(ids: seq<Id>)
    requires ids != []
    ensures Members(ids) == {ids[0]} + Members(ids[1..])
  {
    assert ids == [ids[0]] + ids[1..];
  }

  lemma {:induction false} IncreasingCount(ids: seq<nat>)
    requires Increasing(ids)
    ensures |Members(ids)| == |ids|
  {
    if ids != [] {
      IncreasingTail(ids);
      IncreasingCount(ids[1..]);
      MembersHead(ids);
      assert ids[0] !in ids[1..];
    }
  }

  /** The kept ones are those of `begun` that are still listed. */
  lemma KeptMembers(begun: seq<Id>, mark: nat, now: seq<Id>)
    requires Since(begun, mark, now)
    ensures Increasing(now[..Kept(now, mark)])
    ensures forall id :: id in now[..Kept(now, mark)] <==> id in now && id in begun
  {
    var n := Kept(now, mark);
    IncreasingPrefix(now, n);
    forall id | id in now && id < mark ensures id in now[..n] {
      var i :| 0 <= i < |now| && now[i] == id;
      assert i < n;
    }
    forall id | id in now[..n] ensures id in now && id < mark {
      var i :| 0 <= i < n && now[i] == id;
    }
  }

  lemma MadeMembers(begun: seq<Id>, mark: nat, now: seq<Id>)
    requires Since(begun, mark, now)
    ensures forall id :: id in Made(now, mark) <==> id in now && id >= mark
  {
    KeptMembers(begun, mark, now);
    CutMembers(now, Kept(now, mark));
  }

  /** As many are missing from the kept ones as were disposed of. */
  lemma KeptCount(begun: seq<Id>, mark: nat, now: seq<Id>, disposed: set<Id>)
    requires Since(begun, mark, now) && disposed <= Members(begun)
    requires forall id | id in begun :: id in now <==> id !in disposed
    ensures Kept(now, mark) + |disposed| == |begun|
  {
    KeptMembers(begun, mark, now);
    var kept := now[..Kept(now, mark)];
    IncreasingCount(kept);
    IncreasingCount(begun);
    assert Members(kept) == Members(begun) - disposed;
  }

  /** Cutting a list at the old length leaves, of what was made since, as many as were disposed
      of before. */
  lemma CutAtLength(begun: seq<Id>, mark: nat, now: seq<Id>, disposed: set<Id>)
    requires Since(begun, mark, now) && disposed <= Members(begun)
    requires forall id | id in begun :: id in now <==> id !in disposed
    ensures UpTo(now, |begun|) == now[..Kept(now, mark)] + UpTo(Made(now, mark), |disposed|)
    ensures From(now, |begun|) == From(Made(now, mark), |disposed|)
  {
    KeptCount(begun, mark, now, disposed);
    hide Since, UpTo, From, Kept, Members;
    CutLater(now, Kept(now, mark), |begun|);
  }

  lemma CutLater(ids: seq<Id>, n: nat, checkpoint: nat)
    requires n <= |ids| && n <= checkpoint
    ensures UpTo(ids, checkpoint) == ids[..n] + UpTo(ids[n..], checkpoint - n)
    ensures From(ids, checkpoint) == From(ids[n..], checkpoint - n)
  {
  }

  /** A slice that may begin beyond the end. */
  function From(ids: seq<Id>, checkpoint: nat): seq<Id> {
    if checkpoint <= |ids| then ids[checkpoint..] else []
  }

  function UpTo(ids: seq<Id>, checkpoint: nat): seq<Id> {
    if checkpoint <= |ids| then ids[..checkpoint] else ids
  }

  lemma CutKeepsLists(nodes: seq<Node>, owners: seq<nat>, active: set<Id>, x: nat, checkpoint: nat)
    requires Listed(nodes, owners, active) && x < |nodes|
    ensures Listed(nodes[x := nodes[x].(registrations := UpTo(nodes[x].registrations, checkpoint))], owners,
                   active - (set id | id in From(nodes[x].registrations, checkpoint)))
  {
    var ids := nodes[x].registrations;
    if checkpoint <= |ids| {
      CutMembers(ids, checkpoint);
    }
  }

  lemma CutMembers(ids: seq<Id>, n: nat)
    requires Increasing(ids) && n <= |ids|
    ensures Increasing(ids[..n])
    ensures forall id :: id in ids[..n] <==> id in ids && id !in ids[n..]
  {
    assert ids == ids[..n] + ids[n..];
    forall id | id in ids[..n] ensures id !in ids[n..] {
      var i :| 0 <= i < n && ids[i] == id;
      assert forall j | n <= j < |ids| :: ids[i] < ids[j];
    }
  }

  /** Any change of a scope that keeps its status and its children keeps the tree's shape. */
  lemma SameShape(nodes: seq<Node>, parents: Parents, x: nat, registrations: seq<Id>)
    requires TreeShaped(nodes, parents) && x < |nodes| && (nodes[x].status.Disposed? ==> registrations == [])
    ensures TreeShaped(nodes[x := nodes[x].(registrations := registrations)], parents)
  {
    var next := nodes[x := nodes[x].(registrations := registrations)];
    forall y | 0 <= y < |next| ensures NodeShaped(next, parents, y) {
      assert NodeShaped(nodes, parents, y);
      if parents[y].Some? {
        assert nodes[parents[y].value].children == next[parents[y].value].children;
      }
    }
  }

  lemma CreateKeepsShape(nodes: seq<Node>, parents: Parents, parent: Option<nat>)
    requires TreeShaped(nodes, parents)
    requires parent.Some? ==> parent.value < |nodes| && nodes[parent.value].status.Active?
    ensures TreeShaped((if parent.Some? then
                          nodes[parent.value := nodes[parent.value].(children := nodes[parent.value].children + [|nodes|])]
                        else nodes) + [Node(Active, [], [])],
                       parents + [parent])
  {
    var next := (if parent.Some? then
                   nodes[parent.value := nodes[parent.value].(children := nodes[parent.value].children + [|nodes|])]
                 else nodes) + [Node(Active, [], [])];
    forall y | 0 <= y < |next| ensures NodeShaped(next, parents + [parent], y) {
      CreateKeepsNode(nodes, parents, parent, next, y);
    }
  }

  lemma CreateKeepsNode(nodes: seq<Node>, parents: Parents, parent: Option<nat>, next: seq<Node>, y: nat)
    requires TreeShaped(nodes, parents) && |next| == |nodes| + 1 && y < |next| && next[|nodes|] == Node(Active, [], [])
    requires parent.Some? ==> parent.value < |nodes| && nodes[parent.value].status.Active?
    requires forall x | 0 <= x < |nodes| ::
               next[x] == if parent == Some(x) then nodes[x].(children := nodes[x].children + [|nodes|]) else nodes[x]
    ensures NodeShaped(next, parents + [parent], y)
  {
    if y < |nodes| {
      assert NodeShaped(nodes, parents, y);
      IncreasingAppend(nodes[y].children, |nodes|);
      hide Increasing;
    }
  }

  lemma CreateKeepsLists(nodes: seq<Node>, next: seq<Node>, owners: seq<nat>, active: set<Id>)
    requires Listed(nodes, owners, active) && |next| == |nodes| + 1 && next[|nodes|].registrations == []
    requires forall x | 0 <= x < |nodes| :: next[x].registrations == nodes[x].registrations
    ensures Listed(next, owners, active)
  {
  }

  lemma RegisterKeepsLists(nodes: seq<Node>, owners: seq<nat>, active: set<Id>, x: nat)
    requires Listed(nodes, owners, active) && x < |nodes|
    ensures Listed(nodes[x := nodes[x].(registrations := nodes[x].registrations + [|owners|])], owners + [x], active + {|owners|})
  {
    forall id | id in nodes[x].registrations ensures id < |owners| {
      assert id in active;
    }
    IncreasingAppend(nodes[x].registrations, |owners|);
    hide Increasing;
  }

  lemma DropKeepsLists(nodes: seq<Node>, owners: seq<nat>, active: set<Id>, x: nat, id: Id)
    requires Listed(nodes, owners, active) && id in active && owners[id] == x
    ensures Listed(nodes[x := nodes[x].(registrations := Without(nodes[x].registrations, id))], owners, active - {id})
  {
    WithoutKeeps(nodes[x].registrations, id);
  }

  // ------------------------------------------------------- what acts come to

  /** What one may do with a forest. A body of code is what it does, in order; whether it
      catches an error on its way is its own affair, so any list of acts is a body. */
  datatype Act =
    | Creates(parent: Option<nat>)
    | Registers(scope: nat)
    | DisposesOne(id: Id)
    | Quiesces(scope: nat)
    | Disposes(scope: nat)
    | Transacts(scope: nat, body: seq<Act>, raises: bool)

  /** A forest at a moment: its scopes, who owns each registration, which registrations are
      active, and the disposers called so far. */
  datatype Forest = Forest(nodes: seq<Node>, parents: Parents, owners: seq<nat>, active: set<Id>, ran: seq<Id>)

  ghost predicate Fit(f: Forest) {
    TreeShaped(f.nodes, f.parents) && Listed(f.nodes, f.owners, f.active)
  }

  /** The nodes after `x` was disposed. */
  ghost function Pruned(nodes: seq<Node>, parents: Parents, x: nat): (after: seq<Node>)
    requires |parents| == |nodes| && x < |nodes|
    ensures Removed(nodes, after, parents, x)
  {
    seq(|nodes|, y requires 0 <= y < |nodes| =>
      if Under(parents, y, x) then GONE
      else if parents[x] == Some(y) then nodes[y].(children := Without(nodes[y].children, x))
      else nodes[y])
  }

  lemma RemovedIsPruned(nodes: seq<Node>, after: seq<Node>, parents: Parents, x: nat)
    requires |parents| == |nodes| && x < |nodes| && Removed(nodes, after, parents, x)
    ensures after == Pruned(nodes, parents, x)
  {
  }

  function Listing(nodes: seq<Node>, x: nat, registrations: seq<Id>): seq<Node>
    requires x < |nodes|
  {
    nodes[x := nodes[x].(registrations := registrations)]
  }

  ghost function Created(f: Forest, parent: Option<nat>): Forest
    requires parent.Some? ==> parent.value < |f.nodes|
  {
    if parent.Some? && !f.nodes[parent.value].status.Active? then f
    else
      var nodes := if parent.None? then f.nodes
                   else f.nodes[parent.value := f.nodes[parent.value].(children := f.nodes[parent.value].children + [|f.nodes|])];
      f.(nodes := nodes + [Node(Active, [], [])], parents := f.parents + [parent])
  }

  ghost function Registered(f: Forest, x: nat): Forest
    requires x < |f.nodes|
  {
    if !f.nodes[x].status.Active? then f
    else f.(nodes := Listing(f.nodes, x, f.nodes[x].registrations + [|f.owners|]), owners := f.owners + [x],
            active := f.active + {|f.owners|})
  }

  ghost function Dropped(f: Forest, id: Id): Forest
    requires Fit(f)
  {
    if id !in f.active then f
    else
      var x := f.owners[id];
      f.(nodes := Listing(f.nodes, x, Without(f.nodes[x].registrations, id)), active := f.active - {id}, ran := f.ran + [id])
  }

  ghost function DisposedAt(f: Forest, x: nat): Forest
    requires Fit(f) && x < |f.nodes|
  {
    if f.nodes[x].status.Disposed? then f
    else
      var order := Order(f.nodes, x);
      f.(nodes := Pruned(f.nodes, f.parents, x), active := f.active - Members(order), ran := f.ran + order)
  }

  /** What lies beyond a checkpoint undone, the latest first. */
  ghost function RolledBack(f: Forest, x: nat, checkpoint: nat): Forest
    requires x < |f.nodes|
  {
    var ids := f.nodes[x].registrations;
    var taken := From(ids, checkpoint);
    f.(nodes := Listing(f.nodes, x, UpTo(ids, checkpoint)), active := f.active - Members(taken), ran := f.ran + Reverse(taken))
  }

  /** The forest after an act; an act on what does not exist, or that is refused, is none. */
  ghost function After(f: Forest, act: Act): (g: Forest)
    requires Fit(f)
    ensures Fit(g) && Passed(f, g)
    decreases act, 1
  {
    AfterOne(f, act);
    match act
    case Creates(parent) => if parent.None? || parent.value < |f.nodes| then Created(f, parent) else f
    case Registers(x) => if x < |f.nodes| then Registered(f, x) else f
    case DisposesOne(id) => Dropped(f, id)
    case Quiesces(x) => if x < |f.nodes| then f.(nodes := Hushed(f.nodes, f.parents, x)) else f
    case Disposes(x) => if x < |f.nodes| then DisposedAt(f, x) else f
    case Transacts(x, body, raises) =>
      if x < |f.nodes| && f.nodes[x].status.Active? then
        var g := AfterAll(f, body);
        if raises then RollbackPasses(f, g, x, |f.nodes[x].registrations|); RolledBack(g, x, |f.nodes[x].registrations|)
        else g
      else f
  }

  ghost function AfterAll(f: Forest, acts: seq<Act>): (g: Forest)
    requires Fit(f)
    ensures Fit(g) && Passed(f, g)
    decreases acts, 0
  {
    PassedNothing(f);
    if acts == [] then f
    else
      var g := After(f, acts[0]);
      var h := AfterAll(g, acts[1..]);
      PassedTwice(f, g, h);
      h
  }

  /** What holds between two moments, whatever was done: scopes and registrations keep their
      numbers, and a registration stays active unless its disposer was called. */
  ghost predicate Passed(f: Forest, g: Forest) {
    && f.owners <= g.owners && f.ran <= g.ran && |f.nodes| <= |g.nodes|
    && forall id | 0 <= id < |f.owners| :: id in g.active <==> id in f.active && id !in g.ran[|f.ran|..]
  }

  lemma PassedNothing(f: Forest)
    ensures Passed(f, f)
  {
  }

  lemma PassedTwice(f: Forest, g: Forest, h: Forest)
    requires Passed(f, g) && Passed(g, h)
    ensures Passed(f, h)
  {
    assert h.ran[|f.ran|..] == g.ran[|f.ran|..] + h.ran[|g.ran|..];
    forall id | 0 <= id < |f.owners| ensures id in h.active <==> id in f.active && id !in h.ran[|f.ran|..] {
      assert id in g.active <==> id in f.active && id !in g.ran[|f.ran|..];
      assert id in h.active <==> id in g.active && id !in h.ran[|g.ran|..];
    }
  }

  /** Calling the disposers of some registrations and dropping them. */
  lemma CallsPass(f: Forest, g: Forest, called: seq<Id>)
    requires g.owners == f.owners && |g.nodes| == |f.nodes| && g.ran == f.ran + called
    requires forall id | 0 <= id < |f.owners| :: id in g.active <==> id in f.active && id !in called
    ensures Passed(f, g)
  {
    assert g.ran[|f.ran|..] == called;
  }

  /** Every act but a transaction keeps the forest fit. */
  lemma AfterOne(f: Forest, act: Act)
    requires Fit(f)
    ensures Passed(f, f)
    ensures act.Creates? && (act.parent.None? || act.parent.value < |f.nodes|) ==>
              Fit(Created(f, act.parent)) && Passed(f, Created(f, act.parent))
    ensures act.Registers? && act.scope < |f.nodes| ==> Fit(Registered(f, act.scope)) && Passed(f, Registered(f, act.scope))
    ensures act.DisposesOne? ==> Fit(Dropped(f, act.id)) && Passed(f, Dropped(f, act.id))
    ensures act.Quiesces? ==> var g := f.(nodes := Hushed(f.nodes, f.parents, act.scope)); Fit(g) && Passed(f, g)
    ensures act.Disposes? && act.scope < |f.nodes| ==> Fit(DisposedAt(f, act.scope)) && Passed(f, DisposedAt(f, act.scope))
  {
    PassedNothing(f);
    hide *;
    match act {
      case Creates(parent) => if parent.None? || parent.value < |f.nodes| { CreatePasses(f, parent); }
      case Registers(x) => if x < |f.nodes| { RegisterPasses(f, x); }
      case DisposesOne(id) => DropPasses(f, id);
      case Quiesces(x) => QuiescePasses(f, x);
      case Disposes(x) => if x < |f.nodes| { DisposePasses(f, x); }
      case Transacts(_, _, _) =>
    }
  }

  lemma CreatePasses(f: Forest, parent: Option<nat>)
    requires Fit(f) && (parent.Some? ==> parent.value < |f.nodes|)
    ensures Fit(Created(f, parent)) && Passed(f, Created(f, parent))
  {
    var g := Created(f, parent);
    if g != f {
      CreateKeepsShape(f.nodes, f.parents, parent);
      CreateKeepsLists(f.nodes, g.nodes, f.owners, f.active);
    }
    CallsPass(f, f, []);
  }

  lemma RegisterPasses(f: Forest, x: nat)
    requires Fit(f) && x < |f.nodes|
    ensures Fit(Registered(f, x)) && Passed(f, Registered(f, x))
  {
    if f.nodes[x].status.Active? {
      SameShape(f.nodes, f.parents, x, f.nodes[x].registrations + [|f.owners|]);
      RegisterKeepsLists(f.nodes, f.owners, f.active, x);
    }
    hide TreeShaped, Listed;
  }

  lemma DropPasses(f: Forest, id: Id)
    requires Fit(f)
    ensures Fit(Dropped(f, id)) && Passed(f, Dropped(f, id))
  {
    PassedNothing(f);
    if id in f.active {
      var x := f.owners[id];
      assert NodeShaped(f.nodes, f.parents, x);
      WithoutKeeps(f.nodes[x].registrations, id);
      SameShape(f.nodes, f.parents, x, Without(f.nodes[x].registrations, id));
      DropKeepsLists(f.nodes, f.owners, f.active, x, id);
      CallsPass(f, Dropped(f, id), [id]);
    }
    hide TreeShaped, Listed, Passed;
  }

  lemma QuiescePasses(f: Forest, x: nat)
    requires Fit(f)
    ensures var g := f.(nodes := Hushed(f.nodes, f.parents, x)); Fit(g) && Passed(f, g)
  {
    var nodes := Hushed(f.nodes, f.parents, x);
    forall y | 0 <= y < |nodes| ensures NodeShaped(nodes, f.parents, y) {
      assert NodeShaped(f.nodes, f.parents, y);
    }
  }

  lemma DisposePasses(f: Forest, x: nat)
    requires Fit(f) && x < |f.nodes|
    ensures Fit(DisposedAt(f, x)) && Passed(f, DisposedAt(f, x))
  {
    PassedNothing(f);
    if !f.nodes[x].status.Disposed? {
      RemovedKeepsShape(f.nodes, Pruned(f.nodes, f.parents, x), f.parents, x);
      RemovedKeepsLists(f, x);
      CallsPass(f, DisposedAt(f, x), Order(f.nodes, x));
    }
    hide TreeShaped, Listed, Passed, Order;
  }

  lemma RemovedKeepsShape(nodes: seq<Node>, after: seq<Node>, parents: Parents, x: nat)
    requires TreeShaped(nodes, parents) && x < |nodes| && Removed(nodes, after, parents, x)
    ensures TreeShaped(after, parents)
  {
    forall y | 0 <= y < |after| ensures NodeShaped(after, parents, y) {
      RemovedKeepsNode(nodes, after, parents, x, y);
    }
  }

  lemma RemovedKeepsNode(nodes: seq<Node>, after: seq<Node>, parents: Parents, x: nat, y: nat)
    requires TreeShaped(nodes, parents) && x < |nodes| && y < |nodes| && Removed(nodes, after, parents, x)
    ensures NodeShaped(after, parents, y)
  {
    assert NodeShaped(nodes, parents, y);
    WithoutKeeps(nodes[y].children, x);
    if parents[y].Some? {
      var up := parents[y].value;
      assert NodeShaped(nodes, parents, up);
      WithoutKeeps(nodes[up].children, x);
    }
  }

  /** Disposing drops the registrations whose disposers it calls. */
  lemma RemovedActive(f: Forest, g: Forest, x: nat)
    requires Fit(f) && Fit(g) && x < |f.nodes| && g.owners == f.owners && Removed(f.nodes, g.nodes, f.parents, x)
    ensures g.active == f.active - Members(Order(f.nodes, x))
  {
    OrderCovers(f.nodes, f.parents, f.owners, f.active, x);
    hide Order, TreeShaped;
    forall id ensures id in g.active <==> id in f.active - Members(Order(f.nodes, x)) {
      if id in g.active {
        assert id in g.nodes[g.owners[id]].registrations;
      }
      if id in f.active {
        assert id in f.nodes[f.owners[id]].registrations;
      }
    }
  }

  lemma RemovedKeepsLists(f: Forest, x: nat)
    requires Fit(f) && x < |f.nodes|
    ensures Listed(Pruned(f.nodes, f.parents, x), f.owners, f.active - Members(Order(f.nodes, x)))
  {
    OrderCovers(f.nodes, f.parents, f.owners, f.active, x);
    var order := Order(f.nodes, x);
    hide Order, TreeShaped;
    LeavesOthers(f.nodes, Pruned(f.nodes, f.parents, x), f.parents, f.owners, f.active, Members(order), x);
  }

  lemma LeavesOthers(nodes: seq<Node>, after: seq<Node>, parents: Parents, owners: seq<nat>, active: set<Id>, gone: set<Id>,
                     x: nat)
    requires Listed(nodes, owners, active) && |parents| == |nodes| && x < |nodes| && Removed(nodes, after, parents, x)
    requires forall id :: id in gone <==> Concerns(parents, owners, active, x, id)
    ensures Listed(after, owners, active - gone)
  {
    hide Under;
    forall y | 0 <= y < |after|
      ensures Increasing(after[y].registrations)
      ensures forall id :: id in after[y].registrations <==> id in active - gone && owners[id] == y
    {
      if !Under(parents, y, x) {
        assert after[y].registrations == nodes[y].registrations;
      }
    }
  }

  /** Disposers called for what is beyond a checkpoint concern that scope alone. */
  lemma RollbackPasses(f: Forest, g: Forest, x: nat, checkpoint: nat)
    requires Fit(g) && x < |g.nodes| && Passed(f, g)
    ensures Fit(RolledBack(g, x, checkpoint)) && Passed(f, RolledBack(g, x, checkpoint))
  {
    var h := RolledBack(g, x, checkpoint);
    var taken := From(g.nodes[x].registrations, checkpoint);
    assert NodeShaped(g.nodes, g.parents, x);
    SameShape(g.nodes, g.parents, x, UpTo(g.nodes[x].registrations, checkpoint));
    CutKeepsLists(g.nodes, g.owners, g.active, x, checkpoint);
    ReverseMembers(taken);
    assert Members(taken) == set id | id in taken;
    hide TreeShaped, Listed, Reverse;
    CallsPass(g, h, Reverse(taken));
    PassedTwice(f, g, h);
  }

  // --------------------------------------------------- what admits no more

  /** Between two moments, scopes that do not admit list nothing new and get no new child. */
  ghost predicate Shut(f: Forest, g: Forest) {
    && |f.nodes| <= |g.nodes|
    && forall y | 0 <= y < |f.nodes| && !f.nodes[y].status.Active? :: ShutAt(f.nodes[y], g.nodes[y])
  }

  ghost predicate ShutAt(node: Node, after: Node) {
    && !after.status.Active?
    && (forall id | id in after.registrations :: id in node.registrations)
    && (forall c | c in after.children :: c in node.children)
  }

  lemma ShutTwice(f: Forest, g: Forest, h: Forest)
    requires Shut(f, g) && Shut(g, h)
    ensures Shut(f, h)
  {
    forall y | 0 <= y < |f.nodes| && !f.nodes[y].status.Active? ensures ShutAt(f.nodes[y], h.nodes[y]) {
      assert ShutAt(f.nodes[y], g.nodes[y]) && ShutAt(g.nodes[y], h.nodes[y]);
    }
  }

  lemma OneShuts(f: Forest, act: Act)
    requires Fit(f) && !act.Transacts?
    ensures Shut(f, After(f, act))
  {
    hide Passed, Order, Listed, NodeShaped;
    if act.DisposesOne? && act.id in f.active {
      DropShuts(f, act.id);
    } else if act.Disposes? && act.scope < |f.nodes| && !f.nodes[act.scope].status.Disposed? {
      DisposeShuts(f, act.scope);
    } else if act.Quiesces? && act.scope < |f.nodes| {
      QuiesceShuts(f, act.scope);
    }
  }

  lemma DropShuts(f: Forest, id: Id)
    requires Fit(f) && id in f.active
    ensures Shut(f, Dropped(f, id))
  {
    WithoutKeeps(f.nodes[f.owners[id]].registrations, id);
  }

  lemma DisposeShuts(f: Forest, x: nat)
    requires Fit(f) && x < |f.nodes| && !f.nodes[x].status.Disposed?
    ensures Shut(f, DisposedAt(f, x))
  {
    var g := DisposedAt(f, x);
    forall y | 0 <= y < |f.nodes| && !f.nodes[y].status.Active? ensures ShutAt(f.nodes[y], g.nodes[y]) {
      assert NodeShaped(f.nodes, f.parents, y);
      WithoutKeeps(f.nodes[y].children, x);
    }
  }

  lemma QuiesceShuts(f: Forest, x: nat)
    ensures Shut(f, f.(nodes := Hushed(f.nodes, f.parents, x)))
  {
    hide Under;
  }

  lemma RollbackShuts(f: Forest, x: nat, checkpoint: nat)
    requires x < |f.nodes|
    ensures Shut(f, RolledBack(f, x, checkpoint))
  {
    var ids := f.nodes[x].registrations;
    assert forall id | id in UpTo(ids, checkpoint) :: id in ids;
  }

  lemma {:induction false} ActShuts(f: Forest, act: Act)
    requires Fit(f)
    ensures Shut(f, After(f, act))
    decreases act, 1
  {
    if act.Transacts? && act.scope < |f.nodes| && f.nodes[act.scope].status.Active? {
      var g := AfterAll(f, act.body);
      ActsShut(f, act.body);
      hide Shut, RolledBack, AfterAll, Fit;
      if act.raises {
        RollbackShuts(g, act.scope, |f.nodes[act.scope].registrations|);
        ShutTwice(f, g, RolledBack(g, act.scope, |f.nodes[act.scope].registrations|));
      }
    } else if !act.Transacts? {
      OneShuts(f, act);
    }
  }

  /** A scope that does not admit stays so, whatever is done: it never lists anything new and
      never gets a child. */
  lemma {:induction false} ActsShut(f: Forest, acts: seq<Act>)
    requires Fit(f)
    ensures Shut(f, AfterAll(f, acts))
    decreases acts, 0
  {
    if acts != [] {
      ActShuts(f, acts[0]);
      ActsShut(After(f, acts[0]), acts[1..]);
      hide Shut, Fit, After, Passed;
      ShutTwice(f, After(f, acts[0]), AfterAll(After(f, acts[0]), acts[1..]));
    }
  }

  /** Once a scope was told to quiesce, whatever is done, it and all that was under it lists
      nothing but what it listed then, and has no other children. */
  lemma QuiescedForGood(f: Forest, x: nat, acts: seq<Act>, y: nat)
    requires Fit(f) && x < |f.nodes| && y < |f.nodes| && Under(f.parents, y, x)
    ensures var g := AfterAll(After(f, Quiesces(x)), acts);
            y < |g.nodes| && ShutAt(f.nodes[y], g.nodes[y])
  {
    ActsShut(After(f, Quiesces(x)), acts);
    hide AfterAll, Fit, Passed, ShutAt;
    var h := After(f, Quiesces(x));
    assert h.nodes[y] == Quieted(f.nodes[y]);
    var g := AfterAll(h, acts);
    assert ShutAt(h.nodes[y], g.nodes[y]);
    ShutQuieted(f.nodes[y], g.nodes[y]);
  }

  lemma ShutQuieted(node: Node, after: Node)
    requires ShutAt(Quieted(node), after)
    ensures ShutAt(node, after)
  {
  }

  // ------------------------------------------------- what a transaction undoes

  /** The registrations of `x` made before `f` whose disposers were called between `f` and `g`. */
  function DisposedOf(f: Forest, g: Forest, x: nat): set<Id>
    requires x < |f.nodes| && |f.ran| <= |g.ran|
  {
    set id | id in f.nodes[x].registrations && id in g.ran[|f.ran|..]
  }

  /** Nothing but what was made since the beginning has joined a scope's list. */
  lemma PassedIsSince(f: Forest, g: Forest, x: nat)
    requires Fit(f) && Fit(g) && Passed(f, g) && x < |f.nodes|
    ensures Since(f.nodes[x].registrations, |f.owners|, g.nodes[x].registrations)
    ensures forall id | id in f.nodes[x].registrations :: id in g.nodes[x].registrations <==> id !in DisposedOf(f, g, x)
  {
    hide TreeShaped;
    forall id | id in g.nodes[x].registrations && id < |f.owners| ensures id in f.nodes[x].registrations {
      assert id in g.active && g.owners[id] == x == f.owners[id];
    }
    forall id | id in f.nodes[x].registrations ensures id in g.nodes[x].registrations <==> id !in g.ran[|f.ran|..] {
      assert id in f.active && f.owners[id] == x == g.owners[id];
    }
  }

  /** Undoing a transaction on `x` that began in `f` and whose body ended in `g`: of what was
      made in it and is still listed, the first ones stay, as many as earlier registrations of
      the scope were disposed of in the body; the others are undone, the latest first. Nothing
      else changes. */
  ghost predicate Undoes(f: Forest, g: Forest, h: Forest, x: nat)
    requires x < |f.nodes| && x < |g.nodes| && |f.ran| <= |g.ran|
  {
    var ids := g.nodes[x].registrations;
    var made, disposed := Made(ids, |f.owners|), |DisposedOf(f, g, x)|;
    && (forall id :: id in made <==> id in ids && id >= |f.owners|)
    && h.nodes == Listing(g.nodes, x, ids[..Kept(ids, |f.owners|)] + UpTo(made, disposed))
    && h.ran == g.ran + Reverse(From(made, disposed))
    && h.active == g.active - Members(From(made, disposed))
    && h.parents == g.parents && h.owners == g.owners
  }

  /** Whether nothing that was registered after `f` is listed at `x`. */
  predicate NothingNew(f: Forest, g: Forest, x: nat)
    requires x < |g.nodes|
  {
    forall id | id in g.nodes[x].registrations :: id < |f.owners|
  }

  /** A failed transaction leaves nothing behind if and only if its body disposed of no earlier
      registration of the scope, or nothing that it made is listed any more. Then exactly what
      was made in it is undone. Earlier registrations it never undoes. */
  lemma RollbackExact(f: Forest, x: nat, body: seq<Act>)
    requires Fit(f) && x < |f.nodes| && f.nodes[x].status.Active?
    ensures var g, h := AfterAll(f, body), After(f, Transacts(x, body, true));
            && |f.nodes| <= |g.nodes| == |h.nodes| && f.ran <= g.ran
            && Undoes(f, g, h, x)
            && (NothingNew(f, h, x) <==> DisposedOf(f, g, x) == {} || NothingNew(f, g, x))
            && (NothingNew(f, h, x) ==> h.ran == g.ran + Reverse(Made(g.nodes[x].registrations, |f.owners|)))
            && (forall id | 0 <= id < |f.owners| :: id in h.active <==> id in g.active)
  {
    var g, h := AfterAll(f, body), After(f, Transacts(x, body, true));
    RolledBackUndoes(f, g, x);
    UndoneExactly(f, g, h, x);
  }

  lemma RolledBackUndoes(f: Forest, g: Forest, x: nat)
    requires Fit(f) && Fit(g) && Passed(f, g) && x < |f.nodes|
    ensures Undoes(f, g, RolledBack(g, x, |f.nodes[x].registrations|), x)
  {
    PassedIsSince(f, g, x);
    var begun, now := f.nodes[x].registrations, g.nodes[x].registrations;
    MadeMembers(begun, |f.owners|, now);
    CutAtLength(begun, |f.owners|, now, DisposedOf(f, g, x));
    hide Fit, Passed, Since, Made, Kept, From, UpTo, Reverse, Members;
  }

  lemma UndoneExactly(f: Forest, g: Forest, h: Forest, x: nat)
    requires x < |f.nodes| && x < |g.nodes| && |f.ran| <= |g.ran| && Undoes(f, g, h, x)
    ensures x < |h.nodes| == |g.nodes|
    ensures NothingNew(f, h, x) <==> DisposedOf(f, g, x) == {} || NothingNew(f, g, x)
    ensures NothingNew(f, h, x) ==> h.ran == g.ran + Reverse(Made(g.nodes[x].registrations, |f.owners|))
    ensures forall id | 0 <= id < |f.owners| :: id in h.active <==> id in g.active
  {
    var ids := g.nodes[x].registrations;
    var made, disposed := Made(ids, |f.owners|), |DisposedOf(f, g, x)|;
    var kept := ids[..Kept(ids, |f.owners|)];
    if disposed > 0 && made != [] {
      assert made[0] in UpTo(made, disposed) && made[0] in made;
      assert made[0] in h.nodes[x].registrations;
    } else {
      assert From(made, disposed) == made && UpTo(made, disposed) == [];
    }
    if id :| id in ids && id >= |f.owners| {
      assert id in made;
    }
    forall id | id in From(made, disposed) ensures id in made {
    }
    hide Made, Reverse;
  }
}
