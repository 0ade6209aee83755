/** Registration scopes in a tree: its shape, and in which order disposal calls the disposers. */
module ScopeOrder {
  import opened Outcomes
  import opened Sequences

  type Id = nat

  type Parents = seq<Option<nat>>

  datatype Status = Active | Quiescing | Disposed

  /** A scope; it is known by its place in the sequence of all scopes, so a child always has
      a larger number than its parent. */
  datatype Node = Node(status: Status, registrations: seq<Id>, children: seq<nat>)

  const GONE := Node(Disposed, [], [])

  ghost predicate Increasing(ids: seq<nat>) {
    forall i, j | 0 <= i < j < |ids| :: ids[i] < ids[j]
  }

  function Reverse(ids: seq<Id>): seq<Id> {
    if ids == [] then [] else Reverse(ids[1..]) + [ids[0]]
  }

  function Without(ids: seq<nat>, id: nat): seq<nat> {
    if ids == [] then []
    else (if ids[0] == id then [] else [ids[0]]) + Without(ids[1..], id)
  }

  // -------------------------------------------------------------- the shape

  /** Parents and children agree; a disposed scope owns nothing. */
  ghost predicate TreeShaped(nodes: seq<Node>, parents: Parents) {
    && |parents| == |nodes|
    && forall x | 0 <= x < |nodes| :: NodeShaped(nodes, parents, x)
  }

  ghost predicate NodeShaped(nodes: seq<Node>, parents: Parents, x: nat)
    requires |parents| == |nodes| && x < |nodes|
  {
    && (parents[x].Some? ==>
          parents[x].value < x && (!nodes[x].status.Disposed? ==> x in nodes[parents[x].value].children))
    && Increasing(nodes[x].children)
    && (forall c | c in nodes[x].children ::
          x < c < |nodes| && parents[c] == Some(x) && !nodes[c].status.Disposed?)
    && (nodes[x].status.Disposed? ==> nodes[x] == GONE)
  }

  /** Every scope lists its active registrations, in the order of registering. */
  ghost predicate Listed(nodes: seq<Node>, owners: seq<nat>, active: set<Id>) {
    && (forall id | id in active :: id < |owners| && owners[id] < |nodes|)
    && forall x | 0 <= x < |nodes| ::
         && Increasing(nodes[x].registrations)
         && (forall id :: id in nodes[x].registrations <==> id in active && owners[id] == x)
  }

  /** `x` is `top` or below it. */
  ghost predicate Under(parents: Parents, x: nat, top: nat)
    decreases x
  {
    x < |parents|
    && (x == top || (parents[x].Some? && parents[x].value < x && Under(parents, parents[x].value, top)))
  }

  // -------------------------------------------------------------- the order

  /** The order in which disposing of `x` calls the disposers: the children's, the latest
      child first, then its own, the latest first. */
  function Order(nodes: seq<Node>, x: nat): seq<Id>
    decreases |nodes| - x, 1, 0
  {
    if x >= |nodes| then [] else OrderOf(nodes, x, nodes[x].children) + Reverse(nodes[x].registrations)
  }

  function OrderOf(nodes: seq<Node>, x: nat, children: seq<nat>): seq<Id>
    requires x < |nodes|
    decreases |nodes| - x, 0, |children|
  {
    if children == [] then []
    else
      var last := children[|children| - 1];
      (if x < last then Order(nodes, last) else []) + OrderOf(nodes, x, children[..|children| - 1])
  }

  /** The disposers among `ids` that raise. */
  function Failing(ids: seq<Id>, fails: Id -> bool): seq<Id> {
    if ids == [] then []
    else (if fails(ids[0]) then [ids[0]] else []) + Failing(ids[1..], fails)
  }

  lemma {:induction false} FailingConcat(a: seq<Id>, b: seq<Id>, fails: Id -> bool)
    ensures Failing(a + b, fails) == Failing(a, fails) + Failing(b, fails)
  {
    if a == [] {
      assert a + b == b;
    } else {
      assert (a + b)[1..] == a[1..] + b;
      FailingConcat(a[1..], b, fails);
      Regroup(if fails(a[0]) then [a[0]] else [], Failing(a[1..], fails), Failing(b, fails));
    }
  }

  lemma IncreasingAppend(ids: seq<nat>, last: nat)
    requires Increasing(ids) && forall id | id in ids :: id < last
    ensures Increasing(ids + [last])
  {
    forall i | 0 <= i < |ids| ensures ids[i] < last {
      assert ids[i] in ids;
    }
  }

  // -------------------------------------------------------- apart from others

  lemma {:induction false} UnderTransitive(parents: Parents, x: nat, middle: nat, top: nat)
    requires Under(parents, x, middle) && Under(parents, middle, top)
    ensures Under(parents, x, top)
    decreases x
  {
    if x != middle {
      UnderTransitive(parents, parents[x].value, middle, top);
    }
  }

  lemma {:induction false} UnderAtLeast(parents: Parents, x: nat, top: nat)
    requires Under(parents, x, top)
    ensures top <= x
    decreases x
  {
    if x != top {
      UnderAtLeast(parents, parents[x].value, top);
    }
  }

  /** Two children of one scope have nothing below them in common. */
  lemma {:induction false} SiblingsApart(parents: Parents, x: nat, c: nat, d: nat)
    requires c < |parents| && d < |parents| && c != d
    requires parents[c].Some? && parents[c] == parents[d] && parents[c].value < c && parents[c].value < d
    requires Under(parents, x, c)
    ensures !Under(parents, x, d)
    decreases x
  {
    if Under(parents, x, d) {
      if x == c {
        UnderAtLeast(parents, parents[c].value, d);
      } else if x == d {
        UnderAtLeast(parents, parents[d].value, c);
      } else {
        SiblingsApart(parents, parents[x].value, c, d);
      }
    }
  }

  /** What is under a scope is the scope itself or under one of its children. */
  lemma {:induction false} UnderAChild(parents: Parents, y: nat, x: nat) returns (c: nat)
    requires Under(parents, y, x) && y != x
    ensures c < |parents| && parents[c] == Some(x) && x < c && Under(parents, y, c)
    decreases y
  {
    if parents[y].value == x {
      c := y;
    } else {
      c := UnderAChild(parents, parents[y].value, x);
    }
  }

  /** Below a disposed scope everything is disposed. */
  lemma {:induction false} GoneBelow(nodes: seq<Node>, parents: Parents, y: nat, x: nat)
    requires TreeShaped(nodes, parents) && x < |nodes| && nodes[x].status.Disposed? && Under(parents, y, x)
    ensures nodes[y] == GONE
    decreases y
  {
    assert NodeShaped(nodes, parents, y);
    if y != x {
      var up := parents[y].value;
      GoneBelow(nodes, parents, up, x);
      assert nodes[up].children == [];
    }
  }

  /** The order of a scope depends only on what is under it. */
  lemma {:induction false} OrderFrame(nodes: seq<Node>, other: seq<Node>, parents: Parents, x: nat)
    requires TreeShaped(nodes, parents) && |other| == |nodes| && x < |nodes|
    requires forall y | 0 <= y < |nodes| && Under(parents, y, x) ::
               other[y].children == nodes[y].children && other[y].registrations == nodes[y].registrations
    ensures Order(other, x) == Order(nodes, x)
    decreases |nodes| - x, 1, 0
  {
    assert Under(parents, x, x);
    OrderOfFrame(nodes, other, parents, x, nodes[x].children);
  }

  lemma {:induction false} OrderOfFrame(nodes: seq<Node>, other: seq<Node>, parents: Parents, x: nat, children: seq<nat>)
    requires TreeShaped(nodes, parents) && |other| == |nodes| && x < |nodes|
    requires forall c | c in children :: c in nodes[x].children
    requires forall y | 0 <= y < |nodes| && y != x && Under(parents, y, x) ::
               other[y].children == nodes[y].children && other[y].registrations == nodes[y].registrations
    ensures OrderOf(other, x, children) == OrderOf(nodes, x, children)
    decreases |nodes| - x, 0, |children|
  {
    if children != [] {
      var last := children[|children| - 1];
      assert last in children && last in nodes[x].children && NodeShaped(nodes, parents, x);
      forall y | 0 <= y < |nodes| && Under(parents, y, last) ensures Under(parents, y, x) && y != x {
        assert Under(parents, last, x);
        UnderTransitive(parents, y, last, x);
        UnderAtLeast(parents, y, last);
      }
      OrderFrame(nodes, other, parents, last);
      forall c | c in children[..|children| - 1] ensures c in nodes[x].children {
        assert c in children;
      }
      OrderOfFrame(nodes, other, parents, x, children[..|children| - 1]);
    }
  }

  // -------------------------------------------------------------- disposal

  /** The nodes after `x` was disposed: it and all under it are gone, and its parent has
      forgotten it. */
  ghost predicate Removed(before: seq<Node>, after: seq<Node>, parents: Parents, x: nat)
    requires |parents| == |before| && x < |before|
  {
    && |after| == |before|
    && forall y | 0 <= y < |before| ::
         after[y] == if Under(parents, y, x) then GONE
                     else if parents[x] == Some(y) then before[y].(children := Without(before[y].children, x))
                     else before[y]
  }

  /** The nodes while `x` is being disposed, when its children from number `i` on are done. */
  ghost predicate Partly(before: seq<Node>, now: seq<Node>, parents: Parents, x: nat, i: nat)
    requires |parents| == |before| && x < |before| && i <= |before[x].children|
  {
    && |now| == |before|
    && now[x] == Node(Quiescing, [], before[x].children[..i])
    && forall y | 0 <= y < |before| && y != x ::
         now[y] == if (exists k | i <= k < |before[x].children| :: Under(parents, y, before[x].children[k])) then GONE
                   else before[y]
  }

  lemma {:induction false} WithoutLast(ids: seq<nat>, last: nat)
    requires Increasing(ids + [last])
    ensures Without(ids + [last], last) == ids
  {
    var all := ids + [last];
    if ids == [] {
      assert all[1..] == [];
    } else {
      assert all[0] < all[|ids|];
      assert all[1..] == ids[1..] + [last];
      forall i, j | 0 <= i < j < |all[1..]| ensures all[1..][i] < all[1..][j] {
        assert all[i + 1] < all[j + 1];
      }
      WithoutLast(ids[1..], last);
    }
  }

  function Quieted(node: Node): Node {
    if node.status.Active? then node.(status := Quiescing) else node
  }

  /** The nodes after `x` and all under it stopped admitting. */
  ghost function Hushed(nodes: seq<Node>, parents: Parents, x: nat): seq<Node> {
    seq(|nodes|, y requires 0 <= y < |nodes| => if Under(parents, y, x) then Quieted(nodes[y]) else nodes[y])
  }

  /** The nodes while `x` is quiescing, when its first `i` children are done. */
  ghost predicate PartlyHushed(before: seq<Node>, now: seq<Node>, parents: Parents, x: nat, i: nat)
    requires |parents| == |before| && x < |before| && i <= |before[x].children|
  {
    && |now| == |before|
    && forall y | 0 <= y < |before| ::
         now[y] == if y == x || (exists k | 0 <= k < i :: Under(parents, y, before[x].children[k])) then Quieted(before[y])
                   else before[y]
  }

  /** One more child has stopped admitting. */
  lemma HushedNext(before: seq<Node>, now: seq<Node>, after: seq<Node>, parents: Parents, x: nat, i: nat)
    requires TreeShaped(before, parents) && x < |before| && i < |before[x].children|
    requires PartlyHushed(before, now, parents, x, i)
    requires after == Hushed(now, parents, before[x].children[i])
    ensures PartlyHushed(before, after, parents, x, i + 1)
  {
    hide TreeShaped;
    var c := before[x].children[i];
    forall y | 0 <= y < |before|
      ensures after[y] == if y == x || (exists k | 0 <= k < i + 1 :: Under(parents, y, before[x].children[k]))
                          then Quieted(before[y]) else before[y]
    {
      if Under(parents, y, c) {
        assert Under(parents, y, before[x].children[i]);
      }
    }
  }

  /** All children done is all that is under the scope. */
  lemma HushedEnds(before: seq<Node>, now: seq<Node>, parents: Parents, x: nat)
    requires TreeShaped(before, parents) && x < |before|
    requires PartlyHushed(before, now, parents, x, |before[x].children|)
    ensures now == Hushed(before, parents, x)
  {
    forall y | 0 <= y < |before| ensures now[y] == Hushed(before, parents, x)[y] {
      HushedAt(before, now, parents, x, y);
    }
  }

  lemma HushedAt(before: seq<Node>, now: seq<Node>, parents: Parents, x: nat, y: nat)
    requires TreeShaped(before, parents) && x < |before| && y < |before|
    requires PartlyHushed(before, now, parents, x, |before[x].children|)
    ensures now[y] == if Under(parents, y, x) then Quieted(before[y]) else before[y]
  {
    assert Under(parents, x, x) && NodeShaped(before, parents, x);
    if y != x && Under(parents, y, x) {
      var c := UnderAChild(parents, y, x);
      assert NodeShaped(before, parents, c);
      if before[c].status.Disposed? {
        GoneBelow(before, parents, y, c);
      } else {
        var k :| 0 <= k < |before[x].children| && before[x].children[k] == c;
        assert Under(parents, y, before[x].children[k]);
      }
    } else if k :| 0 <= k < |before[x].children| && Under(parents, y, before[x].children[k]) {
      var c := before[x].children[k];
      assert c in before[x].children;
      assert Under(parents, c, x);
      UnderTransitive(parents, y, c, x);
    }
  }

  /** A scope that is gone has nothing under it that admits. */
  lemma GoneIsHushed(nodes: seq<Node>, parents: Parents, x: nat)
    requires TreeShaped(nodes, parents) && x < |nodes| && nodes[x].status.Disposed?
    ensures Hushed(nodes, parents, x) == nodes
  {
    forall y | 0 <= y < |nodes| ensures Hushed(nodes, parents, x)[y] == nodes[y] {
      if Under(parents, y, x) {
        GoneBelow(nodes, parents, y, x);
      }
    }
  }

  lemma HushKeepsShape(nodes: seq<Node>, parents: Parents, x: nat)
    requires TreeShaped(nodes, parents) && x < |nodes|
    ensures TreeShaped(nodes[x := Quieted(nodes[x])], parents)
  {
    var next := nodes[x := Quieted(nodes[x])];
    forall y | 0 <= y < |next| ensures NodeShaped(next, parents, y) {
      assert NodeShaped(nodes, parents, y);
    }
  }

  lemma PartlyStarts(before: seq<Node>, parents: Parents, x: nat)
    requires TreeShaped(before, parents) && x < |before|
    ensures Partly(before, before[x := Node(Quiescing, [], before[x].children)], parents, x, |before[x].children|)
  {
    assert before[x].children[..|before[x].children|] == before[x].children;
  }

  /** One more child is gone. */
  lemma PartlyNext(before: seq<Node>, now: seq<Node>, after: seq<Node>, parents: Parents, x: nat, i: nat)
    requires TreeShaped(before, parents) && x < |before| && 0 < i <= |before[x].children|
    requires Partly(before, now, parents, x, i)
    requires var c := before[x].children[i - 1];
             c < |before| && Removed(now, after, parents, c)
    ensures Partly(before, after, parents, x, i - 1)
  {
    var c := before[x].children[i - 1];
    assert c in before[x].children && NodeShaped(before, parents, x) && parents[c] == Some(x);
    var front := before[x].children[..i - 1];
    assert before[x].children[..i] == front + [c];
    IncreasingPrefix(before[x].children, i);
    WithoutLast(front, c);
    if Under(parents, x, c) {
      UnderAtLeast(parents, x, c);
    }
    forall y | 0 <= y < |before| && y != x
      ensures after[y] == if (exists k | i - 1 <= k < |before[x].children| :: Under(parents, y, before[x].children[k])) then GONE
                          else before[y]
    {
      if k :| i - 1 <= k < |before[x].children| && Under(parents, y, before[x].children[k]) {
        if k == i - 1 {
          assert Under(parents, y, c);
        } else {
          assert now[y] == GONE;
        }
      }
    }
  }

  lemma IncreasingPrefix(ids: seq<nat>, i: nat)
    requires Increasing(ids) && i <= |ids|
    ensures Increasing(ids[..i])
  {
  }

  /** All children gone, then the scope itself. */
  lemma PartlyEnds(before: seq<Node>, now: seq<Node>, after: seq<Node>, parents: Parents, x: nat)
    requires TreeShaped(before, parents) && x < |before| && !before[x].status.Disposed?
    requires Partly(before, now, parents, x, 0)
    requires |after| == |now|
    requires forall y | 0 <= y < |now| ::
               after[y] == if y == x then GONE
                           else if parents[x] == Some(y) then now[y].(children := Without(now[y].children, x))
                           else now[y]
    ensures Removed(before, after, parents, x)
  {
    forall y | 0 <= y < |before|
      ensures after[y] == if Under(parents, y, x) then GONE
                          else if parents[x] == Some(y) then before[y].(children := Without(before[y].children, x))
                          else before[y]
    {
      if y != x {
        PartlyAt(before, now, parents, x, y);
      }
    }
  }

  lemma PartlyAt(before: seq<Node>, now: seq<Node>, parents: Parents, x: nat, y: nat)
    requires TreeShaped(before, parents) && x < |before| && !before[x].status.Disposed? && y < |before| && y != x
    requires Partly(before, now, parents, x, 0)
    ensures now[y] == if Under(parents, y, x) then GONE else before[y]
    ensures parents[x] == Some(y) ==> !Under(parents, y, x)
  {
    if Under(parents, y, x) {
      UnderAtLeast(parents, y, x);
      assert NodeShaped(before, parents, x);
      var c := UnderAChild(parents, y, x);
      assert NodeShaped(before, parents, c);
      if before[c].status.Disposed? {
        GoneBelow(before, parents, y, c);
      } else {
        var k :| 0 <= k < |before[x].children| && before[x].children[k] == c;
        assert Under(parents, y, before[x].children[k]);
      }
    } else if k :| 0 <= k < |before[x].children| && Under(parents, y, before[x].children[k]) {
      var c := before[x].children[k];
      assert c in before[x].children && NodeShaped(before, parents, x);
      assert Under(parents, c, x);
      UnderTransitive(parents, y, c, x);
      assert false;
    }
  }

  // ---------------------------------------------------- keeping it in shape

  lemma IncreasingTail(ids: seq<nat>)
    requires Increasing(ids) && ids != []
    ensures Increasing(ids[1..]) && forall k | k in ids[1..] :: ids[0] < k
  {
  }

  lemma {:induction false} WithoutKeeps(ids: seq<nat>, id: nat)
    requires Increasing(ids)
    ensures Increasing(Without(ids, id))
    ensures forall k :: k in Without(ids, id) <==> k in ids && k != id
  {
    if ids != [] {
      var rest := ids[1..];
      assert ids == [ids[0]] + rest;
      IncreasingTail(ids);
      WithoutKeeps(rest, id);
      var kept := Without(rest, id);
      forall k | 0 <= k < |kept| ensures ids[0] < kept[k] {
        assert kept[k] in kept;
      }
    }
  }

  /** A scope that starts to be disposed gives up its registrations. */
  lemma StartKeepsShape(nodes: seq<Node>, parents: Parents, x: nat)
    requires TreeShaped(nodes, parents) && x < |nodes| && !nodes[x].status.Disposed?
    ensures TreeShaped(nodes[x := Node(Quiescing, [], nodes[x].children)], parents)
  {
    var next := nodes[x := Node(Quiescing, [], nodes[x].children)];
    forall y | 0 <= y < |next| ensures NodeShaped(next, parents, y) {
      assert NodeShaped(nodes, parents, y);
    }
  }

  lemma StartKeepsLists(nodes: seq<Node>, owners: seq<nat>, active: set<Id>, x: nat)
    requires Listed(nodes, owners, active) && x < |nodes|
    ensures Listed(nodes[x := Node(Quiescing, [], nodes[x].children)], owners, active - (set id | id in nodes[x].registrations))
  {
  }

  /** A scope whose children are gone may go as well. */
  lemma EndKeepsShape(nodes: seq<Node>, after: seq<Node>, parents: Parents, x: nat)
    requires TreeShaped(nodes, parents) && x < |nodes| && nodes[x].children == []
    requires |after| == |nodes|
    requires forall y | 0 <= y < |nodes| ::
               after[y] == if y == x then GONE
                           else if parents[x] == Some(y) then nodes[y].(children := Without(nodes[y].children, x))
                           else nodes[y]
    ensures TreeShaped(after, parents)
  {
    assert NodeShaped(nodes, parents, x);
    forall y | 0 <= y < |after| ensures NodeShaped(after, parents, y) {
      EndKeepsNode(nodes, after, parents, x, y);
    }
  }

  lemma EndKeepsNode(nodes: seq<Node>, after: seq<Node>, parents: Parents, x: nat, y: nat)
    requires TreeShaped(nodes, parents) && x < |nodes| && nodes[x].children == [] && y < |nodes|
    requires |after| == |nodes|
    requires forall y | 0 <= y < |nodes| ::
               after[y] == if y == x then GONE
                           else if parents[x] == Some(y) then nodes[y].(children := Without(nodes[y].children, x))
                           else nodes[y]
    ensures NodeShaped(after, parents, y)
  {
    assert NodeShaped(nodes, parents, y);
    WithoutKeeps(nodes[y].children, x);
    if parents[y].Some? {
      var up := parents[y].value;
      assert NodeShaped(nodes, parents, up);
      WithoutKeeps(nodes[up].children, x);
    }
  }

  lemma EndKeepsLists(nodes: seq<Node>, after: seq<Node>, owners: seq<nat>, active: set<Id>, x: nat)
    requires Listed(nodes, owners, active) && x < |nodes| && nodes[x].registrations == []
    requires |after| == |nodes| && after[x].registrations == []
    requires forall y | 0 <= y < |nodes| :: after[y].registrations == nodes[y].registrations
    ensures Listed(after, owners, active)
  {
  }

  lemma ReverseLast(ids: seq<Id>, n: nat)
    requires 0 < n <= |ids|
    ensures Reverse(ids[..n]) == [ids[n - 1]] + Reverse(ids[..n - 1])
  {
    ReverseAppend(ids[..n - 1], ids[n - 1]);
    assert ids[..n] == ids[..n - 1] + [ids[n - 1]];
  }

  lemma {:induction false} ReverseAppend(ids: seq<Id>, last: Id)
    ensures Reverse(ids + [last]) == [last] + Reverse(ids)
  {
    if ids == [] {
      assert (ids + [last])[1..] == [];
    } else {
      assert (ids + [last])[1..] == ids[1..] + [last];
      ReverseAppend(ids[1..], last);
    }
  }

  /** The order, one child at a time from the latest. */
  lemma OrderOfLast(nodes: seq<Node>, now: seq<Node>, parents: Parents, x: nat, i: nat)
    requires TreeShaped(nodes, parents) && x < |nodes| && 0 < i <= |nodes[x].children|
    requires Partly(nodes, now, parents, x, i)
    ensures var c := nodes[x].children[i - 1];
            && x < c < |nodes| && !now[c].status.Disposed?
            && OrderOf(nodes, x, nodes[x].children[..i]) == Order(now, c) + OrderOf(nodes, x, nodes[x].children[..i - 1])
  {
    var c := nodes[x].children[i - 1];
    assert c in nodes[x].children && NodeShaped(nodes, parents, x);
    assert nodes[x].children[..i][..i - 1] == nodes[x].children[..i - 1];
    forall y | 0 <= y < |nodes| && Under(parents, y, c) ensures now[y] == nodes[y] {
      UnderAtLeast(parents, y, c);
      if k :| i <= k < |nodes[x].children| && Under(parents, y, nodes[x].children[k]) {
        var d := nodes[x].children[k];
        assert d in nodes[x].children && c < d;
        SiblingsApart(parents, y, c, d);
        assert false;
      }
    }
    assert Under(parents, c, c);
    OrderFrame(nodes, now, parents, c);
  }

  // ------------------------------------------------- exactly once, in order

  ghost predicate Once(ids: seq<Id>) {
    forall i, j | 0 <= i < j < |ids| :: ids[i] != ids[j]
  }

  lemma OnceConcat(a: seq<Id>, b: seq<Id>)
    requires Once(a) && Once(b) && forall id | id in a :: id !in b
    ensures Once(a + b)
  {
    forall i, j | 0 <= i < j < |a + b| ensures (a + b)[i] != (a + b)[j] {
      if i < |a| <= j {
        assert a[i] in a && b[j - |a|] in b;
      }
    }
  }

  lemma {:induction false} ReverseMembers(ids: seq<Id>)
    ensures forall id :: id in Reverse(ids) <==> id in ids
    ensures Increasing(ids) ==> Once(Reverse(ids))
  {
    if ids != [] {
      ReverseMembers(ids[1..]);
      assert ids == [ids[0]] + ids[1..];
      if Increasing(ids) {
        IncreasingTail(ids);
        OnceConcat(Reverse(ids[1..]), [ids[0]]);
      }
    }
  }

  /** Whether disposing of `x` concerns a registration. */
  ghost predicate Concerns(parents: Parents, owners: seq<nat>, active: set<Id>, x: nat, id: Id) {
    id in active && id < |owners| && Under(parents, owners[id], x)
  }

  /** Disposing of a scope calls the disposer of every active registration of the scope and
      of all scopes under it, and each of them once. */
  lemma {:induction false} OrderCovers(nodes: seq<Node>, parents: Parents, owners: seq<nat>, active: set<Id>, x: nat)
    requires TreeShaped(nodes, parents) && Listed(nodes, owners, active) && x < |nodes|
    ensures Once(Order(nodes, x))
    ensures forall id :: id in Order(nodes, x) <==> Concerns(parents, owners, active, x, id)
    decreases |nodes| - x, 1, 0
  {
    var children, own := nodes[x].children, nodes[x].registrations;
    assert NodeShaped(nodes, parents, x);
    OrderOfCovers(nodes, parents, owners, active, x, children);
    ReverseMembers(own);
    forall id | id in own ensures id !in OrderOf(nodes, x, children) {
      assert owners[id] == x;
      forall c | c in children ensures !Under(parents, x, c) {
        if Under(parents, x, c) {
          UnderAtLeast(parents, x, c);
        }
      }
    }
    OnceConcat(OrderOf(nodes, x, children), Reverse(own));
    forall id ensures id in Order(nodes, x) <==> Concerns(parents, owners, active, x, id) {
      OwnOrBelow(nodes, parents, owners, active, x, id);
    }
  }

  lemma OwnOrBelow(nodes: seq<Node>, parents: Parents, owners: seq<nat>, active: set<Id>, x: nat, id: Id)
    requires TreeShaped(nodes, parents) && Listed(nodes, owners, active) && x < |nodes|
    ensures Concerns(parents, owners, active, x, id)
        <==> id in nodes[x].registrations
             || exists c :: c in nodes[x].children && Concerns(parents, owners, active, c, id)
  {
    assert NodeShaped(nodes, parents, x);
    if id in active && id !in nodes[x].registrations && Under(parents, owners[id], x) {
      var c := UnderAChild(parents, owners[id], x);
      assert NodeShaped(nodes, parents, c);
      assert id in nodes[owners[id]].registrations;
      if nodes[c].status.Disposed? {
        GoneBelow(nodes, parents, owners[id], c);
      }
      assert c in nodes[x].children && Concerns(parents, owners, active, c, id);
    }
    if c :| c in nodes[x].children && Concerns(parents, owners, active, c, id) {
      assert Under(parents, c, x);
      UnderTransitive(parents, owners[id], c, x);
    }
  }

  lemma {:induction false} OrderOfCovers(nodes: seq<Node>, parents: Parents, owners: seq<nat>, active: set<Id>, x: nat,
                                         children: seq<nat>)
    requires TreeShaped(nodes, parents) && Listed(nodes, owners, active) && x < |nodes|
    requires Increasing(children) && forall c | c in children :: c in nodes[x].children
    ensures Once(OrderOf(nodes, x, children))
    ensures forall id :: id in OrderOf(nodes, x, children)
                    <==> exists c :: c in children && Concerns(parents, owners, active, c, id)
    decreases |nodes| - x, 0, |children|
  {
    if children != [] {
      var n := |children| - 1;
      var last, rest := children[n], children[..n];
      assert last in children && last in nodes[x].children && NodeShaped(nodes, parents, x);
      assert children == rest + [last];
      OrderCovers(nodes, parents, owners, active, last);
      OrderOfCovers(nodes, parents, owners, active, x, rest);
      forall id | id in Order(nodes, last) ensures id !in OrderOf(nodes, x, rest) {
        if c :| c in rest && Concerns(parents, owners, active, c, id) {
          assert c in children && c in nodes[x].children && c < last;
          SiblingsApart(parents, owners[id], last, c);
        }
      }
      OnceConcat(Order(nodes, last), OrderOf(nodes, x, rest));
      hide Concerns, Order, Listed, TreeShaped, Once;
      SplitExists(children, rest, last, parents, owners, active);
    }
  }

  lemma SplitExists(children: seq<nat>, rest: seq<nat>, last: nat, parents: Parents, owners: seq<nat>, active: set<Id>)
    requires children == rest + [last]
    ensures forall id :: (exists c :: c in children && Concerns(parents, owners, active, c, id))
                    <==> Concerns(parents, owners, active, last, id)
                         || exists c :: c in rest && Concerns(parents, owners, active, c, id)
  {
    assert last in children;
    assert forall c | c in rest :: c in children;
  }
}
