/** In which order disposing of a tree of scopes calls the disposers, told without the recursion. */
module ScopeSequence {
  import opened Outcomes
  import opened ScopeOrder

  /** The scopes are in different branches, that of `y` made later. */
  ghost predicate InLaterBranch(parents: Parents, y: nat, z: nat) {
    exists c: nat, d: nat :: d < c < |parents| && Siblings(parents, c, d) && Under(parents, y, c) && Under(parents, z, d)
  }

  ghost predicate Siblings(parents: Parents, c: nat, d: nat) {
    c < |parents| && d < |parents| && parents[c].Some? && parents[c] == parents[d] && parents[c].value < c && parents[c].value < d
  }

  /** `a` is undone before `b`: it was registered later with the same scope, or with a scope
      further down, or in a branch that was made later. */
  ghost predicate Precedes(parents: Parents, owners: seq<nat>, a: Id, b: Id) {
    a < |owners| && b < |owners|
    && if owners[a] == owners[b] then a > b
       else Under(parents, owners[a], owners[b]) || InLaterBranch(parents, owners[a], owners[b])
  }

  ghost predicate InOrder(parents: Parents, owners: seq<nat>, ids: seq<Id>) {
    forall i, j | 0 <= i < j < |ids| :: Precedes(parents, owners, ids[i], ids[j])
  }

  lemma InOrderConcat(parents: Parents, owners: seq<nat>, first: seq<Id>, second: seq<Id>)
    requires InOrder(parents, owners, first) && InOrder(parents, owners, second)
    requires forall a, b | a in first && b in second :: Precedes(parents, owners, a, b)
    ensures InOrder(parents, owners, first + second)
  {
    hide Precedes;
    var all := first + second;
    forall i, j | 0 <= i < j < |all| ensures Precedes(parents, owners, all[i], all[j]) {
      if i < |first| <= j {
        assert first[i] in first && second[j - |first|] in second;
      }
    }
  }

  lemma {:induction false} OwnInOrder(parents: Parents, owners: seq<nat>, own: seq<Id>, x: nat)
    requires Increasing(own) && forall id | id in own :: id < |owners| && owners[id] == x
    ensures InOrder(parents, owners, Reverse(own))
  {
    if own != [] {
      assert own == [own[0]] + own[1..];
      OwnInOrder(parents, owners, own[1..], x);
      ReverseMembers(own[1..]);
      forall a, b | a in Reverse(own[1..]) && b in [own[0]] ensures Precedes(parents, owners, a, b) {
        var k :| 0 <= k < |own[1..]| && own[1..][k] == a;
        assert own[k + 1] == a && own[0] in own;
      }
      InOrderConcat(parents, owners, Reverse(own[1..]), [own[0]]);
    }
  }

  /** Disposing of a scope undoes what lies further down first, later branches before earlier ones,
      and within one scope the latest first. Together with what is undone at all, that is the order
      of disposal. */
  lemma {:induction false} OrderIsInOrder(nodes: seq<Node>, parents: Parents, owners: seq<nat>, active: set<Id>, x: nat)
    requires TreeShaped(nodes, parents) && Listed(nodes, owners, active) && x < |nodes|
    ensures InOrder(parents, owners, Order(nodes, x))
    decreases |nodes| - x, 1, 0
  {
    var children, own := nodes[x].children, nodes[x].registrations;
    assert NodeShaped(nodes, parents, x);
    BranchesInOrder(nodes, parents, owners, active, x, children);
    OrderOfCovers(nodes, parents, owners, active, x, children);
    OwnInOrder(parents, owners, own, x);
    ReverseMembers(own);
    forall a, b | a in OrderOf(nodes, x, children) && b in Reverse(own) ensures Precedes(parents, owners, a, b) {
      var c :| c in children && Concerns(parents, owners, active, c, a);
      BelowAChild(nodes, parents, owners[a], c, x);
    }
    hide InOrder, Precedes;
    InOrderConcat(parents, owners, OrderOf(nodes, x, children), Reverse(own));
  }

  lemma BelowAChild(nodes: seq<Node>, parents: Parents, y: nat, c: nat, x: nat)
    requires TreeShaped(nodes, parents) && x < |nodes| && c in nodes[x].children && Under(parents, y, c)
    ensures y != x && Under(parents, y, x)
  {
    assert NodeShaped(nodes, parents, x);
    UnderAtLeast(parents, y, c);
    assert Under(parents, c, x);
    UnderTransitive(parents, y, c, x);
  }

  lemma {:induction false} BranchesInOrder(nodes: seq<Node>, parents: Parents, owners: seq<nat>, active: set<Id>, x: nat,
                                           children: seq<nat>)
    requires TreeShaped(nodes, parents) && Listed(nodes, owners, active) && x < |nodes|
    requires Increasing(children) && forall c | c in children :: c in nodes[x].children
    ensures InOrder(parents, owners, OrderOf(nodes, x, children))
    decreases |nodes| - x, 0, |children|
  {
    if children != [] {
      var n := |children| - 1;
      var last, rest := children[n], children[..n];
      assert last in children && last in nodes[x].children && NodeShaped(nodes, parents, x);
      assert children == rest + [last];
      OrderIsInOrder(nodes, parents, owners, active, last);
      BranchesInOrder(nodes, parents, owners, active, x, rest);
      OrderCovers(nodes, parents, owners, active, last);
      OrderOfCovers(nodes, parents, owners, active, x, rest);
      forall a, b | a in Order(nodes, last) && b in OrderOf(nodes, x, rest) ensures Precedes(parents, owners, a, b) {
        var c :| c in rest && Concerns(parents, owners, active, c, b);
        assert c in nodes[x].children && c < last;
        LaterBranch(parents, owners[a], owners[b], last, c);
      }
      hide InOrder, Precedes;
      InOrderConcat(parents, owners, Order(nodes, last), OrderOf(nodes, x, rest));
    }
  }

  lemma LaterBranch(parents: Parents, y: nat, z: nat, c: nat, d: nat)
    requires d < c < |parents| && Siblings(parents, c, d) && Under(parents, y, c) && Under(parents, z, d)
    ensures y != z && InLaterBranch(parents, y, z)
  {
    if y == z {
      SiblingsApart(parents, y, c, d);
    }
  }
}
