/** Depth-first ordering of a graph, as three parts of the composition compiler do it: every
    node after all the nodes it needs, or the node at which that fails. */
module DepthFirst {

  type Graph<T> = map<T, seq<T>>

  datatype Outcome<T> = Ordered(done: seq<T>) | Cycle(node: T) | Missing(node: T)

  // --------------------------------------------------------------- the search

  function Visit<T(==)>(graph: Graph<T>, id: T, visiting: set<T>, done: seq<T>): Outcome<T>
    decreases |graph.Keys - visiting|, 0, 0
  {
    if id in done then Ordered(done)
    else if id in visiting then Cycle(id)
    else if id !in graph then Missing(id)
    else
      Smaller(graph.Keys, visiting, id);
      match VisitAll(graph, graph[id], visiting + {id}, done)
      case Ordered(more) => Ordered(more + [id])
      case failure => failure
  }

  function VisitAll<T(==)>(graph: Graph<T>, ids: seq<T>, visiting: set<T>, done: seq<T>): Outcome<T>
    decreases |graph.Keys - visiting|, 1, |ids|
  {
    if ids == [] then Ordered(done)
    else
      match Visit(graph, ids[0], visiting, done)
      case Ordered(more) => VisitAll(graph, ids[1..], visiting, more)
      case failure => failure
  }

  lemma Smaller<T>(keys: set<T>, visiting: set<T>, id: T)
    requires id in keys && id !in visiting
    ensures |keys - (visiting + {id})| < |keys - visiting|
  {
    assert keys - visiting == (keys - (visiting + {id})) + {id};
  }

  // -------------------------------------------------------- what an order is

  ghost predicate Distinct<T>(nodes: seq<T>) {
    forall i, j | 0 <= i < j < |nodes| :: nodes[i] != nodes[j]
  }

  /** Every node is known, stands once, and comes after all the nodes it needs. */
  ghost predicate Topological<T>(graph: Graph<T>, done: seq<T>) {
    && Distinct(done)
    && forall i | 0 <= i < |done| :: done[i] in graph && forall n | n in graph[done[i]] :: n in done[..i]
  }

  ghost predicate ClosedSet<T>(graph: Graph<T>, nodes: set<T>) {
    forall n | n in nodes && n in graph :: forall m | m in graph[n] :: m in nodes
  }

  /** The smallest set that holds the roots and everything they need. */
  ghost predicate LeastClosed<T(!new)>(graph: Graph<T>, roots: seq<T>, nodes: set<T>) {
    && (forall n | n in roots :: n in nodes)
    && ClosedSet(graph, nodes)
    && forall other: set<T> | ClosedSet(graph, other) && (forall n | n in roots :: n in other) :: nodes <= other
  }

  lemma ClosureUnique<T(!new)>(graph: Graph<T>, roots: seq<T>, a: set<T>, b: set<T>)
    requires LeastClosed(graph, roots, a) && LeastClosed(graph, roots, b)
    ensures a == b
  {
  }

  ghost predicate Path<T>(graph: Graph<T>, nodes: seq<T>) {
    && nodes != []
    && forall i | 0 <= i < |nodes| - 1 :: nodes[i] in graph && nodes[i + 1] in graph[nodes[i]]
  }

  /** A path that comes back to where it has been. */
  ghost predicate Lasso<T>(graph: Graph<T>, nodes: seq<T>) {
    Path(graph, nodes) && exists i | 0 <= i < |nodes| - 1 :: nodes[i] == nodes[|nodes| - 1]
  }

  ghost predicate ReachesCycle<T(!new)>(graph: Graph<T>, roots: seq<T>) {
    exists nodes: seq<T> :: Lasso(graph, nodes) && nodes[0] in roots
  }

  ghost predicate ReachesMissing<T(!new)>(graph: Graph<T>, roots: seq<T>) {
    exists nodes: seq<T> :: Path(graph, nodes) && nodes[0] in roots && nodes[|nodes| - 1] !in graph
  }

  // ------------------------------------------------------------ on success

  lemma TopologicalAdd<T>(graph: Graph<T>, done: seq<T>, id: T)
    requires Topological(graph, done) && id in graph && id !in done && forall n | n in graph[id] :: n in done
    ensures Topological(graph, done + [id])
  {
    var all := done + [id];
    forall i | 0 <= i < |all| ensures all[i] in graph && forall n | n in graph[all[i]] :: n in all[..i] {
      if i < |done| {
        assert all[..i] == done[..i];
      } else {
        assert all[..i] == done;
      }
    }
  }

  /** What the search adds: it keeps the order, covers what was asked for and nothing that
      a closed set with it could do without; nodes being visited stay out. */
  ghost predicate Grown<T(!new)>(graph: Graph<T>, ids: seq<T>, visiting: set<T>, done: seq<T>, more: seq<T>) {
    && done <= more && Topological(graph, more)
    && (forall n | n in ids :: n in more)
    && (forall n | n in visiting && n in more :: n in done)
    && (forall other: set<T> | ClosedSet(graph, other) && (forall n | n in ids :: n in other) ::
          forall n | n in more :: n in done || n in other)
  }

  lemma {:induction false} VisitGrows<T(!new)>(graph: Graph<T>, id: T, visiting: set<T>, done: seq<T>)
    requires Topological(graph, done)
    requires Visit(graph, id, visiting, done).Ordered?
    ensures Grown(graph, [id], visiting, done, Visit(graph, id, visiting, done).done)
    decreases |graph.Keys - visiting|, 0, 0
  {
    if id !in done {
      Smaller(graph.Keys, visiting, id);
      VisitAllGrows(graph, graph[id], visiting + {id}, done);
      var more := VisitAll(graph, graph[id], visiting + {id}, done).done;
      assert id !in more;
      TopologicalAdd(graph, more, id);
      forall other: set<T> | ClosedSet(graph, other) && (forall n | n in [id] :: n in other)
        ensures forall n | n in more + [id] :: n in done || n in other
      {
        assert id in [id];
      }
    }
  }

  lemma {:induction false} VisitAllGrows<T(!new)>(graph: Graph<T>, ids: seq<T>, visiting: set<T>, done: seq<T>)
    requires Topological(graph, done)
    requires VisitAll(graph, ids, visiting, done).Ordered?
    ensures Grown(graph, ids, visiting, done, VisitAll(graph, ids, visiting, done).done)
    decreases |graph.Keys - visiting|, 1, |ids|
  {
    if ids != [] {
      VisitGrows(graph, ids[0], visiting, done);
      var more := Visit(graph, ids[0], visiting, done).done;
      VisitAllGrows(graph, ids[1..], visiting, more);
      hide Visit, VisitAll, Topological;
      GrownBoth(graph, ids, visiting, done, more, VisitAll(graph, ids[1..], visiting, more).done);
    }
  }

  lemma GrownBoth<T(!new)>(graph: Graph<T>, ids: seq<T>, visiting: set<T>, done: seq<T>, more: seq<T>, most: seq<T>)
    requires ids != [] && Grown(graph, [ids[0]], visiting, done, more) && Grown(graph, ids[1..], visiting, more, most)
    ensures Grown(graph, ids, visiting, done, most)
  {
    assert ids == [ids[0]] + ids[1..];
    assert ids[0] in [ids[0]] && ids[0] in ids;
    forall n | n in more ensures n in most {
    }
    forall other: set<T> | ClosedSet(graph, other) && (forall n | n in ids :: n in other)
      ensures forall n | n in most :: n in done || n in other
    {
      assert forall n | n in ids[1..] :: n in ids;
      assert forall n | n in [ids[0]] :: n in ids;
    }
  }

  lemma TopologicalClosed<T>(graph: Graph<T>, done: seq<T>)
    requires Topological(graph, done)
    ensures ClosedSet(graph, set n | n in done)
  {
    forall n, m | n in done && n in graph && m in graph[n] ensures m in done {
      var i :| 0 <= i < |done| && done[i] == n;
      assert m in done[..i];
    }
  }

  /** In an order, every path leads to ever earlier places. */
  lemma {:induction false} PathDescends<T>(graph: Graph<T>, done: seq<T>, nodes: seq<T>, i: nat) returns (places: seq<nat>)
    requires Topological(graph, done) && Path(graph, nodes) && nodes[0] in done && i < |nodes|
    ensures |places| == i + 1
    ensures forall k | 0 <= k <= i :: places[k] < |done| && done[places[k]] == nodes[k]
    ensures forall k, l | 0 <= k < l <= i :: places[l] < places[k]
    decreases i
  {
    if i == 0 {
      var p :| 0 <= p < |done| && done[p] == nodes[0];
      places := [p];
    } else {
      places := PathDescends(graph, done, nodes, i - 1);
      assert nodes[i] in graph[nodes[i - 1]] by {
        assert nodes[i - 1 + 1] in graph[nodes[i - 1]];
      }
      var before := done[..places[i - 1]];
      assert nodes[i] in before;
      var p :| 0 <= p < |before| && before[p] == nodes[i];
      places := places + [p];
    }
  }

  lemma OrderedHasNoCycle<T(!new)>(graph: Graph<T>, roots: seq<T>, done: seq<T>)
    requires Topological(graph, done) && forall n | n in roots :: n in done
    ensures !ReachesCycle(graph, roots) && !ReachesMissing(graph, roots)
  {
    forall nodes: seq<T> | Path(graph, nodes) && nodes[0] in roots
      ensures nodes[|nodes| - 1] in graph && !Lasso(graph, nodes)
    {
      var places := PathDescends(graph, done, nodes, |nodes| - 1);
      assert done[places[|nodes| - 1]] == nodes[|nodes| - 1];
    }
  }

  // ------------------------------------------------------------- on failure

  /** How a search fails: the path that shows it. */
  ghost predicate Shows<T(!new)>(graph: Graph<T>, outcome: Outcome<T>, nodes: seq<T>) {
    match outcome
    case Ordered(_) => true
    case Cycle(node) => Lasso(graph, nodes) && nodes[|nodes| - 1] == node
    case Missing(node) => Path(graph, nodes) && nodes[|nodes| - 1] == node && node !in graph
  }

  lemma PathExtends<T>(graph: Graph<T>, nodes: seq<T>, id: T)
    requires Path(graph, nodes) && nodes[|nodes| - 1] in graph && id in graph[nodes[|nodes| - 1]]
    ensures Path(graph, nodes + [id])
  {
  }

  /** The nodes being visited lie on one path from where the search began. */
  ghost predicate OnStack<T>(graph: Graph<T>, visiting: set<T>, stack: seq<T>) {
    (forall n | n in visiting :: n in stack) && (stack != [] ==> Path(graph, stack))
  }

  lemma {:induction false} VisitFails<T(!new)>(graph: Graph<T>, id: T, visiting: set<T>, done: seq<T>, stack: seq<T>)
    returns (nodes: seq<T>)
    requires OnStack(graph, visiting, stack) && Path(graph, stack + [id])
    requires !Visit(graph, id, visiting, done).Ordered?
    ensures Shows(graph, Visit(graph, id, visiting, done), nodes) && nodes != [] && nodes[0] == (stack + [id])[0]
    decreases |graph.Keys - visiting|, 0, 0
  {
    nodes := stack + [id];
    if id in visiting {
      var i :| 0 <= i < |stack| && stack[i] == id;
      assert nodes[i] == nodes[|nodes| - 1];
    } else if id in graph {
      Smaller(graph.Keys, visiting, id);
      assert nodes[|nodes| - 1] == id;
      nodes := VisitAllFails(graph, graph[id], visiting + {id}, done, nodes);
    }
  }

  lemma {:induction false} VisitAllFails<T(!new)>(graph: Graph<T>, ids: seq<T>, visiting: set<T>, done: seq<T>, stack: seq<T>)
    returns (nodes: seq<T>)
    requires OnStack(graph, visiting, stack) && stack != [] && stack[|stack| - 1] in graph
    requires forall n | n in ids :: n in graph[stack[|stack| - 1]]
    requires !VisitAll(graph, ids, visiting, done).Ordered?
    ensures Shows(graph, VisitAll(graph, ids, visiting, done), nodes) && nodes != [] && nodes[0] == stack[0]
    decreases |graph.Keys - visiting|, 1, |ids|
  {
    assert ids[0] in ids && forall n | n in ids[1..] :: n in ids;
    PathExtends(graph, stack, ids[0]);
    if Visit(graph, ids[0], visiting, done).Ordered? {
      nodes := VisitAllFails(graph, ids[1..], visiting, Visit(graph, ids[0], visiting, done).done, stack);
    } else {
      nodes := VisitFails(graph, ids[0], visiting, done, stack);
      assert (stack + [ids[0]])[0] == stack[0];
    }
  }

  /** A search from the roots on. */
  function Order<T(==)>(graph: Graph<T>, roots: seq<T>): Outcome<T> {
    VisitAll(graph, roots, {}, [])
  }

  lemma {:induction false} RootsFail<T(!new)>(graph: Graph<T>, ids: seq<T>, done: seq<T>) returns (nodes: seq<T>)
    requires !VisitAll(graph, ids, {}, done).Ordered?
    ensures Shows(graph, VisitAll(graph, ids, {}, done), nodes) && nodes != [] && nodes[0] in ids
    decreases |ids|
  {
    if Visit(graph, ids[0], {}, done).Ordered? {
      nodes := RootsFail(graph, ids[1..], Visit(graph, ids[0], {}, done).done);
    } else {
      assert [] + [ids[0]] == [ids[0]];
      nodes := VisitFails(graph, ids[0], {}, done, []);
    }
  }

  /** The search succeeds if and only if the roots reach neither a cycle nor an unknown node.
      Then its result is an order of the least closed set that holds the roots. */
  lemma OrderIsRight<T(!new)>(graph: Graph<T>, roots: seq<T>)
    ensures Order(graph, roots).Ordered? <==> !ReachesCycle(graph, roots) && !ReachesMissing(graph, roots)
    ensures Order(graph, roots).Cycle? ==> ReachesCycle(graph, roots)
    ensures Order(graph, roots).Missing? ==> ReachesMissing(graph, roots)
    ensures Order(graph, roots).Ordered? ==>
              var done := Order(graph, roots).done;
              Topological(graph, done) && LeastClosed(graph, roots, set n | n in done)
  {
    var outcome := Order(graph, roots);
    if outcome.Ordered? {
      VisitAllGrows(graph, roots, {}, []);
      TopologicalClosed(graph, outcome.done);
      OrderedHasNoCycle(graph, roots, outcome.done);
    } else {
      var nodes := RootsFail(graph, roots, []);
      assert Path(graph, nodes) && nodes[0] in roots;
    }
  }

  // --------------------------------------------------------- reachable nodes

  ghost predicate Reachable<T(!new)>(graph: Graph<T>, roots: seq<T>, n: T) {
    exists nodes: seq<T> :: Path(graph, nodes) && nodes[0] in roots && nodes[|nodes| - 1] == n
  }

  /** The least closed set holds what the roots reach, and nothing else. */
  lemma LeastIsReachable<T(!new)>(graph: Graph<T>, roots: seq<T>, least: set<T>, n: T)
    requires LeastClosed(graph, roots, least) && n in least
    ensures Reachable(graph, roots, n)
  {
    var reached := set k | k in least && Reachable(graph, roots, k);
    forall k | k in roots ensures k in reached {
      assert Path(graph, [k]);
    }
    forall k, m | k in reached && k in graph && m in graph[k] ensures m in reached {
      var nodes: seq<T> :| Path(graph, nodes) && nodes[0] in roots && nodes[|nodes| - 1] == k;
      PathExtends(graph, nodes, m);
      assert (nodes + [m])[0] in roots;
    }
    assert ClosedSet(graph, reached);
  }

  lemma JoinPaths<T>(graph: Graph<T>, first: seq<T>, second: seq<T>) returns (joined: seq<T>)
    requires Path(graph, first) && Path(graph, second) && first[|first| - 1] == second[0]
    ensures joined == first[..|first| - 1] + second && Path(graph, joined) && joined[0] == first[0]
  {
    joined := first[..|first| - 1] + second;
    var n := |first| - 1;
    forall i | 0 <= i < |joined| - 1 ensures joined[i] in graph && joined[i + 1] in graph[joined[i]] {
      if i >= n {
        assert second[i - n] in graph && second[i - n + 1] in graph[second[i - n]];
      } else {
        assert first[i] in graph && first[i + 1] in graph[first[i]];
      }
    }
  }

  /** Roots and the least closed set that holds them reach the same. */
  lemma ReachesTheSame<T(!new)>(graph: Graph<T>, roots: seq<T>, least: set<T>, all: seq<T>)
    requires LeastClosed(graph, roots, least) && forall n :: n in all <==> n in least
    ensures ReachesCycle(graph, all) <==> ReachesCycle(graph, roots)
    ensures ReachesMissing(graph, all) <==> ReachesMissing(graph, roots)
  {
    hide LeastClosed;
    assert forall n | n in roots :: n in all by {
      RootsInLeast(graph, roots, least);
    }
    if nodes: seq<T> :| Lasso(graph, nodes) && nodes[0] in all {
      LeastIsReachable(graph, roots, least, nodes[0]);
      var first: seq<T> :| Path(graph, first) && first[0] in roots && first[|first| - 1] == nodes[0];
      var joined := JoinPaths(graph, first, nodes);
      LassoJoined(graph, first, nodes, joined);
    }
    if nodes: seq<T> :| Path(graph, nodes) && nodes[0] in all && nodes[|nodes| - 1] !in graph {
      LeastIsReachable(graph, roots, least, nodes[0]);
      var first: seq<T> :| Path(graph, first) && first[0] in roots && first[|first| - 1] == nodes[0];
      var joined := JoinPaths(graph, first, nodes);
      assert joined[|joined| - 1] == nodes[|nodes| - 1];
    }
  }

  lemma RootsInLeast<T(!new)>(graph: Graph<T>, roots: seq<T>, least: set<T>)
    requires LeastClosed(graph, roots, least)
    ensures forall n | n in roots :: n in least
  {
  }

  lemma LassoJoined<T>(graph: Graph<T>, first: seq<T>, nodes: seq<T>, joined: seq<T>)
    requires first != [] && Lasso(graph, nodes) && joined == first[..|first| - 1] + nodes && Path(graph, joined)
    ensures Lasso(graph, joined)
  {
    var i :| 0 <= i < |nodes| - 1 && nodes[i] == nodes[|nodes| - 1];
    assert joined[|first| - 1 + i] == nodes[i] && joined[|joined| - 1] == nodes[|nodes| - 1];
  }

  /** Two graphs that differ only in how they list what a node needs. */
  ghost predicate Alike<T(!new)>(a: Graph<T>, b: Graph<T>) {
    a.Keys == b.Keys && forall n, m | n in a :: m in a[n] <==> m in b[n]
  }

  lemma AlikeClosed<T(!new)>(a: Graph<T>, b: Graph<T>, nodes: set<T>)
    requires Alike(a, b)
    ensures ClosedSet(a, nodes) <==> ClosedSet(b, nodes)
  {
  }

  lemma AlikePath<T(!new)>(a: Graph<T>, b: Graph<T>, nodes: seq<T>)
    requires Alike(a, b) && Path(a, nodes)
    ensures Path(b, nodes)
  {
  }

  lemma AlikeTopological<T(!new)>(a: Graph<T>, b: Graph<T>, done: seq<T>)
    requires Alike(a, b) && Topological(a, done)
    ensures Topological(b, done)
  {
  }

  lemma AlikeReaches<T(!new)>(a: Graph<T>, b: Graph<T>, roots: seq<T>)
    requires Alike(a, b)
    ensures ReachesCycle(a, roots) ==> ReachesCycle(b, roots)
    ensures ReachesMissing(a, roots) ==> ReachesMissing(b, roots)
  {
    if nodes: seq<T> :| Lasso(a, nodes) && nodes[0] in roots {
      AlikePath(a, b, nodes);
      assert Lasso(b, nodes);
    }
    if nodes: seq<T> :| Path(a, nodes) && nodes[0] in roots && nodes[|nodes| - 1] !in a {
      AlikePath(a, b, nodes);
    }
  }

  lemma AlikeLeast<T(!new)>(a: Graph<T>, b: Graph<T>, roots: seq<T>, nodes: set<T>)
    requires Alike(a, b) && LeastClosed(a, roots, nodes)
    ensures LeastClosed(b, roots, nodes)
  {
    AlikeClosed(a, b, nodes);
    forall other: set<T> | ClosedSet(b, other) && (forall n | n in roots :: n in other) ensures nodes <= other {
      AlikeClosed(a, b, other);
    }
  }

  // -------------------------------------------------------- the search itself

  /** The sets and the list that a search updates while it goes down and comes back. */
  class Search<T(==)> {
    const graph: Graph<T>
    var result: seq<T>
    var visiting: set<T>

    constructor (graph: Graph<T>)
      ensures this.graph == graph && result == [] && visiting == {}
    {
      this.graph := graph;
      result, visiting := [], {};
    }

    method Walk(id: T) returns (outcome: Outcome<T>)
      modifies this
      ensures outcome == Visit(graph, id, old(visiting), old(result))
      ensures outcome.Ordered? ==> result == outcome.done && visiting == old(visiting)
      decreases |graph.Keys - visiting|, 0, 0
    {
      if id in result {
        return Ordered(result);
      }
      if id in visiting {
        return Cycle(id);
      }
      if id !in graph {
        return Missing(id);
      }
      Smaller(graph.Keys, visiting, id);
      visiting := visiting + {id};
      outcome := WalkAll(graph[id]);
      if outcome.Ordered? {
        visiting := visiting - {id};
        result := result + [id];
        outcome := Ordered(result);
      }
    }

    method WalkAll(ids: seq<T>) returns (outcome: Outcome<T>)
      modifies this
      ensures outcome == VisitAll(graph, ids, old(visiting), old(result))
      ensures outcome.Ordered? ==> result == outcome.done && visiting == old(visiting)
      decreases |graph.Keys - visiting|, 1, |ids|
    {
      ghost var whole := VisitAll(graph, ids, visiting, result);
      for i := 0 to |ids|
        invariant visiting == old(visiting) && whole == VisitAll(graph, ids[i..], visiting, result)
      {
        assert ids[i..][0] == ids[i] && ids[i..][1..] == ids[i + 1..];
        outcome := Walk(ids[i]);
        if !outcome.Ordered? {
          return;
        }
      }
      assert ids[|ids|..] == [];
      return Ordered(result);
    }
  }
}
