/**
 * What a playout leaves in the nodes it passed: each holds exactly the average that its own counts and its
 * children's final values make (mcts-core/src/mcts.rs). The walk back settles the leaf's end first, which is what
 * this depends on.
 */
module CurrentValues {
  import opened Wrappers
  import opened Sums
  import opened Environment
  import opened SearchNode
  import opened SearchGraph
  import opened Backpropagation

  /** Each action's visits times its child's stored value with the penalty; nothing without a stored child. */
  ghost predicate Backs(g: Graph, n: Node, share: Act -> real) {
    forall a :: a in n.valid && a < n.numActions && |n.children| == |n.edgeVisits| == |n.penalties| == n.numActions ==>
      share(a) ==
        if n.children[a].Some? && n.children[a].value in g
        then n.edgeVisits[a] as real * (g[n.children[a].value].value + n.penalties[a])
        else 0.0
  }

  lemma {:induction false} BackedTotal(g: Graph, n: Node, share: Act -> real, actions: seq<Act>)
    requires n.Dense() && Backs(g, n, share)
    requires forall k :: 0 <= k < |actions| ==> actions[k] in n.valid && actions[k] < n.numActions
    ensures WeightedValue(g, n, actions) == Total(share, actions)
  {
    if actions != [] {
      assert actions[0] in n.valid;
      BackedShare(g, n, share, actions[0]);
      assert forall k :: 0 <= k < |actions[1..]| ==> actions[1..][k] == actions[k + 1];
      BackedTotal(g, n, share, actions[1..]);
    }
  }

  lemma BackedShare(g: Graph, n: Node, share: Act -> real, a: Act)
    requires n.Dense() && Backs(g, n, share) && a in n.valid && a < n.numActions
    ensures Contribution(g, n, a) == share(a)
  {
    if n.edgeVisits[a] == 0 && n.children[a].Some? && n.children[a].value in g {
      NoVisits(g[n.children[a].value].value + n.penalties[a]);
    }
  }

  /** The stored count and value are what the node's own counts and its children's stored values make. */
  ghost predicate Current(g: Graph, id: NodeId) {
    id in g ==> Recompute(g, id) == g
  }

  /** In numbers: one more than all settled and pending visits, and the estimate plus every backed share over that. */
  lemma CurrentInNumbers(g: Graph, id: NodeId, share: Act -> real)
    requires id in g && g[id].Dense() && Current(g, id) && Backs(g, g[id], share)
    ensures var n := g[id];
      && n.visits == 1 + Sum(n.edgeVisits) + Sum(n.losses)
      && n.value == (n.estimate + Total(share, n.valid)) / (1 + Sum(n.edgeVisits) + Sum(n.losses)) as real
  {
    var n := g[id];
    assert n == Recomputed(g, n);
    forall k | 0 <= k < |n.valid| ensures n.valid[k] in n.valid && n.valid[k] < n.numActions {
    }
    BackedTotal(g, n, share, n.valid);
    RecomputedIsAverage(g, n);
    ValidIsDense(g, n);
  }

  /** No child of the node is among these ids. */
  ghost predicate NoChildIn(n: Node, ids: set<NodeId>) {
    forall a: Act :: n.Child(a).Some? ==> n.Child(a).value !in ids
  }

  lemma {:induction false} WeightedReads(g: Graph, h: Graph, n: Node, m: Node, actions: seq<Act>)
    requires m == n.(visits := m.visits, value := m.value)
    requires forall a: Act :: n.Child(a).Some? ==>
      var c := n.Child(a).value; (c in g <==> c in h) && (c in g ==> g[c].value == h[c].value)
    ensures WeightedValue(h, m, actions) == WeightedValue(g, n, actions)
  {
    if actions != [] {
      assert m.Child(actions[0]) == n.Child(actions[0]);
      WeightedReads(g, h, n, m, actions[1..]);
    }
  }

  lemma {:induction false} VisitsViaReads(n: Node, m: Node, actions: seq<Act>)
    requires m == n.(visits := m.visits, value := m.value)
    ensures VisitsVia(m, actions) == VisitsVia(n, actions)
  {
    if actions != [] {
      assert m.Child(actions[0]) == n.Child(actions[0]);
      VisitsViaReads(n, m, actions[1..]);
    }
  }

  /** Recomputing makes a node current, unless it is its own child. */
  lemma RecomputeMakesCurrent(g: Graph, id: NodeId)
    requires id in g && NoChildIn(g[id], {id})
    ensures Current(Recompute(g, id), id)
  {
    var h := Recompute(g, id);
    WeightedReads(g, h, g[id], h[id], g[id].valid);
    VisitsViaReads(g[id], h[id], g[id].valid);
    assert Recomputed(h, h[id]) == h[id];
  }

  /** A node stays current while neither it nor a child of it changes. */
  lemma CurrentStays(g: Graph, h: Graph, id: NodeId)
    requires Current(g, id) && id in g && id in h && h[id] == g[id] && g.Keys == h.Keys
    requires forall a: Act :: g[id].Child(a).Some? && g[id].Child(a).value in g ==>
      h[g[id].Child(a).value] == g[g[id].Child(a).value]
    ensures Current(h, id)
  {
    var n := g[id];
    WeightedReads(g, h, n, n, n.valid);
    assert Recomputed(g, n) == n;
    assert Recomputed(h, n) == n;
  }

  lemma IdsOfPrefix(path: Path, i: nat, j: nat)
    requires i <= j <= |path|
    ensures Ids(path[..i]) <= Ids(path[..j])
  {
    assert path[..i] == path[..j][..i];
    assert forall k :: 0 <= k < i ==> path[..i][k] == path[..j][k];
  }

  /** Settling a path leaves entry `i` current, when none of its children lies on the path before or at it. */
  lemma {:induction false} VisitPathCurrent<S(!new)>(game: Game<S>, g: Graph, path: Path, i: nat)
    requires Coherent(game, g) && AllExpanded(g, path) && Simple(path) && i < |path|
    requires NoChildIn(g[path[i].0], Ids(path[..i + 1]))
    ensures path[i].0 in VisitPath(g, path) && Current(VisitPath(g, path), path[i].0)
    decreases |path|
  {
    var e, rest := path[|path| - 1], path[..|path| - 1];
    var h := VisitEdge(g, e);
    VisitEdgeKeeps(game, g, e);
    ExpandedAfterTallies(g, h, path);
    assert AllExpanded(h, rest);
    SimpleLast(path);
    if i == |path| - 1 {
      LastStaysCurrent(game, g, path);
    } else {
      assert rest[i] == path[i] && rest[..i + 1] == path[..i + 1];
      assert KeepsButTallies(g, h, path[i].0);
      forall a: Act ensures h[path[i].0].Child(a) == g[path[i].0].Child(a) {
      }
      VisitPathCurrent(game, h, rest, i);
    }
  }

  lemma LastStaysCurrent<S(!new)>(game: Game<S>, g: Graph, path: Path)
    requires Coherent(game, g) && AllExpanded(g, path) && Simple(path) && path != []
    requires NoChildIn(g[path[|path| - 1].0], Ids(path))
    ensures path[|path| - 1].0 in VisitPath(g, path) && Current(VisitPath(g, path), path[|path| - 1].0)
  {
    var e, rest := path[|path| - 1], path[..|path| - 1];
    var h := VisitEdge(g, e);
    VisitEdgeKeeps(game, g, e);
    ExpandedAfterTallies(g, h, path);
    SimpleLast(path);
    assert e.0 in Ids(path);
    var g1 := AddEdgeVisit(g, e);
    forall a: Act ensures g1[e.0].Child(a) == g[e.0].Child(a) {
    }
    RecomputeMakesCurrent(g1, e.0);
    VisitPathKeeps(game, h, rest);
    assert Ids(rest) <= Ids(path);
    VisitPathElsewhere(h, rest, e.0);
    forall a: Act | h[e.0].Child(a).Some? && h[e.0].Child(a).value in h
      ensures VisitPath(h, rest)[h[e.0].Child(a).value] == h[h[e.0].Child(a).value]
    {
      assert h[e.0].Child(a) == g[e.0].Child(a);
      VisitPathElsewhere(h, rest, h[e.0].Child(a).value);
    }
    CurrentStays(h, VisitPath(g, path), e.0);
  }

  lemma UnsettledChildren(g: Graph, path: Path, repeat: bool, id: NodeId)
    requires id in g
    ensures var u := Unsettled(g, path, repeat);
      id in u && forall a: Act :: u[id].Child(a) == g[id].Child(a)
  {
    RevertPathOnlyLosses(g, path);
    assert KeepsButLosses(g, RevertPath(g, path), id);
  }

  /** After a playout every node of its path, none of whose children lies before or at it on the path, is current: its value is
      the average over its children as they are stored in the end. */
  lemma BackpropCurrent<S(!new)>(game: Game<S>, g: Graph, path: Path, repeat: bool, pending: multiset<Edge>, i: nat)
    requires Coherent(game, g) && Balanced(g, pending) && multiset(path) <= pending && Settled(g, {})
    requires AllExpanded(g, path) && Simple(path) && i < |path| && NoChildIn(g[path[i].0], Ids(path[..i + 1]))
    ensures var h := Backprop(g, path, repeat);
      path[i].0 in h && h[path[i].0].Dense() && Current(h, path[i].0)
  {
    var u := Unsettled(g, path, repeat);
    UnsettledKeeps(game, g, path, repeat, pending);
    BackpropKeeps(game, g, path, repeat, pending);
    assert Expanded(g, path[i]);
    UnsettledChildren(g, path, repeat, path[i].0);
    ExpandedEvolves(g, u, path);
    VisitPathCurrent(game, u, path, i);
    assert NodeCoherent(game, Backprop(g, path, repeat), path[i].0);
  }
}
