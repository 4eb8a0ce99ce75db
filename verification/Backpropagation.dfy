/** What one call of `backpropagate` does to the whole graph (mcts-core/src/mcts.rs). */
module Backpropagation {
  import opened Wrappers
  import opened Sums
  import opened Environment
  import opened SearchNode
  import opened SearchGraph

  // ----- structure and counts -----

  lemma EvolvesChain(g: Graph, g1: Graph, g2: Graph)
    requires Evolves(g, g1) && Evolves(g1, g2)
    ensures Evolves(g, g2)
  {
    forall id ensures EvolvesAt(g, g2, id) {
      assert EvolvesAt(g, g1, id) && EvolvesAt(g1, g2, id);
    }
  }

  lemma OnlyLossesEvolves(g: Graph, g': Graph)
    requires OnlyLosses(g, g')
    ensures Evolves(g, g') && VisitsGrowBy(g, g', multiset{})
  {
    forall id ensures EvolvesAt(g, g', id) {
      assert KeepsButLosses(g, g', id);
    }
    forall e ensures Counted(g, g', multiset{}, e) {
      assert KeepsButLosses(g, g', e.0);
    }
  }

  lemma ExpandedEvolves(g: Graph, g': Graph, path: Path)
    requires AllExpanded(g, path) && Evolves(g, g')
    ensures AllExpanded(g', path)
  {
    forall i | 0 <= i < |path| ensures Expanded(g', path[i]) {
      assert Expanded(g, path[i]) && EvolvesAt(g, g', path[i].0);
    }
  }

  lemma {:induction false} RevertPathElsewhere(g: Graph, path: Path, id: NodeId)
    requires id in g && id !in Ids(path)
    ensures id in RevertPath(g, path) && RevertPath(g, path)[id] == g[id]
    decreases |path|
  {
    if path != [] {
      var e, rest := path[|path| - 1], path[..|path| - 1];
      assert e.0 in Ids(path) && Ids(rest) <= Ids(path);
      RevertPathElsewhere(RevertLoss(g, e), rest, id);
    }
  }

  lemma RevertPathSettles(g: Graph, path: Path)
    requires Settled(g, {})
    ensures Settled(RevertPath(g, path), Ids(path))
  {
    RevertPathOnlyLosses(g, path);
    var g', ids := RevertPath(g, path), Ids(path);
    forall id ensures SettledAt(g', ids, id) {
      assert SettledAt(g, {}, id);
      if id in g && id !in ids {
        RevertPathElsewhere(g, path, id);
      }
    }
  }

  lemma PenalizeKeeps<S(!new)>(game: Game<S>, g: Graph, e: Edge, except: set<NodeId>)
    requires Coherent(game, g) && Settled(g, except)
    ensures Coherent(game, Penalize(g, e)) && OnlyTallies(g, Penalize(g, e))
    ensures Settled(Penalize(g, e), except) && VisitsGrowBy(g, Penalize(g, e), multiset{})
  {
    var g' := Penalize(g, e);
    if e.0 in g && g[e.0].valid != [] {
      assert NodeCoherent(game, g, e.0);
      CoherentUpdate(game, g, e.0, g[e.0].ApplyPenalty(e.1));
    }
    assert OnlyTallies(g, g');
    forall id ensures SettledAt(g', except, id) {
      assert SettledAt(g, except, id);
    }
    assert VisitsGrowBy(g, g', multiset{});
  }

  lemma UnsettledKeeps<S(!new)>(game: Game<S>, g: Graph, path: Path, repeat: bool, pending: multiset<Edge>)
    requires Coherent(game, g) && Balanced(g, pending) && Settled(g, {})
    requires multiset(path) <= pending
    ensures Coherent(game, Unsettled(g, path, repeat)) && Evolves(g, Unsettled(g, path, repeat))
    ensures Balanced(Unsettled(g, path, repeat), pending - multiset(path))
    ensures Settled(Unsettled(g, path, repeat), Ids(path))
    ensures VisitsGrowBy(g, Unsettled(g, path, repeat), multiset{})
    ensures Unsettled(g, path, repeat).Keys == g.Keys
  {
    var g1 := RevertPath(g, path);
    RevertPathKeeps(game, g, path, pending);
    RevertPathOnlyLosses(g, path);
    OnlyLossesEvolves(g, g1);
    RevertPathSettles(g, path);
    if path != [] && repeat {
      var g2 := Penalize(g1, path[|path| - 1]);
      PenalizeKeeps(game, g1, path[|path| - 1], Ids(path));
      BalancedTallies(g1, g2, pending - multiset(path));
      OnlyTalliesEvolves(g1, g2);
      EvolvesChain(g, g1, g2);
      var none: multiset<Edge> := multiset{};
      VisitsGrowChain(g, g1, g2, none, none);
      assert none + none == none;
    }
  }

  /** Settling one pending path takes exactly its edges off the virtual losses, adds exactly its edges
      to the visit counts, and leaves every node off the remaining pending paths with a settled total. */
  lemma BackpropKeeps<S(!new)>(game: Game<S>, g: Graph, path: Path, repeat: bool, pending: multiset<Edge>)
    requires Coherent(game, g) && Balanced(g, pending) && Settled(g, {})
    requires multiset(path) <= pending && AllExpanded(g, path)
    ensures Coherent(game, Backprop(g, path, repeat))
    ensures Balanced(Backprop(g, path, repeat), pending - multiset(path))
    ensures Settled(Backprop(g, path, repeat), {})
    ensures VisitsGrowBy(g, Backprop(g, path, repeat), multiset(path))
    ensures Evolves(g, Backprop(g, path, repeat)) && Backprop(g, path, repeat).Keys == g.Keys
  {
    var g2 := Unsettled(g, path, repeat);
    var g3 := VisitPath(g2, path);
    UnsettledKeeps(game, g, path, repeat, pending);
    ExpandedEvolves(g, g2, path);
    VisitPathKeeps(game, g2, path);
    BalancedTallies(g2, g3, pending - multiset(path));
    VisitPathSettles(game, g2, path, Ids(path));
    VisitPathCounts(game, g2, path);
    OnlyTalliesEvolves(g2, g3);
    VisitsGrowChain(g, g2, g3, multiset{}, multiset(path));
    assert multiset{} + multiset(path) == multiset(path);
    EvolvesChain(g, g2, g3);
  }

  // ----- value bounds -----

  /** One visit of slack is allowed on the edge that was just penalised. */
  ghost predicate PenaltyBounded(n: Node, id: NodeId, penalised: Option<Edge>, a: Act) {
    a < |n.penalties| && a < |n.edgeVisits| ==>
      var slack := if penalised == Some((id, a)) then 1 else 0;
      n.penalties[a] <= 0.0 && n.penalties[a] * |n.valid| as real >= -((n.edgeVisits[a] + slack) as real)
  }

  ghost predicate BoundedAt(g: Graph, penalised: Option<Edge>, id: NodeId) {
    id in g ==>
      && |g[id].penalties| == |g[id].edgeVisits|
      && g[id].estimate <= 1.0 && g[id].value <= 1.0
      && forall a: Act :: PenaltyBounded(g[id], id, penalised, a)
  }

  /** Values and estimates are at most 1; a penalty lies between minus visits over actions and zero,
      but for one unit on an edge just penalised. */
  ghost predicate UpperBounded(g: Graph, penalised: Option<Edge>) {
    forall id :: BoundedAt(g, penalised, id)
  }

  lemma ScaledAtMost(k: nat, v: real)
    requires v <= 1.0
    ensures k as real * v <= k as real
  {
  }

  lemma ContributionAtMost(g: Graph, penalised: Option<Edge>, id: NodeId, n: Node, a: Act)
    requires UpperBounded(g, penalised) && id in g && g[id] == n
    ensures Contribution(g, n, a) <= VisitsVia(n, [a]) as real
  {
    assert BoundedAt(g, penalised, id);
    if n.Child(a).Some? && n.Child(a).value in g && a < |n.edgeVisits| && n.edgeVisits[a] > 0 {
      var c := n.Child(a).value;
      assert BoundedAt(g, penalised, c);
      assert PenaltyBounded(n, id, penalised, a);
      ScaledAtMost(n.edgeVisits[a], g[c].value + n.penalties[a]);
    }
  }

  lemma {:induction false} WeightedAtMost(g: Graph, penalised: Option<Edge>, id: NodeId, n: Node, actions: seq<Act>)
    requires UpperBounded(g, penalised) && id in g && g[id] == n
    ensures WeightedValue(g, n, actions) <= VisitsVia(n, actions) as real
    decreases |actions|
  {
    if actions != [] {
      ContributionAtMost(g, penalised, id, n, actions[0]);
      WeightedAtMost(g, penalised, id, n, actions[1..]);
    }
  }

  lemma AverageWithin(total: real, count: nat)
    requires count > 0
    ensures total <= count as real ==> Average(total, count) <= 1.0
    ensures total >= -(count as real) ==> Average(total, count) >= -1.0
  {
  }

  lemma RecomputeAtMost(g: Graph, id: NodeId)
    requires UpperBounded(g, None) && id in g
    ensures Recomputed(g, g[id]).value <= 1.0
  {
    var n := g[id];
    assert BoundedAt(g, None, id);
    WeightedAtMost(g, None, id, n, n.valid);
    var total := VisitsVia(n, n.valid) + Sum(n.losses);
    AverageWithin(n.estimate + WeightedValue(g, n, n.valid), 1 + total);
  }

  lemma VisitAbsorbsPenalty(g: Graph, e: Edge, penalised: Option<Edge>)
    requires UpperBounded(g, penalised) && Stored(g, e) && (penalised == None || penalised == Some(e))
    requires e.1 < |g[e.0].edgeVisits|
    ensures UpperBounded(AddEdgeVisit(g, e), None)
  {
    var g' := AddEdgeVisit(g, e);
    forall id ensures BoundedAt(g', None, id) {
      assert BoundedAt(g, penalised, id);
      if id in g' {
        forall a: Act ensures PenaltyBounded(g'[id], id, None, a) {
          assert PenaltyBounded(g[id], id, penalised, a);
        }
      }
    }
  }

  lemma RecomputeUpper(g: Graph, id: NodeId)
    requires UpperBounded(g, None) && id in g
    ensures UpperBounded(Recompute(g, id), None)
  {
    var n' := Recomputed(g, g[id]);
    RecomputeAtMost(g, id);
    assert n' == g[id].(visits := n'.visits, value := n'.value);
    var g' := g[id := n'];
    forall k ensures BoundedAt(g', None, k) {
      assert BoundedAt(g, None, k);
      if k == id {
        forall a: Act ensures PenaltyBounded(n', id, None, a) {
          assert PenaltyBounded(g[id], id, None, a);
        }
      }
    }
  }

  lemma {:induction false} VisitPathUpper<S(!new)>(game: Game<S>, g: Graph, path: Path, penalised: Option<Edge>)
    requires Coherent(game, g) && AllExpanded(g, path) && UpperBounded(g, penalised)
    requires penalised == None || (path != [] && penalised == Some(path[|path| - 1]))
    ensures UpperBounded(VisitPath(g, path), None)
    decreases |path|
  {
    if path != [] {
      var e, rest := path[|path| - 1], path[..|path| - 1];
      assert Expanded(g, e) && NodeCoherent(game, g, e.0);
      VisitAbsorbsPenalty(g, e, penalised);
      RecomputeUpper(AddEdgeVisit(g, e), e.0);
      VisitEdgeKeeps(game, g, e);
      ExpandedAfterTallies(g, VisitEdge(g, e), path);
      VisitPathUpper(game, VisitEdge(g, e), rest, None);
    }
  }

  lemma OnlyLossesUpper(g: Graph, g': Graph)
    requires UpperBounded(g, None) && OnlyLosses(g, g')
    ensures UpperBounded(g', None)
  {
    forall id ensures BoundedAt(g', None, id) {
      assert BoundedAt(g, None, id) && KeepsButLosses(g, g', id);
      if id in g' {
        forall a: Act ensures PenaltyBounded(g'[id], id, None, a) {
          assert PenaltyBounded(g[id], id, None, a);
        }
      }
    }
  }

  lemma PenaltyStep(p: real, k: nat, visits: nat)
    requires k > 0 && p <= 0.0 && p * k as real >= -(visits as real)
    ensures p - 1.0 / k as real <= 0.0
    ensures (p - 1.0 / k as real) * k as real >= -((visits + 1) as real)
  {
    assert (1.0 / k as real) * k as real == 1.0;
    assert (p - 1.0 / k as real) * k as real == p * k as real - 1.0;
  }

  lemma PenalizeUpper(g: Graph, e: Edge)
    requires UpperBounded(g, None) && Stored(g, e)
    ensures UpperBounded(Penalize(g, e), Some(e))
  {
    var g' := Penalize(g, e);
    assert BoundedAt(g, None, e.0) && PenaltyBounded(g[e.0], e.0, None, e.1);
    if e.1 < |g[e.0].penalties| {
      PenaltyStep(g[e.0].penalties[e.1], |g[e.0].valid|, g[e.0].edgeVisits[e.1]);
    }
    forall id ensures BoundedAt(g', Some(e), id) {
      assert BoundedAt(g, None, id);
      if id in g' {
        forall a: Act ensures PenaltyBounded(g'[id], id, Some(e), a) {
          assert PenaltyBounded(g[id], id, None, a);
        }
      }
    }
  }

  /** Values of at most 1 before a backpropagation are at most 1 after it. */
  lemma BackpropUpper<S(!new)>(game: Game<S>, g: Graph, path: Path, repeat: bool, pending: multiset<Edge>)
    requires Coherent(game, g) && Balanced(g, pending) && Settled(g, {})
    requires multiset(path) <= pending && AllExpanded(g, path)
    requires UpperBounded(g, None)
    ensures UpperBounded(Backprop(g, path, repeat), None)
  {
    var g1 := RevertPath(g, path);
    RevertPathOnlyLosses(g, path);
    OnlyLossesUpper(g, g1);
    UnsettledKeeps(game, g, path, repeat, pending);
    ExpandedEvolves(g, Unsettled(g, path, repeat), path);
    if path != [] && repeat {
      var e := path[|path| - 1];
      OnlyLossesEvolves(g, g1);
      ExpandedEvolves(g, g1, path);
      assert Expanded(g1, e);
      PenalizeUpper(g1, e);
      VisitPathUpper(game, Penalize(g1, e), path, Some(e));
    } else {
      VisitPathUpper(game, g1, path, None);
    }
  }

  ghost predicate Unpenalised(n: Node, a: Act) {
    a < |n.penalties| ==> n.penalties[a] == 0.0
  }

  ghost predicate BoundedBelowAt(g: Graph, id: NodeId) {
    id in g ==>
      && g[id].estimate >= -1.0 && g[id].value >= -1.0
      && forall a: Act :: Unpenalised(g[id], a)
  }

  /** No repeat has been penalised, and values and estimates are at least -1. */
  ghost predicate LowerBounded(g: Graph) {
    forall id :: BoundedBelowAt(g, id)
  }

  lemma ScaledAtLeast(k: nat, v: real)
    requires v >= -1.0
    ensures k as real * v >= -(k as real)
  {
  }

  lemma ContributionAtLeast(g: Graph, id: NodeId, n: Node, a: Act)
    requires LowerBounded(g) && id in g && g[id] == n
    ensures Contribution(g, n, a) >= -(VisitsVia(n, [a]) as real)
  {
    assert BoundedBelowAt(g, id) && Unpenalised(n, a);
    if n.Child(a).Some? && n.Child(a).value in g && a < |n.edgeVisits| && n.edgeVisits[a] > 0 {
      assert BoundedBelowAt(g, n.Child(a).value);
      ScaledAtLeast(n.edgeVisits[a], g[n.Child(a).value].value);
    }
  }

  lemma {:induction false} WeightedAtLeast(g: Graph, id: NodeId, n: Node, actions: seq<Act>)
    requires LowerBounded(g) && id in g && g[id] == n
    ensures WeightedValue(g, n, actions) >= -(VisitsVia(n, actions) as real)
    decreases |actions|
  {
    if actions != [] {
      ContributionAtLeast(g, id, n, actions[0]);
      WeightedAtLeast(g, id, n, actions[1..]);
    }
  }

  lemma RecomputeLower(g: Graph, id: NodeId)
    requires LowerBounded(g) && id in g
    ensures LowerBounded(Recompute(g, id))
  {
    var n := g[id];
    var n' := Recomputed(g, n);
    assert BoundedBelowAt(g, id);
    WeightedAtLeast(g, id, n, n.valid);
    var total := VisitsVia(n, n.valid) + Sum(n.losses);
    AverageWithin(n.estimate + WeightedValue(g, n, n.valid), 1 + total);
    assert n' == n.(visits := n'.visits, value := n'.value);
    var g' := g[id := n'];
    forall k ensures BoundedBelowAt(g', k) {
      assert BoundedBelowAt(g, k);
      forall a: Act ensures k == id ==> Unpenalised(n', a) {
        assert Unpenalised(n, a);
      }
    }
  }

  ghost predicate SameValues(n: Node, n': Node) {
    n'.penalties == n.penalties && n'.value == n.value && n'.estimate == n.estimate
  }

  lemma SameValuesLower(g: Graph, g': Graph)
    requires LowerBounded(g)
    requires forall id :: id in g' ==> id in g && SameValues(g[id], g'[id])
    ensures LowerBounded(g')
  {
    forall id ensures BoundedBelowAt(g', id) {
      assert BoundedBelowAt(g, id);
      forall a: Act ensures id in g' ==> Unpenalised(g'[id], a) {
        assert id in g' ==> Unpenalised(g[id], a);
      }
    }
  }

  lemma {:induction false} VisitPathLower(g: Graph, path: Path)
    requires LowerBounded(g) && Ids(path) <= g.Keys
    ensures LowerBounded(VisitPath(g, path))
    decreases |path|
  {
    if path != [] {
      var e, rest := path[|path| - 1], path[..|path| - 1];
      assert e.0 in Ids(path) && Ids(rest) <= Ids(path);
      SameValuesLower(g, AddEdgeVisit(g, e));
      RecomputeLower(AddEdgeVisit(g, e), e.0);
      assert VisitEdge(g, e).Keys == g.Keys;
      VisitPathLower(VisitEdge(g, e), rest);
    }
  }

  /** Without a repeat, no node's value drops below -1. */
  lemma BackpropLower(g: Graph, path: Path)
    requires LowerBounded(g) && Ids(path) <= g.Keys
    ensures LowerBounded(Backprop(g, path, false))
  {
    var g1 := RevertPath(g, path);
    RevertPathOnlyLosses(g, path);
    forall id | id in g1 ensures id in g && SameValues(g[id], g1[id]) {
      assert KeepsButLosses(g, g1, id);
    }
    SameValuesLower(g, g1);
    VisitPathLower(g1, path);
  }

  // ----- exactly when a playout leaves the lower band -----

  predicate InBandAt(g: Graph, id: NodeId) {
    id in g ==> g[id].estimate >= -1.0 && g[id].value >= -1.0
  }

  /** Values and estimates are at least -1, whatever has been penalised so far. */
  ghost predicate InBand(g: Graph) {
    forall id :: InBandAt(g, id)
  }

  function PenaltyAt(n: Node, a: Act): real {
    if a < |n.penalties| then n.penalties[a] else 0.0
  }

  function ValueOf(g: Graph, id: NodeId): real {
    if id in g then g[id].value else 0.0
  }

  /** The penalised value of the child that an edge leads to. */
  function EdgeValue(g: Graph, e: Edge): real {
    if e.0 in g && g[e.0].Child(e.1).Some? then ValueOf(g, g[e.0].Child(e.1).value) + PenaltyAt(g[e.0], e.1) else 0.0
  }

  /** What a node's estimate and visits come to above -1 each. */
  function Holding(g: Graph, n: Node): real {
    n.estimate + DenseValue(g, n, n.numActions) + (1 + Sum(n.edgeVisits) + Sum(n.losses)) as real
  }

  /** What a node holds above -1 per settled and pending visit, once one more visit of `e` is counted in. */
  function Margin(g: Graph, e: Edge): real
    requires e.0 in g
  {
    var n := g[e.0];
    n.estimate + DenseValue(g, n, n.numActions) + EdgeValue(g, e) + (2 + Sum(n.edgeVisits) + Sum(n.losses)) as real
  }

  function PenaltyCost(visits: nat, actions: nat): real
    requires actions > 0
  {
    visits as real / actions as real
  }

  ghost predicate SameShare(g: Graph, n: Node, h: Graph, m: Node, a: Act) {
    Contribution(h, m, a) == Contribution(g, n, a)
  }

  lemma {:induction false} DenseDiffers(g: Graph, n: Node, h: Graph, m: Node, a: Act, upTo: nat)
    requires forall b: Act :: b < upTo && b != a ==> SameShare(g, n, h, m, b)
    ensures DenseValue(h, m, upTo) ==
            DenseValue(g, n, upTo) + (if a < upTo then Contribution(h, m, a) - Contribution(g, n, a) else 0.0)
  {
    if upTo > 0 {
      DenseDiffers(g, n, h, m, a, upTo - 1);
      assert upTo - 1 != a ==> SameShare(g, n, h, m, upTo - 1);
    }
  }

  lemma OneMore(k: nat, x: real)
    ensures (k + 1) as real * x == k as real * x + x
  {
  }

  /** What a graph says about a child's value does not depend on the counters of another node. */
  lemma SameContribution(g: Graph, n: Node, h: Graph, m: Node, a: Act)
    requires m.Child(a) == n.Child(a) && |m.edgeVisits| == |n.edgeVisits| && |m.penalties| == |n.penalties|
    requires a < |n.edgeVisits| ==> m.edgeVisits[a] == n.edgeVisits[a]
    requires PenaltyAt(m, a) == PenaltyAt(n, a)
    requires n.Child(a).Some? ==> (n.Child(a).value in g <==> n.Child(a).value in h)
    requires n.Child(a).Some? ==> ValueOf(h, n.Child(a).value) == ValueOf(g, n.Child(a).value)
    ensures SameShare(g, n, h, m, a)
  {
  }

  /** An edge contributes its penalised child value once per visit. */
  lemma ContributionIs(g: Graph, n: Node, e: Edge)
    requires e.0 in g && g[e.0] == n && e.1 < |n.edgeVisits| && n.Child(e.1).Some? && n.Child(e.1).value in g
    ensures Contribution(g, n, e.1) == n.edgeVisits[e.1] as real * EdgeValue(g, e)
  {
    assert EdgeValue(g, e) == g[n.Child(e.1).value].value + PenaltyAt(n, e.1);
    if n.edgeVisits[e.1] == 0 {
      NoVisits(EdgeValue(g, e));
    }
  }

  lemma NoVisits(x: real)
    ensures 0 as real * x == 0.0
  {
  }

  lemma SameValueOf(g: Graph, id: NodeId, m: Node, k: NodeId)
    requires id in g && m.value == g[id].value
    ensures ValueOf(g[id := m], k) == ValueOf(g, k) && (k in g[id := m] <==> k in g)
  {
  }

  lemma VisitSpares(g: Graph, e: Edge, m: Node, b: Act)
    requires e.0 in g && g[e.0].Dense() && m == g[e.0].AddVisit(e.1) && b != e.1
    ensures SameShare(g, g[e.0], g[e.0 := m], m, b)
  {
    var n := g[e.0];
    if n.Child(b).Some? { SameValueOf(g, e.0, m, n.Child(b).value); }
    SameContribution(g, n, g[e.0 := m], m, b);
  }

  /** One more visit adds the edge's penalised child value to the backed-up total. */
  lemma VisitAdds(g: Graph, e: Edge)
    requires Expanded(g, e) && g[e.0].Dense() && ChildrenIn(g, g[e.0])
    ensures var n, h := g[e.0], AddEdgeVisit(g, e);
      DenseValue(h, h[e.0], n.numActions) == DenseValue(g, n, n.numActions) + EdgeValue(g, e)
  {
    var n, m := g[e.0], g[e.0].AddVisit(e.1);
    var h := g[e.0 := m];
    forall b: Act | b != e.1 ensures SameShare(g, n, h, m, b) { VisitSpares(g, e, m, b); }
    SameValueOf(g, e.0, m, n.Child(e.1).value);
    assert EdgeValue(h, e) == EdgeValue(g, e);
    ContributionIs(g, n, e);
    ContributionIs(h, m, e);
    OneMore(n.edgeVisits[e.1], EdgeValue(g, e));
    assert m.edgeVisits[e.1] == n.edgeVisits[e.1] + 1;
    assert Contribution(h, m, e.1) == Contribution(g, n, e.1) + EdgeValue(g, e);
    DenseDiffers(g, n, h, m, e.1, n.numActions);
  }

  lemma AverageAtLeast(total: real, count: nat)
    requires count > 0
    ensures Average(total, count) >= -1.0 <==> total + count as real >= 0.0
  {
    var v := Average(total, count);
    assert v * count as real == total;
    if v >= -1.0 {
      assert (v + 1.0) * count as real >= 0.0;
    } else {
      assert (v + 1.0) * count as real < 0.0;
    }
  }

  /** Settling an edge leaves its node in the band exactly when its margin is not negative. */
  lemma VisitEdgeBand<S(!new)>(game: Game<S>, g: Graph, e: Edge)
    requires Coherent(game, g) && Expanded(g, e)
    ensures e.0 in VisitEdge(g, e)
    ensures VisitEdge(g, e)[e.0].value >= -1.0 <==> Margin(g, e) >= 0.0
  {
    assert NodeCoherent(game, g, e.0);
    VisitMargin(g, e);
    VisitEdgeNode(g, e);
    var m := g[e.0].AddVisit(e.1);
    assert VisitEdge(g, e)[e.0] == Recomputed(g[e.0 := m], m);
    RecomputeBand(g[e.0 := m], m);
  }

  /** A recomputed value is in the band exactly when what it averages comes to at least -1 per visit. */
  lemma RecomputeBand(g: Graph, n: Node)
    requires n.Dense()
    ensures Recomputed(g, n).value >= -1.0 <==> Holding(g, n) >= 0.0
  {
    RecomputedIsAverage(g, n);
    AverageAtLeast(n.estimate + DenseValue(g, n, n.numActions), Recomputed(g, n).visits);
  }

  lemma VisitMargin(g: Graph, e: Edge)
    requires Expanded(g, e) && g[e.0].Dense() && ChildrenIn(g, g[e.0])
    ensures var m := g[e.0].AddVisit(e.1); m.Dense() && Holding(g[e.0 := m], m) == Margin(g, e)
  {
    VisitAdds(g, e);
    SumUpdate(g[e.0].edgeVisits, e.1, g[e.0].edgeVisits[e.1] + 1);
  }

  lemma CostSteps(visits: nat, actions: nat)
    requires actions > 0
    ensures visits as real * (1.0 / actions as real) == PenaltyCost(visits, actions)
    ensures PenaltyCost(visits + 1, actions) == PenaltyCost(visits, actions) + 1.0 / actions as real
  {
  }

  lemma LessPenalised(k: nat, x: real, y: real)
    ensures k as real * (x - y) == k as real * x - k as real * y
  {
  }

  lemma PenaltySpares(g: Graph, e: Edge, m: Node, b: Act)
    requires e.0 in g && g[e.0].Dense() && g[e.0].valid != [] && m == g[e.0].ApplyPenalty(e.1) && b != e.1
    ensures SameShare(g, g[e.0], g[e.0 := m], m, b)
  {
    var n := g[e.0];
    if n.Child(b).Some? { SameValueOf(g, e.0, m, n.Child(b).value); }
    SameContribution(g, n, g[e.0 := m], m, b);
  }

  /** A penalty takes one share of the node's actions per visit off the backed-up total. */
  lemma PenaltyTakes(g: Graph, e: Edge)
    requires Expanded(g, e) && g[e.0].Dense() && ChildrenIn(g, g[e.0])
    ensures g[e.0].valid != []
    ensures var n, m := g[e.0], g[e.0].ApplyPenalty(e.1);
      var h := g[e.0 := m];
      && EdgeValue(h, e) == EdgeValue(g, e) - 1.0 / |n.valid| as real
      && DenseValue(h, m, n.numActions) == DenseValue(g, n, n.numActions) - PenaltyCost(n.edgeVisits[e.1], |n.valid|)
  {
    var n, m := g[e.0], g[e.0].ApplyPenalty(e.1);
    var h, each := g[e.0 := m], 1.0 / |n.valid| as real;
    forall b: Act | b != e.1 ensures SameShare(g, n, h, m, b) { PenaltySpares(g, e, m, b); }
    SameValueOf(g, e.0, m, n.Child(e.1).value);
    assert EdgeValue(h, e) == EdgeValue(g, e) - each;
    ContributionIs(g, n, e);
    ContributionIs(h, m, e);
    LessPenalised(n.edgeVisits[e.1], EdgeValue(g, e), each);
    CostSteps(n.edgeVisits[e.1], |n.valid|);
    DenseDiffers(g, n, h, m, e.1, n.numActions);
  }

  /** Off the margin it takes one share per visit of the edge, the new one included. */
  lemma PenaltyMargin(g: Graph, e: Edge)
    requires Expanded(g, e) && g[e.0].Dense() && ChildrenIn(g, g[e.0])
    ensures e.0 in Penalize(g, e) && g[e.0].valid != []
    ensures Margin(Penalize(g, e), e) == Margin(g, e) - PenaltyCost(g[e.0].edgeVisits[e.1] + 1, |g[e.0].valid|)
  {
    PenaltyTakes(g, e);
    CostSteps(g[e.0].edgeVisits[e.1], |g[e.0].valid|);
    assert Penalize(g, e) == g[e.0 := g[e.0].ApplyPenalty(e.1)];
  }

  // ----- the same for a whole playout -----

  /** Settling from the last edge back, no edge's margin is negative when its turn comes. */
  predicate StaysInBand(g: Graph, path: Path) {
    path == [] ||
    var e := path[|path| - 1];
    e.0 in g && Margin(g, e) >= 0.0 && StaysInBand(VisitEdge(g, e), path[..|path| - 1])
  }

  lemma {:induction false} VisitPathElsewhere(g: Graph, path: Path, id: NodeId)
    requires id in g && id !in Ids(path)
    ensures id in VisitPath(g, path) && VisitPath(g, path)[id] == g[id]
    decreases |path|
  {
    if path != [] {
      var e, rest := path[|path| - 1], path[..|path| - 1];
      assert e.0 in Ids(path) && Ids(rest) <= Ids(path);
      VisitPathElsewhere(VisitEdge(g, e), rest, id);
    }
  }

  lemma VisitEdgeInBand<S(!new)>(game: Game<S>, g: Graph, e: Edge)
    requires Coherent(game, g) && Expanded(g, e) && InBand(g)
    ensures e.0 in VisitEdge(g, e) && VisitEdge(g, e)[e.0].estimate >= -1.0
    ensures Margin(g, e) >= 0.0 ==> InBand(VisitEdge(g, e))
  {
    VisitEdgeBand(game, g, e);
    VisitEdgeKeeps(game, g, e);
    assert InBandAt(g, e.0);
    var h := VisitEdge(g, e);
    if Margin(g, e) >= 0.0 {
      forall id ensures InBandAt(h, id) {
        assert InBandAt(g, id);
      }
    }
  }

  lemma SimpleLast(path: Path)
    requires Simple(path) && path != []
    ensures Simple(path[..|path| - 1]) && path[|path| - 1].0 !in Ids(path[..|path| - 1])
  {
    var rest := path[..|path| - 1];
    assert forall i :: 0 <= i < |rest| ==> rest[i].0 == path[i].0 != path[|path| - 1].0;
  }

  lemma {:induction false} VisitPathBand<S(!new)>(game: Game<S>, g: Graph, path: Path)
    requires Coherent(game, g) && AllExpanded(g, path) && Simple(path) && InBand(g)
    ensures InBand(VisitPath(g, path)) <==> StaysInBand(g, path)
    decreases |path|
  {
    if path != [] {
      var e, rest := path[|path| - 1], path[..|path| - 1];
      assert Expanded(g, e);
      var h := VisitEdge(g, e);
      VisitEdgeInBand(game, g, e);
      VisitEdgeKeeps(game, g, e);
      SimpleLast(path);
      if Margin(g, e) >= 0.0 {
        ExpandedAfterTallies(g, h, path);
        VisitPathBand(game, h, rest);
      } else {
        VisitEdgeBand(game, g, e);
        VisitPathElsewhere(h, rest, e.0);
        assert !InBandAt(VisitPath(g, path), e.0);
      }
    }
  }

  lemma UnsettledInBand(g: Graph, path: Path, repeat: bool)
    requires InBand(g)
    ensures InBand(Unsettled(g, path, repeat))
  {
    RevertPathOnlyLosses(g, path);
    forall id ensures InBandAt(Unsettled(g, path, repeat), id) {
      assert InBandAt(g, id) && KeepsButLosses(g, RevertPath(g, path), id);
    }
  }

  /** The lower bound survives settling a playout, repeat or not and whatever was penalised before, exactly when
      no margin on the way back is negative. */
  lemma BackpropBand<S(!new)>(game: Game<S>, g: Graph, path: Path, repeat: bool, pending: multiset<Edge>)
    requires Coherent(game, g) && Balanced(g, pending) && Settled(g, {}) && multiset(path) <= pending
    requires AllExpanded(g, path) && Simple(path) && InBand(g)
    ensures InBand(Backprop(g, path, repeat)) <==> StaysInBand(Unsettled(g, path, repeat), path)
  {
    UnsettledKeeps(game, g, path, repeat, pending);
    UnsettledInBand(g, path, repeat);
    ExpandedEvolves(g, Unsettled(g, path, repeat), path);
    VisitPathBand(game, Unsettled(g, path, repeat), path);
  }

  // ----- and as one inequality, when only the repeated edge's node has been penalised -----

  ghost predicate UnpenalisedNode(g: Graph, id: NodeId) {
    id in g && forall a: Act :: Unpenalised(g[id], a)
  }

  ghost predicate UnpenalisedPath(g: Graph, path: Path) {
    forall i :: 0 <= i < |path| ==> UnpenalisedNode(g, path[i].0)
  }

  lemma {:induction false} DenseAtLeast(g: Graph, n: Node, upTo: nat)
    requires InBand(g) && upTo <= |n.edgeVisits| && forall a: Act :: Unpenalised(n, a)
    ensures DenseValue(g, n, upTo) >= -(Sum(n.edgeVisits[..upTo]) as real)
  {
    if upTo > 0 {
      var a := upTo - 1;
      DenseAtLeast(g, n, a);
      SumSnoc(n.edgeVisits[..a], n.edgeVisits[a]);
      assert n.edgeVisits[..upTo] == n.edgeVisits[..a] + [n.edgeVisits[a]];
      UnpenalisedShare(g, n, a);
    }
  }

  lemma UnpenalisedShare(g: Graph, n: Node, a: Act)
    requires InBand(g) && a < |n.edgeVisits| && Unpenalised(n, a)
    ensures Contribution(g, n, a) >= -(n.edgeVisits[a] as real)
  {
    if n.Child(a).Some? && n.Child(a).value in g {
      assert InBandAt(g, n.Child(a).value);
      ScaledAtLeast(n.edgeVisits[a], g[n.Child(a).value].value);
    }
  }

  /** An unpenalised node's margin is never negative in a graph within the band. */
  lemma UnpenalisedMargin(g: Graph, e: Edge)
    requires InBand(g) && Expanded(g, e) && g[e.0].Dense() && ChildrenIn(g, g[e.0]) && UnpenalisedNode(g, e.0)
    ensures Margin(g, e) >= 0.0
  {
    var n := g[e.0];
    DenseAtLeast(g, n, n.numActions);
    assert n.edgeVisits[..n.numActions] == n.edgeVisits;
    assert InBandAt(g, e.0) && InBandAt(g, n.Child(e.1).value) && Unpenalised(n, e.1);
  }

  lemma UnpenalisedAfter(g: Graph, e: Edge, path: Path)
    requires UnpenalisedPath(g, path) && e.0 in g && e.0 !in Ids(path)
    requires VisitEdge(g, e) == g[e.0 := VisitEdge(g, e)[e.0]]
    ensures UnpenalisedPath(VisitEdge(g, e), path)
  {
    forall i | 0 <= i < |path| ensures UnpenalisedNode(VisitEdge(g, e), path[i].0) {
      assert UnpenalisedNode(g, path[i].0) && path[i].0 in Ids(path);
    }
  }

  lemma {:induction false} UnpenalisedStays<S(!new)>(game: Game<S>, g: Graph, path: Path)
    requires Coherent(game, g) && AllExpanded(g, path) && Simple(path) && InBand(g) && UnpenalisedPath(g, path)
    ensures StaysInBand(g, path)
    decreases |path|
  {
    if path != [] {
      var e, rest := path[|path| - 1], path[..|path| - 1];
      assert Expanded(g, e) && NodeCoherent(game, g, e.0) && UnpenalisedNode(g, e.0);
      UnpenalisedMargin(g, e);
      VisitEdgeInBand(game, g, e);
      VisitEdgeKeeps(game, g, e);
      ExpandedAfterTallies(g, VisitEdge(g, e), path);
      SimpleLast(path);
      assert UnpenalisedPath(g, rest) by {
        forall i | 0 <= i < |rest| ensures UnpenalisedNode(g, rest[i].0) {
          assert UnpenalisedNode(g, path[i].0);
        }
      }
      UnpenalisedAfter(g, e, rest);
      UnpenalisedStays(game, VisitEdge(g, e), rest);
    }
  }

  /** The margin of a repeat's last edge, from what is stored while the playout is still pending. */
  function RepeatMargin(g: Graph, e: Edge): real
    requires e.0 in g && g[e.0].valid != [] && e.1 < |g[e.0].edgeVisits|
  {
    Margin(g, e) - 1.0 - PenaltyCost(g[e.0].edgeVisits[e.1] + 1, |g[e.0].valid|)
  }

  lemma SameMargin(g: Graph, h: Graph, e: Edge)
    requires e.0 in g && OnlyLosses(g, h)
    ensures e.0 in h
    ensures Margin(h, e) - Sum(h[e.0].losses) as real == Margin(g, e) - Sum(g[e.0].losses) as real
  {
    var n, m := g[e.0], h[e.0];
    assert KeepsButLosses(g, h, e.0);
    forall b: Act | b < n.numActions && b != n.numActions ensures SameShare(g, n, h, m, b) {
      assert m.Child(b) == n.Child(b);
      if n.Child(b).Some? {
        assert KeepsButLosses(g, h, n.Child(b).value);
      }
    }
    DenseDiffers(g, n, h, m, n.numActions, n.numActions);
    assert m.Child(e.1) == n.Child(e.1);
    if n.Child(e.1).Some? {
      assert KeepsButLosses(g, h, n.Child(e.1).value);
    }
  }

  /** Reverting a simple path takes one virtual loss off its last node. */
  lemma LastLossReverted<S(!new)>(game: Game<S>, g: Graph, path: Path, pending: multiset<Edge>)
    requires Coherent(game, g) && Balanced(g, pending) && multiset(path) <= pending && path != [] && Simple(path)
    ensures var id := path[|path| - 1].0;
      id in g && id in RevertPath(g, path) && Sum(RevertPath(g, path)[id].losses) == Sum(g[id].losses) - 1
  {
    var e, rest := path[|path| - 1], path[..|path| - 1];
    assert e in multiset(path);
    RevertLossKeeps(game, g, e, pending);
    SimpleLast(path);
    RevertPathElsewhere(RevertLoss(g, e), rest, e.0);
    SumUpdate(g[e.0].losses, e.1, g[e.0].losses[e.1] - 1);
  }

  /** A penalised repeat keeps the lower bound exactly when its margin is not negative, provided the nodes before
      the last have no penalties of their own; any other node, the last included, may have some. */
  lemma RepeatBand<S(!new)>(game: Game<S>, g: Graph, path: Path, pending: multiset<Edge>)
    requires Coherent(game, g) && Balanced(g, pending) && Settled(g, {}) && multiset(path) <= pending
    requires AllExpanded(g, path) && Simple(path) && InBand(g) && path != []
    requires UnpenalisedPath(g, path[..|path| - 1])
    ensures var e := path[|path| - 1];
      && e.0 in g && g[e.0].valid != [] && e.1 < |g[e.0].edgeVisits|
      && (InBand(Backprop(g, path, true)) <==> RepeatMargin(g, e) >= 0.0)
  {
    var e, rest := path[|path| - 1], path[..|path| - 1];
    assert Expanded(g, e) && NodeCoherent(game, g, e.0);
    BackpropBand(game, g, path, true, pending);
    RepeatStays(game, g, path, pending);
  }

  /** Reverting and penalising take one pending visit and the penalty's cost off the last edge's margin. */
  lemma RevertedMargin<S(!new)>(game: Game<S>, g: Graph, path: Path, pending: multiset<Edge>)
    requires Coherent(game, g) && Balanced(g, pending) && multiset(path) <= pending && path != [] && Simple(path)
    requires var e, h := path[|path| - 1], RevertPath(g, path);
      e.0 in g && Expanded(h, e) && h[e.0].Dense() && ChildrenIn(h, h[e.0])
    ensures var e, u := path[|path| - 1], Unsettled(g, path, true);
      && e.0 in u && g[e.0].valid != [] && e.1 < |g[e.0].edgeVisits|
      && Margin(u, e) == RepeatMargin(g, e)
  {
    var e, h := path[|path| - 1], RevertPath(g, path);
    RevertPathOnlyLosses(g, path);
    assert KeepsButLosses(g, h, e.0);
    PenaltyMargin(h, e);
    SameMargin(g, h, e);
    LastLossReverted(game, g, path, pending);
  }

  lemma RepeatStays<S(!new)>(game: Game<S>, g: Graph, path: Path, pending: multiset<Edge>)
    requires Coherent(game, g) && Balanced(g, pending) && Settled(g, {}) && multiset(path) <= pending
    requires AllExpanded(g, path) && Simple(path) && InBand(g) && path != []
    requires UnpenalisedPath(g, path[..|path| - 1])
    requires var e := path[|path| - 1]; e.0 in g && g[e.0].valid != [] && e.1 < |g[e.0].edgeVisits|
    ensures StaysInBand(Unsettled(g, path, true), path) <==> RepeatMargin(g, path[|path| - 1]) >= 0.0
  {
    var e, rest := path[|path| - 1], path[..|path| - 1];
    var h, u := RevertPath(g, path), Unsettled(g, path, true);
    RevertPathOnlyLosses(g, path);
    RevertPathKeeps(game, g, path, pending);
    OnlyLossesEvolves(g, h);
    ExpandedEvolves(g, h, path);
    assert Expanded(h, e) && NodeCoherent(game, h, e.0) && KeepsButLosses(g, h, e.0);
    RevertedMargin(game, g, path, pending);
    if Margin(u, e) >= 0.0 {
      RestStays(game, g, path, pending);
    }
  }

  lemma RestStays<S(!new)>(game: Game<S>, g: Graph, path: Path, pending: multiset<Edge>)
    requires Coherent(game, g) && Balanced(g, pending) && Settled(g, {}) && multiset(path) <= pending
    requires AllExpanded(g, path) && Simple(path) && InBand(g) && path != []
    requires UnpenalisedPath(g, path[..|path| - 1])
    requires path[|path| - 1].0 in Unsettled(g, path, true) && Margin(Unsettled(g, path, true), path[|path| - 1]) >= 0.0
    ensures StaysInBand(VisitEdge(Unsettled(g, path, true), path[|path| - 1]), path[..|path| - 1])
  {
    var e, rest, u := path[|path| - 1], path[..|path| - 1], Unsettled(g, path, true);
    UnsettledKeeps(game, g, path, true, pending);
    UnsettledInBand(g, path, true);
    ExpandedEvolves(g, u, path);
    assert Expanded(u, e);
    SimpleLast(path);
    RevertPathOnlyLosses(g, path);
    forall i | 0 <= i < |rest| ensures UnpenalisedNode(u, rest[i].0) {
      assert UnpenalisedNode(g, rest[i].0) && rest[i].0 in Ids(rest) && KeepsButLosses(g, RevertPath(g, path), rest[i].0);
      forall a: Act ensures Unpenalised(u[rest[i].0], a) {
        assert Unpenalised(g[rest[i].0], a);
      }
    }
    VisitEdgeInBand(game, u, e);
    VisitEdgeKeeps(game, u, e);
    UnpenalisedAfter(u, e, rest);
    ExpandedAfterTallies(u, VisitEdge(u, e), path);
    UnpenalisedStays(game, VisitEdge(u, e), rest);
  }

  // ----- a search that leaves the band -----

  /** A state whose one action leads back to it, expanded with estimate -1. */
  function LoopNode(visits: nat, child: Option<NodeId>, edgeVisits: nat, losses: nat, penalty: real, value: real): Node {
    Node(7, 1, [0], [1.0], -1.0, visits, [child], [edgeVisits], [losses], [penalty], value, false)
  }

  lemma LoopVisit(visits: nat, edgeVisits: nat, penalty: real, value: real)
    ensures var g: Graph := map[7 := LoopNode(visits, Some(7), edgeVisits, 0, penalty, value)];
      VisitPath(g, [(7, 0)]) ==
      map[7 := LoopNode(edgeVisits + 2, Some(7), edgeVisits + 1, 0, penalty,
                        Average(-1.0 + (edgeVisits + 1) as real * (value + penalty), edgeVisits + 2))]
  {
    var g: Graph := map[7 := LoopNode(visits, Some(7), edgeVisits, 0, penalty, value)];
    var n := LoopNode(visits, Some(7), edgeVisits + 1, 0, penalty, value);
    var h: Graph := map[7 := n];
    var e: Edge := (7, 0);
    assert g[7].AddVisit(0) == n;
    assert AddEdgeVisit(g, e) == h;
    LoopRecompute(visits, edgeVisits + 1, penalty, value);
    var path: Path := [e];
    assert path[..0] == [];
    assert VisitPath(g, path) == VisitPath(VisitEdge(g, e), []);
    var m := LoopNode(edgeVisits + 2, Some(7), edgeVisits + 1, 0, penalty,
                      Average(-1.0 + (edgeVisits + 1) as real * (value + penalty), edgeVisits + 2));
    assert Recomputed(h, n) == m;
    assert VisitEdge(g, e) == map[7 := m];
  }

  lemma LoopRecompute(visits: nat, edgeVisits: nat, penalty: real, value: real)
    requires edgeVisits > 0
    ensures var n := LoopNode(visits, Some(7), edgeVisits, 0, penalty, value);
      Recomputed(map[7 := n], n) ==
      n.(visits := 1 + edgeVisits, value := Average(-1.0 + edgeVisits as real * (value + penalty), 1 + edgeVisits))
  {
    var n := LoopNode(visits, Some(7), edgeVisits, 0, penalty, value);
    var g: Graph := map[7 := n];
    assert Contribution(g, n, 0) == edgeVisits as real * (value + penalty);
    assert n.valid[1..] == [];
    assert WeightedValue(g, n, n.valid) == Contribution(g, n, 0) + WeightedValue(g, n, []);
    assert VisitsVia(n, n.valid) == edgeVisits + VisitsVia(n, []);
    assert Sum([0]) == 0 + Sum([]);
  }

  lemma LoopRevert(n: Node, repeat: bool)
    requires |n.edgeVisits| == 1 && n == LoopNode(n.visits, Some(7), n.edgeVisits[0], 1, 0.0, n.value)
    ensures Unsettled(map[7 := n], [(7, 0)], repeat) ==
            map[7 := LoopNode(n.visits, Some(7), n.edgeVisits[0], 0, if repeat then -1.0 else 0.0, n.value)]
  {
    var g: Graph := map[7 := n];
    var path: Path := [(7, 0)];
    var m := LoopNode(n.visits, Some(7), n.edgeVisits[0], 0, 0.0, n.value);
    assert n.RevertVirtualLoss(0) == m;
    assert RevertLoss(g, (7, 0)) == map[7 := m];
    assert path[..0] == [];
    assert RevertPath(g, path) == RevertPath(RevertLoss(g, (7, 0)), []);
    assert m.ApplyPenalty(0) == m.(penalties := [-1.0]);
  }

  /** Two playouts of that state: the first expands its own state, the second meets the repeat and leaves the band. */
  lemma RepeatLeavesLowerBand()
    ensures var e: Edge := (7, 0);
      var g0: Graph := map[7 := LoopNode(0, None, 0, 0, 0.0, -1.0)];
      var g1 := Backprop(Link(AddLoss(g0, e), e, 7), [e], false);
      var g2 := Backprop(AddLoss(g1, e), [e], true);
      && InBand(g0) && InBand(g1)
      && g1 == map[7 := LoopNode(2, Some(7), 1, 0, 0.0, -1.0)]
      && 7 in g2 && g2[7].value == -5.0 / 3.0
  {
    var e: Edge := (7, 0);
    var g0: Graph := map[7 := LoopNode(0, None, 0, 0, 0.0, -1.0)];
    var linked := LoopNode(0, Some(7), 0, 1, 0.0, -1.0);
    assert g0[7].AddVirtualLoss(0).LinkChild(0, 7) == linked;
    assert Link(AddLoss(g0, e), e, 7) == map[7 := linked];
    LoopRevert(linked, false);
    LoopVisit(0, 0, 0.0, -1.0);
    assert Average(-2.0, 2) == -1.0;
    var g1: Graph := map[7 := LoopNode(2, Some(7), 1, 0, 0.0, -1.0)];
    assert Backprop(map[7 := linked], [e], false) == g1;
    var charged := LoopNode(2, Some(7), 1, 1, 0.0, -1.0);
    assert g1[7].AddVirtualLoss(0) == charged;
    assert AddLoss(g1, e) == map[7 := charged];
    LoopRevert(charged, true);
    LoopVisit(2, 1, -1.0, -1.0);
    assert Average(-5.0, 3) == -5.0 / 3.0;
  }

  /** A playout without a repeat keeps the lower bound when the nodes on its path have no penalties. */
  lemma UnrepeatedBand<S(!new)>(game: Game<S>, g: Graph, path: Path, pending: multiset<Edge>)
    requires Coherent(game, g) && Balanced(g, pending) && Settled(g, {}) && multiset(path) <= pending
    requires AllExpanded(g, path) && Simple(path) && InBand(g) && UnpenalisedPath(g, path)
    ensures InBand(Backprop(g, path, false))
  {
    var h := Unsettled(g, path, false);
    BackpropBand(game, g, path, false, pending);
    UnsettledKeeps(game, g, path, false, pending);
    UnsettledInBand(g, path, false);
    ExpandedEvolves(g, h, path);
    RevertPathOnlyLosses(g, path);
    forall i | 0 <= i < |path| ensures UnpenalisedNode(h, path[i].0) {
      assert UnpenalisedNode(g, path[i].0) && KeepsButLosses(g, h, path[i].0);
      forall a: Act ensures Unpenalised(h[path[i].0], a) {
        assert Unpenalised(g[path[i].0], a);
      }
    }
    UnpenalisedStays(game, h, path);
  }
}
