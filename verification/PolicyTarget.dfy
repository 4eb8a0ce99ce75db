/** The training target of a search: visit counts without the forced playouts, `policy_target` (mcts-core/src/mcts.rs). */
module PolicyTarget {
  import opened Wrappers
  import opened Sums
  import opened Environment
  import opened SearchNode
  import opened SearchGraph
  import opened Puct
  import opened Expansion

  /** A float rounded down and cast to an unsigned integer: negative values become zero. */
  function FloorNat(x: real): nat {
    if x.Floor < 0 then 0 else x.Floor
  }

  /** The most visited action, the first one listed among equals. */
  function FirstMost(actions: seq<Act>, visits: seq<nat>): (r: Option<Act>)
    requires Below(actions, |visits|)
    ensures r.Some? <==> actions != []
    ensures r.Some? ==> exists i :: 0 <= i < |actions| && IsFirstMost(actions, visits, i) && actions[i] == r.value
  {
    if actions == [] then None
    else
      var last, before := actions[|actions| - 1], actions[..|actions| - 1];
      var best := FirstMost(before, visits);
      if best.Some? && visits[best.value] >= visits[last] then
        assert forall i :: 0 <= i < |before| && IsFirstMost(before, visits, i) && before[i] == best.value ==>
          IsFirstMost(actions, visits, i);
        best
      else
        assert IsFirstMost(actions, visits, |actions| - 1) by {
          if best.Some? {
            var i :| 0 <= i < |before| && IsFirstMost(before, visits, i) && before[i] == best.value;
            assert forall j :: 0 <= j < |before| ==> actions[j] == before[j];
          }
        }
        Some(last)
  }

  /** No listed action has more visits than the i-th, and none listed before it has as many. */
  ghost predicate IsFirstMost(actions: seq<Act>, visits: seq<nat>, i: nat)
    requires Below(actions, |visits|)
  {
    && i < |actions|
    && (forall j :: 0 <= j < |actions| ==> visits[actions[j]] <= visits[actions[i]])
    && (forall j :: 0 <= j < i ==> visits[actions[j]] < visits[actions[i]])
  }

  // ----- pruning one count -----

  function ForcedVisits(t: Tuning, prior: real, total: nat): nat {
    FloorNat(t.sqrt(ForcedLoad(t, total, prior)))
  }

  /** The most visits that can go while the score stays at most `diff` above the value. */
  function MaxSubtract(visits: nat, weight: real, diff: real): nat {
    if diff <= 0.0 then 0 else FloorNat(visits as real - (weight / diff - 1.0))
  }

  function Less(visits: nat, subtract: nat): nat {
    if subtract > visits then 0 else visits - subtract
  }

  function Min(x: nat, y: nat): nat { if x < y then x else y }

  /** The score of the most visited action at the current counts, without forced playouts. */
  function BestScore(t: Tuning, g: Graph, n: Node, best: Act): real
    requires n.Dense() && best in n.valid && best < n.numActions && t.rootTemp != 0.0 && !t.forced
  {
    Scores(t, g, n, true)[best].r
  }

  /** Q(c) as the target computes it: the root's fallback carries no exploration discount. */
  function TargetQ(g: Graph, n: Node, a: Act): real
    requires a < |n.penalties|
  {
    ChildValue(g, n, a, n.value) + n.penalties[a]
  }

  function Weight(t: Tuning, n: Node, a: Act): real
    requires a < |n.priors|
  {
    t.cPuct * n.priors[a] * t.sqrt(Sum(n.edgeVisits) as real)
  }

  /** The count of an action once its forced visits are taken off. */
  function PrunedCount(t: Tuning, g: Graph, n: Node, best: Act, bestScore: real, a: Act): nat
    requires n.Dense() && a < n.numActions
  {
    var v, forced := n.edgeVisits[a], ForcedVisits(t, n.priors[a], Sum(n.edgeVisits));
    if v == 0 || a == best || n.priors[a] == 0.0 || forced == 0 then v
    else Less(v, Min(forced, MaxSubtract(v, Weight(t, n, a), bestScore - TargetQ(g, n, a))))
  }

  lemma FloorBounds(x: real)
    ensures FloorNat(x) > 0 ==> FloorNat(x) as real <= x
  {
  }

  lemma QuotientBound(weight: real, diff: real, d: real)
    requires diff > 0.0 && d > 0.0 && d >= weight / diff
    ensures weight / d <= diff
  {
    var q := weight / diff;
    assert q * diff == weight;
    assert d * diff >= q * diff;
    var r := weight / d;
    assert r * d == weight;
    if r > diff {
      assert r * d > diff * d;
    }
  }

  /** Taking visits off never lifts the pruned score above `diff`. */
  lemma SubtractStaysBelow(visits: nat, weight: real, diff: real, subtract: nat)
    requires 0 < subtract <= MaxSubtract(visits, weight, diff)
    ensures diff > 0.0 && weight / (1.0 + Less(visits, subtract) as real) <= diff
  {
    var boundary := weight / diff - 1.0;
    FloorBounds(visits as real - boundary);
    assert subtract as real <= visits as real - boundary;
    assert Less(visits, subtract) as real >= visits as real - subtract as real;
    QuotientBound(weight, diff, 1.0 + Less(visits, subtract) as real);
  }

  /** Each pruned action keeps its count, or its score at the pruned count stays at most the best action's;
      it loses at most the floor of its forced visits. */
  lemma PruningBound(t: Tuning, g: Graph, n: Node, best: Act, bestScore: real, a: Act)
    requires n.Dense() && a < n.numActions
    ensures var pruned := PrunedCount(t, g, n, best, bestScore, a);
      && pruned <= n.edgeVisits[a] <= pruned + ForcedVisits(t, n.priors[a], Sum(n.edgeVisits))
      && (a == best ==> pruned == n.edgeVisits[a])
      && (pruned == n.edgeVisits[a] || TargetQ(g, n, a) + Weight(t, n, a) / (1.0 + pruned as real) <= bestScore)
  {
    var v, forced := n.edgeVisits[a], ForcedVisits(t, n.priors[a], Sum(n.edgeVisits));
    var diff := bestScore - TargetQ(g, n, a);
    var s := Min(forced, MaxSubtract(v, Weight(t, n, a), diff));
    if v > 0 && a != best && n.priors[a] != 0.0 && s > 0 {
      SubtractStaysBelow(v, Weight(t, n, a), diff, s);
    }
  }

  lemma QuotientAbove(weight: real, diff: real, d: real)
    requires weight > 0.0 && d > 0.0 && (diff <= 0.0 || d < weight / diff)
    ensures weight / d > diff
  {
    var r := weight / d;
    assert r * d == weight;
    if diff > 0.0 {
      var q := weight / diff;
      assert q * diff == weight;
      assert d * diff < q * diff;
      if r <= diff {
        assert r * d <= diff * d;
      }
    } else {
      SharePositive(weight, d);
    }
  }

  /** No more could go: an action that keeps visits lost all its forced ones, or would beat the best action
      with one visit fewer. */
  lemma PruningIsMaximal(t: Tuning, g: Graph, n: Node, best: Act, bestScore: real, a: Act)
    requires n.Dense() && a < n.numActions && a != best && n.priors[a] != 0.0 && Weight(t, n, a) > 0.0
    ensures var pruned := PrunedCount(t, g, n, best, bestScore, a);
      || pruned == 0
      || pruned + ForcedVisits(t, n.priors[a], Sum(n.edgeVisits)) == n.edgeVisits[a]
      || TargetQ(g, n, a) + Weight(t, n, a) / (pruned as real) > bestScore
  {
    var v, forced := n.edgeVisits[a], ForcedVisits(t, n.priors[a], Sum(n.edgeVisits));
    var weight, diff := Weight(t, n, a), bestScore - TargetQ(g, n, a);
    var most := MaxSubtract(v, weight, diff);
    var pruned := PrunedCount(t, g, n, best, bestScore, a);
    if pruned > 0 && most < forced {
      assert pruned == v - most;
      QuotientAbove(weight, diff, pruned as real);
    }
  }

  /** `k` times the gap to the best score is the action's weight, and taking the visits down to `k - 1` is allowed. */
  predicate TiesAt(weight: real, diff: real, visits: nat, forced: nat, k: nat) {
    diff > 0.0 && 1 <= k <= visits && weight == k as real * diff && visits + 1 - k <= forced
  }

  lemma QuotientTie(weight: real, diff: real, k: nat)
    requires diff > 0.0 && k >= 1
    ensures weight / (k as real) == diff <==> weight == k as real * diff
    ensures weight / diff == k as real <==> weight == k as real * diff
  {
    var r, q := weight / (k as real), weight / diff;
    assert r * (k as real) == weight && q * diff == weight;
    if q * diff == k as real * diff {
      assert (q - k as real) * diff == 0.0;
    }
    if r * (k as real) == diff * (k as real) {
      assert (r - diff) * (k as real) == 0.0;
    }
  }

  lemma FloorOfNat(n: nat)
    ensures FloorNat(n as real) == n
  {
  }

  /** The visits left when as many as allowed are taken off. */
  function Left(visits: nat, weight: real, diff: real, forced: nat): nat {
    Less(visits, Min(forced, MaxSubtract(visits, weight, diff)))
  }

  lemma TieForces(visits: nat, weight: real, diff: real, forced: nat, k: nat)
    requires TiesAt(weight, diff, visits, forced, k)
    ensures Left(visits, weight, diff, forced) == k - 1
  {
    QuotientTie(weight, diff, k);
    assert visits as real - (weight / diff - 1.0) == (visits + 1 - k) as real;
    FloorOfNat(visits + 1 - k);
  }

  lemma TieNeeds(visits: nat, weight: real, diff: real, forced: nat)
    requires var left := Left(visits, weight, diff, forced); left < visits && weight / ((left + 1) as real) == diff
    ensures TiesAt(weight, diff, visits, forced, Left(visits, weight, diff, forced) + 1)
  {
    QuotientTie(weight, diff, Left(visits, weight, diff, forced) + 1);
  }

  lemma TiesExactly(visits: nat, weight: real, diff: real, forced: nat)
    ensures var left := Left(visits, weight, diff, forced);
      left < visits && weight / ((left + 1) as real) == diff <==> exists k: nat :: TiesAt(weight, diff, visits, forced, k)
  {
    if k: nat :| TiesAt(weight, diff, visits, forced, k) {
      TieForces(visits, weight, diff, forced, k);
      QuotientTie(weight, diff, k);
    }
    var left := Left(visits, weight, diff, forced);
    if left < visits && weight / ((left + 1) as real) == diff {
      TieNeeds(visits, weight, diff, forced);
    }
  }

  lemma PrunedIsLeft(t: Tuning, g: Graph, n: Node, best: Act, bestScore: real, a: Act)
    requires n.Dense() && a < n.numActions && a != best && n.priors[a] != 0.0
    ensures PrunedCount(t, g, n, best, bestScore, a) ==
            Left(n.edgeVisits[a], Weight(t, n, a), bestScore - TargetQ(g, n, a), ForcedVisits(t, n.priors[a], Sum(n.edgeVisits)))
  {
  }

  /** The action's score once `pruned` visits are left. */
  function ScoreAt(t: Tuning, g: Graph, n: Node, a: Act, pruned: nat): real
    requires n.Dense() && a < n.numActions
  {
    TargetQ(g, n, a) + Weight(t, n, a) / ((pruned + 1) as real)
  }

  /** A pruned action ends level with the best score, not below it, exactly when its weight is a whole multiple
      `k` of the gap and its forced visits cover the way down to `k - 1`. */
  lemma PruningTies(t: Tuning, g: Graph, n: Node, best: Act, bestScore: real, a: Act)
    requires n.Dense() && a < n.numActions && a != best && n.priors[a] != 0.0
    ensures var v, pruned := n.edgeVisits[a], PrunedCount(t, g, n, best, bestScore, a);
      var weight, diff := Weight(t, n, a), bestScore - TargetQ(g, n, a);
      var forced := ForcedVisits(t, n.priors[a], Sum(n.edgeVisits));
      pruned < v && ScoreAt(t, g, n, a, pruned) == bestScore <==> exists k: nat :: TiesAt(weight, diff, v, forced, k)
  {
    PrunedIsLeft(t, g, n, best, bestScore, a);
    TiesExactly(n.edgeVisits[a], Weight(t, n, a), bestScore - TargetQ(g, n, a),
                ForcedVisits(t, n.priors[a], Sum(n.edgeVisits)));
  }

  /** The best child's value, chosen so that its score is exactly 1. */
  const TIE_VALUE := 1.0 - 0.75 * ((4.0 + TINY) / 13.0)

  function TieNode(): Node {
    Node(0, 2, [0, 1], [0.5, 0.5], 0.0, 17, [Some(1), Some(2)], [12, 4], [0, 0], [0.0, 0.0],
         Average(12.0 * TIE_VALUE, 17), false)
  }

  function TieGraph(): Graph {
    map[0 := TieNode(), 1 := NewTerminal(1, TIE_VALUE), 2 := NewTerminal(2, 0.0)]
  }

  function TieTuning(sqrt: real -> real): Tuning {
    Tuning(1.5, 0.2, 1.0, 2.0, false, None, 0.0, sqrt, (x, _) => x)
  }

  /** One such root: of 12 and 4 visits the second action loses two of its four forced ones and ends level. */
  lemma TieExample(sqrt: real -> real)
    requires sqrt(16.0) == 4.0
    ensures var t, g, n := TieTuning(sqrt), TieGraph(), TieNode();
      && n.Dense() && FirstMost(n.valid, n.edgeVisits) == Some(0) && BestScore(t, g, n, 0) == 1.0
      && PrunedCount(t, g, n, 0, 1.0, 1) == 2 < n.edgeVisits[1]
      && ScoreAt(t, g, n, 1, 2) == 1.0
  {
    TieNodeShape();
    TieBest(sqrt);
    TieSecond(sqrt);
    TieCount(TieTuning(sqrt), TieGraph(), TieNode());
  }

  lemma TieCount(t: Tuning, g: Graph, n: Node)
    requires n.Dense() && n.numActions == 2 && n.edgeVisits[1] == 4 && n.priors[1] != 0.0
    requires TargetQ(g, n, 1) == 0.0 && Weight(t, n, 1) == 3.0 && ForcedVisits(t, n.priors[1], Sum(n.edgeVisits)) == 4
    ensures PrunedCount(t, g, n, 0, 1.0, 1) == 2
  {
    PrunedIsLeft(t, g, n, 0, 1.0, 1);
    TieForces(4, 3.0, 1.0, 4, 3);
  }

  lemma TieSecond(sqrt: real -> real)
    requires sqrt(16.0) == 4.0
    ensures var t, g, n := TieTuning(sqrt), TieGraph(), TieNode();
      && n.Dense() && n.edgeVisits[1] == 4 && TargetQ(g, n, 1) == 0.0 && Weight(t, n, 1) == 3.0
      && ForcedVisits(t, n.priors[1], Sum(n.edgeVisits)) == 4
      && ScoreAt(t, g, n, 1, 2) == 1.0
  {
    TieNodeShape();
    FloorOfNat(4);
  }

  lemma TieBest(sqrt: real -> real)
    requires sqrt(16.0) == 4.0
    ensures TieNode().Dense() && BestScore(TieTuning(sqrt), TieGraph(), TieNode(), 0) == 1.0
  {
    var t, g, n := TieTuning(sqrt), TieGraph(), TieNode();
    TieNodeShape();
    assert EffectivePriors(t, n, true) == [0.5, 0.5];
    assert Scores(t, g, n, true)[0] == ScoreOf(t, g, n, [0.5, 0.5], true, 0);
    assert Quality(t, g, n, true, 0) == TIE_VALUE;
    assert Bonus(0.75, 4.0 + TINY, 12) == 0.75 * ((4.0 + TINY) / 13.0);
  }

  lemma TieNodeShape()
    ensures TieNode().Dense() && Sum(TieNode().edgeVisits) == 16
    ensures FirstMost([0, 1], [12, 4]) == Some(0)
  {
    assert TieNode().valid == [0, 1];
    assert Sum([12, 4]) == 12 + Sum([4]) && Sum([4]) == 4 + Sum([]);
    assert [12, 4][1..] == [4] && [4][1..] == [];
    assert [0, 1][..1] == [0] && [0][..0] == [];
  }

  // ----- the distribution -----

  /** The count an action enters the target with: none when it is pruned to at most one visit. */
  function KeptCount(t: Tuning, g: Graph, n: Node, best: Act, bestScore: real, a: Act): nat
    requires n.Dense() && a < n.numActions
  {
    var c := PrunedCount(t, g, n, best, bestScore, a);
    if c > 1 then c else 0
  }

  function KeptTotal(t: Tuning, g: Graph, n: Node, best: Act, bestScore: real, actions: seq<Act>): nat
    requires n.Dense() && Below(actions, n.numActions)
  {
    if actions == [] then 0
    else KeptCount(t, g, n, best, bestScore, actions[0]) + KeptTotal(t, g, n, best, bestScore, actions[1..])
  }

  lemma {:induction false} KeptTotalAtLeast(t: Tuning, g: Graph, n: Node, best: Act, bestScore: real, actions: seq<Act>, k: nat)
    requires n.Dense() && Below(actions, n.numActions) && k < |actions|
    ensures KeptCount(t, g, n, best, bestScore, actions[k]) <= KeptTotal(t, g, n, best, bestScore, actions)
  {
    if k > 0 {
      KeptTotalAtLeast(t, g, n, best, bestScore, actions[1..], k - 1);
    }
  }

  lemma {:induction false} KeptTotalZero(t: Tuning, g: Graph, n: Node, best: Act, bestScore: real, actions: seq<Act>)
    requires n.Dense() && Below(actions, n.numActions)
    requires forall k :: 0 <= k < |actions| ==> KeptCount(t, g, n, best, bestScore, actions[k]) == 0
    ensures KeptTotal(t, g, n, best, bestScore, actions) == 0
  {
    if actions != [] {
      assert forall k :: 0 <= k < |actions[1..]| ==> actions[1..][k] == actions[k + 1];
      KeptTotalZero(t, g, n, best, bestScore, actions[1..]);
    }
  }

  function Distribution(t: Tuning, g: Graph, n: Node, best: Act, bestScore: real): Priors
    requires n.Dense()
  {
    var total := KeptTotal(t, g, n, best, bestScore, n.valid);
    if total == 0 then map[best := 1.0]
    else (map a | a in n.valid && a < n.numActions && KeptCount(t, g, n, best, bestScore, a) > 0 ::
            Share(KeptCount(t, g, n, best, bestScore, a) as real, total as real))
  }

  lemma MostVisited(n: Node, best: Act)
    requires n.Dense() && FirstMost(n.valid, n.edgeVisits) == Some(best)
    ensures best in n.valid && best < n.numActions
    ensures forall a: Act :: a < n.numActions ==> n.edgeVisits[a] <= n.edgeVisits[best]
  {
    var i :| 0 <= i < |n.valid| && IsFirstMost(n.valid, n.edgeVisits, i) && n.valid[i] == best;
    forall a: Act | a < n.numActions ensures n.edgeVisits[a] <= n.edgeVisits[best] {
      if a in n.valid {
        var j :| 0 <= j < |n.valid| && n.valid[j] == a;
      }
    }
  }

  function TargetOf(t: Tuning, g: Graph, n: Node): Option<Priors>
    requires n.Dense() && t.rootTemp != 0.0 && !t.forced
  {
    if Sum(n.edgeVisits) == 0 then None
    else
      match FirstMost(n.valid, n.edgeVisits)
      case None => None
      case Some(best) =>
        MostVisited(n, best);
        Some(Distribution(t, g, n, best, BestScore(t, g, n, best)))
  }

  lemma {:induction false} DistributionMass(t: Tuning, g: Graph, n: Node, best: Act, bestScore: real, actions: seq<Act>, d: Priors,
                                            total: nat)
    requires n.Dense() && Below(actions, n.numActions) && total > 0
    requires forall k :: 0 <= k < |actions| ==>
      PriorOf(d, actions[k]) == Share(KeptCount(t, g, n, best, bestScore, actions[k]) as real, total as real)
    ensures MassOf(d, actions) == Share(KeptTotal(t, g, n, best, bestScore, actions) as real, total as real)
  {
    if actions != [] {
      assert forall k :: 0 <= k < |actions[1..]| ==> actions[1..][k] == actions[k + 1];
      DistributionMass(t, g, n, best, bestScore, actions[1..], d, total);
      ShareAdds(KeptCount(t, g, n, best, bestScore, actions[0]) as real,
                KeptTotal(t, g, n, best, bestScore, actions[1..]) as real, total as real);
    } else {
      ShareOfNothing(total as real);
    }
  }

  lemma {:induction false} SingletonMass(best: Act, actions: seq<Act>)
    requires Distinct(actions)
    ensures MassOf(map[best := 1.0], actions) == if best in actions then 1.0 else 0.0
  {
    if actions != [] {
      SingletonMass(best, actions[1..]);
      assert best in actions <==> best == actions[0] || best in actions[1..];
    }
  }

  lemma ShareMonotone(x: real, y: real, total: real)
    requires 0.0 <= x <= y && total > 0.0
    ensures Share(x, total) <= Share(y, total) && (x > 0.0 ==> Share(x, total) > 0.0)
  {
  }

  lemma KeptMass(t: Tuning, g: Graph, n: Node, best: Act, score: real)
    requires n.Dense() && KeptTotal(t, g, n, best, score, n.valid) > 0
    ensures var d := Distribution(t, g, n, best, score);
      MassOf(d, n.valid) == 1.0 && (forall a :: a in d ==> d[a] > 0.0)
  {
    var total := KeptTotal(t, g, n, best, score, n.valid);
    var d := Distribution(t, g, n, best, score);
    forall k | 0 <= k < |n.valid|
      ensures PriorOf(d, n.valid[k]) == Share(KeptCount(t, g, n, best, score, n.valid[k]) as real, total as real)
    {
      assert n.valid[k] in n.valid;
      ShareOfNothing(total as real);
    }
    DistributionMass(t, g, n, best, score, n.valid, d, total);
    ShareOfWhole(total as real);
    forall a | a in d ensures d[a] > 0.0 {
      ShareMonotone(KeptCount(t, g, n, best, score, a) as real, KeptCount(t, g, n, best, score, a) as real, total as real);
    }
  }

  /** The masses are positive and sum to one. */
  lemma TargetIsDistribution(t: Tuning, g: Graph, n: Node)
    requires n.Dense() && t.rootTemp != 0.0 && !t.forced && TargetOf(t, g, n).Some?
    ensures var d := TargetOf(t, g, n).value;
      MassOf(d, n.valid) == 1.0 && (forall a :: a in d ==> d[a] > 0.0 && a in n.valid)
  {
    var best := FirstMost(n.valid, n.edgeVisits).value;
    MostVisited(n, best);
    var score := BestScore(t, g, n, best);
    var i :| 0 <= i < |n.valid| && IsFirstMost(n.valid, n.edgeVisits, i) && n.valid[i] == best;
    if KeptTotal(t, g, n, best, score, n.valid) == 0 {
      SingletonMass(best, n.valid);
    } else {
      KeptMass(t, g, n, best, score);
    }
  }

  /** Only visited actions carry mass, and the most visited action carries the most. */
  lemma TargetFavoursBest(t: Tuning, g: Graph, n: Node, a: Act)
    requires n.Dense() && t.rootTemp != 0.0 && !t.forced && TargetOf(t, g, n).Some? && a in TargetOf(t, g, n).value
    ensures var d, best := TargetOf(t, g, n).value, FirstMost(n.valid, n.edgeVisits);
      && a < n.numActions && n.edgeVisits[a] > 0
      && best.Some? && best.value in d && d[a] <= d[best.value]
  {
    var best := FirstMost(n.valid, n.edgeVisits).value;
    MostVisited(n, best);
    var score := BestScore(t, g, n, best);
    var total := KeptTotal(t, g, n, best, score, n.valid);
    if total == 0 {
      SumZero(n.edgeVisits);
      var b :| 0 <= b < |n.edgeVisits| && n.edgeVisits[b] != 0;
    } else {
      PruningBound(t, g, n, best, score, a);
      PruningBound(t, g, n, best, score, best);
      ShareMonotone(KeptCount(t, g, n, best, score, a) as real, KeptCount(t, g, n, best, score, best) as real, total as real);
    }
  }

  /** A target exists exactly when the root has been visited. */
  lemma TargetExists(t: Tuning, g: Graph, n: Node)
    requires n.Dense() && t.rootTemp != 0.0 && !t.forced
    ensures TargetOf(t, g, n).Some? <==> Sum(n.edgeVisits) > 0
  {
    SumZero(n.edgeVisits);
    if Sum(n.edgeVisits) > 0 {
      var b :| 0 <= b < |n.edgeVisits| && n.edgeVisits[b] != 0;
      assert b in n.valid;
      MostVisited(n, FirstMost(n.valid, n.edgeVisits).value);
    }
  }

  // ----- the target in numbers -----

  /** A visited stored action that the pruning leaves more than one visit. */
  predicate Stays(t: Tuning, g: Graph, n: Node, best: Act, bestScore: real, a: Act)
    requires n.Dense()
  {
    a in n.valid && a < n.numActions && n.edgeVisits[a] > 0 && PrunedCount(t, g, n, best, bestScore, a) > 1
  }

  lemma StaysCounts(t: Tuning, g: Graph, n: Node, best: Act, bestScore: real, a: Act)
    requires n.Dense() && Stays(t, g, n, best, bestScore, a)
    ensures 1 < KeptCount(t, g, n, best, bestScore, a) <= KeptTotal(t, g, n, best, bestScore, n.valid)
  {
    var k :| 0 <= k < |n.valid| && n.valid[k] == a;
    KeptTotalAtLeast(t, g, n, best, bestScore, n.valid, k);
  }

  lemma NoneStays(t: Tuning, g: Graph, n: Node, best: Act, bestScore: real)
    requires n.Dense() && forall a: Act :: !Stays(t, g, n, best, bestScore, a)
    ensures KeptTotal(t, g, n, best, bestScore, n.valid) == 0
  {
    forall k | 0 <= k < |n.valid| ensures KeptCount(t, g, n, best, bestScore, n.valid[k]) == 0 {
      assert n.valid[k] in n.valid && !Stays(t, g, n, best, bestScore, n.valid[k]);
      PruningBound(t, g, n, best, bestScore, n.valid[k]);
    }
    KeptTotalZero(t, g, n, best, bestScore, n.valid);
  }

  /** The masses `x` and `y` are in the ratio of the counts `a` and `b`. */
  predicate InRatio(x: real, y: real, a: nat, b: nat) {
    x * b as real == y * a as real
  }

  lemma Proportional(x: real, y: real, a: nat, b: nat, total: nat)
    requires total > 0 && x == Share(a as real, total as real) && y == Share(b as real, total as real)
    ensures InRatio(x, y, a, b)
  {
  }

  /** The target's actions are exactly those that stay, or only the most visited one when none does. */
  lemma TargetSupport(t: Tuning, g: Graph, n: Node, d: Priors, best: Act, score: real, a: Act)
    requires n.Dense() && t.rootTemp != 0.0 && !t.forced && TargetOf(t, g, n) == Some(d)
    requires FirstMost(n.valid, n.edgeVisits) == Some(best)
    requires best < n.numActions && Scores(t, g, n, true)[best] == Fin(score)
    ensures if exists b: Act :: Stays(t, g, n, best, score, b) then a in d <==> Stays(t, g, n, best, score, a)
            else d == map[best := 1.0]
  {
    MostVisited(n, best);
    if b: Act :| Stays(t, g, n, best, score, b) {
      StaysCounts(t, g, n, best, score, b);
      if a in n.valid && a < n.numActions { PruningBound(t, g, n, best, score, a); }
    } else {
      NoneStays(t, g, n, best, score);
    }
  }

  lemma TargetMass(t: Tuning, g: Graph, n: Node, d: Priors, best: Act, score: real, a: Act)
    requires n.Dense() && t.rootTemp != 0.0 && !t.forced && TargetOf(t, g, n) == Some(d)
    requires FirstMost(n.valid, n.edgeVisits) == Some(best)
    requires best < n.numActions && Scores(t, g, n, true)[best] == Fin(score) && Stays(t, g, n, best, score, a)
    ensures KeptTotal(t, g, n, best, score, n.valid) > 0 && a in d
    ensures d[a] == Share(PrunedCount(t, g, n, best, score, a) as real, KeptTotal(t, g, n, best, score, n.valid) as real)
  {
    StaysCounts(t, g, n, best, score, a);
    MostVisited(n, best);
  }

  /** Any two actions that stay share the mass in proportion to their pruned counts. */
  lemma TargetShares(t: Tuning, g: Graph, n: Node, d: Priors, best: Act, score: real, a: Act, b: Act)
    requires n.Dense() && t.rootTemp != 0.0 && !t.forced && TargetOf(t, g, n) == Some(d)
    requires FirstMost(n.valid, n.edgeVisits) == Some(best)
    requires best < n.numActions && Scores(t, g, n, true)[best] == Fin(score)
    requires Stays(t, g, n, best, score, a) && Stays(t, g, n, best, score, b)
    ensures a in d && b in d
    ensures InRatio(d[a], d[b], PrunedCount(t, g, n, best, score, a), PrunedCount(t, g, n, best, score, b))
  {
    TargetMass(t, g, n, d, best, score, a);
    TargetMass(t, g, n, d, best, score, b);
    Proportional(d[a], d[b], PrunedCount(t, g, n, best, score, a), PrunedCount(t, g, n, best, score, b),
                 KeptTotal(t, g, n, best, score, n.valid));
  }

  lemma ForcedInNumbers(t: Tuning, prior: real, total: nat, load: real)
    requires load == t.kForced * prior * total as real
    ensures ForcedVisits(t, prior, total) == if t.sqrt(load).Floor < 0 then 0 else t.sqrt(load).Floor
  {
    assert ForcedLoad(t, total, prior) == load;
  }

  lemma WeightInNumbers(t: Tuning, n: Node, a: Act, prior: real, weight: real)
    requires a < |n.priors| && prior == n.priors[a]
    requires weight == t.cPuct * prior * t.sqrt(Sum(n.edgeVisits) as real)
    ensures Weight(t, n, a) == weight
  {
  }

  lemma MostInNumbers(v: nat, weight: real, diff: real, boundary: real)
    requires diff > 0.0 && boundary == weight / diff - 1.0
    ensures MaxSubtract(v, weight, diff) == if (v as real - boundary).Floor < 0 then 0 else (v as real - boundary).Floor
  {
  }

  lemma PrunedFromParts(t: Tuning, g: Graph, n: Node, best: Act, score: real, a: Act, q: real, weight: real)
    requires n.Dense() && a < n.numActions && Weight(t, n, a) == weight
    requires q == n.penalties[a] +
      if n.children[a].Some? && n.children[a].value in g then g[n.children[a].value].value else n.value
    ensures var v, forced := n.edgeVisits[a], ForcedVisits(t, n.priors[a], Sum(n.edgeVisits));
      var most := if score <= q then 0 else MaxSubtract(v, weight, score - q);
      PrunedCount(t, g, n, best, score, a) ==
        if v == 0 || a == best || n.priors[a] == 0.0 || forced == 0 then v
        else if (if forced < most then forced else most) > v then 0 else v - (if forced < most then forced else most)
  {
    assert TargetQ(g, n, a) == q;
  }

  /** A pruned count, with `q` the child's stored value or else the node's, plus the penalty: only a visited action other than the
      best, with a prior and a forced visit, loses any; it loses its forced visits, but no more than bring its score back to the
      best one's, and never goes below zero. */
  lemma PrunedInNumbers(t: Tuning, g: Graph, n: Node, best: Act, score: real, a: Act, q: real, weight: real, load: real,
                        boundary: real)
    requires n.Dense() && a < n.numActions
    requires q == n.penalties[a] +
      if n.children[a].Some? && n.children[a].value in g then g[n.children[a].value].value else n.value
    requires weight == t.cPuct * n.priors[a] * t.sqrt(Sum(n.edgeVisits) as real)
    requires load == t.kForced * n.priors[a] * Sum(n.edgeVisits) as real
    requires score > q ==> boundary == weight / (score - q) - 1.0
    ensures var v, forced := n.edgeVisits[a], t.sqrt(load).Floor;
      var most := if score <= q then 0 else (v as real - boundary).Floor;
      var cut := if forced < most then forced else most;
      PrunedCount(t, g, n, best, score, a) ==
        if v == 0 || a == best || n.priors[a] == 0.0 || forced <= 0 || most <= 0 then v else if cut > v then 0 else v - cut
  {
    ForcedInNumbers(t, n.priors[a], Sum(n.edgeVisits), load);
    WeightInNumbers(t, n, a, n.priors[a], weight);
    if score > q {
      MostInNumbers(n.edgeVisits[a], weight, score - q, boundary);
    }
    PrunedFromParts(t, g, n, best, score, a, q, weight);
  }

  // ----- the loops -----

  method PickFirstMost(actions: seq<Act>, visits: seq<nat>) returns (best: Option<Act>)
    requires Below(actions, |visits|)
    ensures best == FirstMost(actions, visits)
  {
    best := None;
    for k := 0 to |actions|
      invariant best == FirstMost(actions[..k], visits)
    {
      assert actions[..k + 1][..k] == actions[..k];
      if best.None? || visits[best.value] < visits[actions[k]] {
        best := Some(actions[k]);
      }
    }
    assert actions[..|actions|] == actions;
  }

  /** An entry still due holds its visits, any other its pruned count. */
  ghost predicate Edited(t: Tuning, g: Graph, n: Node, best: Act, bestScore: real, pruned: map<Act, nat>, due: set<Act>, a: Act)
    requires n.Dense()
  {
    a in pruned && a < n.numActions ==>
      pruned[a] == if a in due then n.edgeVisits[a] else PrunedCount(t, g, n, best, bestScore, a)
  }

  /** The visited actions with their counts, each edited down in place. */
  method PruneCounts(t: Tuning, g: Graph, n: Node, best: Act, bestScore: real) returns (pruned: map<Act, nat>)
    requires n.Dense()
    ensures forall a: Act :: a in pruned <==> a in n.valid && a < n.numActions && n.edgeVisits[a] > 0
    ensures forall a: Act :: a in pruned ==> pruned[a] == PrunedCount(t, g, n, best, bestScore, a)
  {
    pruned := map a | a in n.valid && a < n.numActions && n.edgeVisits[a] > 0 :: n.edgeVisits[a];
    var left := pruned.Keys;
    while left != {}
      invariant left <= pruned.Keys
      invariant forall a: Act :: a in pruned <==> a in n.valid && a < n.numActions && n.edgeVisits[a] > 0
      invariant forall a: Act :: Edited(t, g, n, best, bestScore, pruned, left, a)
      decreases left
    {
      var a :| a in left;
      ghost var before, due := pruned, left;
      assert Edited(t, g, n, best, bestScore, before, due, a);
      left := left - {a};
      var forced := ForcedVisits(t, n.priors[a], Sum(n.edgeVisits));
      if a != best && n.priors[a] != 0.0 && forced != 0 {
        var maxSubtract := MaxSubtract(pruned[a], Weight(t, n, a), bestScore - TargetQ(g, n, a));
        pruned := pruned[a := Less(pruned[a], Min(forced, maxSubtract))];
      }
      assert pruned[a] == PrunedCount(t, g, n, best, bestScore, a);
      forall b: Act ensures Edited(t, g, n, best, bestScore, pruned, left, b) {
        assert Edited(t, g, n, best, bestScore, before, due, b);
      }
    }
    forall a: Act | a in pruned ensures pruned[a] == PrunedCount(t, g, n, best, bestScore, a) {
      assert Edited(t, g, n, best, bestScore, pruned, left, a);
    }
  }

  method SumKept(t: Tuning, g: Graph, n: Node, best: Act, bestScore: real, kept: map<Act, nat>) returns (total: nat)
    requires n.Dense()
    requires forall a: Act :: a in n.valid && a < n.numActions ==>
      (if a in kept then kept[a] else 0) == KeptCount(t, g, n, best, bestScore, a)
    ensures total == KeptTotal(t, g, n, best, bestScore, n.valid)
  {
    total := 0;
    for k := 0 to |n.valid|
      invariant total + KeptTotal(t, g, n, best, bestScore, n.valid[k..]) == KeptTotal(t, g, n, best, bestScore, n.valid)
    {
      assert n.valid[k] in n.valid;
      if n.valid[k] in kept {
        total := total + kept[n.valid[k]];
      }
    }
  }

  method NormaliseKept(t: Tuning, g: Graph, n: Node, best: Act, bestScore: real, kept: map<Act, nat>) returns (target: Priors)
    requires n.Dense()
    requires forall a: Act :: a in n.valid && a < n.numActions ==>
      (if a in kept then kept[a] else 0) == KeptCount(t, g, n, best, bestScore, a)
    requires forall a: Act :: a in kept ==> kept[a] > 0 && a in n.valid && a < n.numActions
    ensures target == Distribution(t, g, n, best, bestScore)
  {
    var total := SumKept(t, g, n, best, bestScore, kept);
    KeptEmptyIff(t, g, n, best, bestScore, kept);
    if kept == map[] {
      target := map[best := 1.0];
    } else {
      target := map a | a in kept :: Share(kept[a] as real, total as real);
    }
  }

  method ComputeTarget(t: Tuning, g: Graph, n: Node) returns (target: Option<Priors>)
    requires n.Dense() && t.rootTemp != 0.0 && !t.forced
    ensures target == TargetOf(t, g, n)
  {
    if Sum(n.edgeVisits) == 0 { return None; }
    var best := PickFirstMost(n.valid, n.edgeVisits);
    if best.None? { return None; }
    MostVisited(n, best.value);
    var scores := ScoreLoop(t, g, n, true);
    var bestScore := scores[best.value].r;
    var pruned := PruneCounts(t, g, n, best.value, bestScore);
    var kept := map a | a in pruned && pruned[a] > 1 :: pruned[a];
    forall a: Act | a in n.valid && a < n.numActions
      ensures (if a in kept then kept[a] else 0) == KeptCount(t, g, n, best.value, bestScore, a)
    {
      PruningBound(t, g, n, best.value, bestScore, a);
    }
    var d := NormaliseKept(t, g, n, best.value, bestScore, kept);
    target := Some(d);
  }

  lemma KeptEmptyIff(t: Tuning, g: Graph, n: Node, best: Act, bestScore: real, kept: map<Act, nat>)
    requires n.Dense()
    requires forall a: Act :: a in n.valid && a < n.numActions ==>
      (if a in kept then kept[a] else 0) == KeptCount(t, g, n, best, bestScore, a)
    requires forall a: Act :: a in kept ==> kept[a] > 0 && a in n.valid && a < n.numActions
    ensures kept == map[] <==> KeptTotal(t, g, n, best, bestScore, n.valid) == 0
  {
    if kept == map[] {
      forall k | 0 <= k < |n.valid| ensures KeptCount(t, g, n, best, bestScore, n.valid[k]) == 0 {
        assert n.valid[k] in n.valid && n.valid[k] !in kept;
      }
      KeptTotalZero(t, g, n, best, bestScore, n.valid);
    } else {
      var a :| a in kept;
      var k :| 0 <= k < |n.valid| && n.valid[k] == a;
      KeptTotalAtLeast(t, g, n, best, bestScore, n.valid, k);
    }
  }
}
