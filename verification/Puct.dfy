/** Action scoring and choice at one node: `puct_scores` and `select_action_puct` (mcts-core/src/mcts.rs). */
module Puct {
  import opened Wrappers
  import opened Sums
  import opened Environment
  import opened SearchNode
  import opened SearchGraph

  /** A float score: the two infinities the source uses, or a finite value. */
  datatype Score = NegInf | Fin(r: real) | PosInf

  predicate AtMost(s: Score, t: Score) {
    s.NegInf? || t.PosInf? || (s.Fin? && t.Fin? && s.r <= t.r)
  }

  /** The search's coefficients, the root noise, and the two float functions it calls. */
  datatype Tuning = Tuning(
    cPuct: real,
    cFpu: real,
    rootTemp: real,
    kForced: real,
    forced: bool,
    noise: Option<map<Act, real>>,
    noiseEps: real,
    sqrt: real -> real,
    pow: (real, real) -> real)

  const TINY := 0.00000001                                  // 1e-8
  const FLOOR := 0.000000000000000000000000000001           // 1e-30
  const TEMP_SLACK := 0.000001                              // 1e-6

  // ----- effective priors -----

  function RealSumAt(buf: seq<real>, actions: seq<Act>): real
    requires Below(actions, |buf|)
  {
    if actions == [] then 0.0 else buf[actions[0]] + RealSumAt(buf, actions[1..])
  }

  /** The listed entries divided by their total, when that is positive. */
  function Normalised(buf: seq<real>, actions: seq<Act>): (r: seq<real>)
    requires Below(actions, |buf|)
    ensures |r| == |buf|
  {
    var total := RealSumAt(buf, actions);
    if total > 0.0
    then seq(|buf|, i requires 0 <= i < |buf| =>
           if i in actions then Share(buf[i], total) else buf[i])
    else buf
  }

  function Mixed(t: Tuning, n: Node): (r: seq<real>)
    requires t.noise.Some?
    ensures |r| == |n.priors|
  {
    seq(|n.priors|, i requires 0 <= i < |n.priors| =>
      if i in n.valid
      then (1.0 - t.noiseEps) * n.priors[i] + t.noiseEps * (if i in t.noise.value then t.noise.value[i] else 0.0)
      else n.priors[i])
  }

  function Max(x: real, y: real): real { if x < y then y else x }

  function Tempered(t: Tuning, n: Node, buf: seq<real>): (r: seq<real>)
    requires t.rootTemp != 0.0
    ensures |r| == |buf|
  {
    seq(|buf|, i requires 0 <= i < |buf| =>
      if i in n.valid then t.pow(Max(buf[i], FLOOR), 1.0 / t.rootTemp) else buf[i])
  }

  predicate NeedsSoftmax(t: Tuning) {
    t.rootTemp - 1.0 > TEMP_SLACK || 1.0 - t.rootTemp > TEMP_SLACK
  }

  function EffectivePriors(t: Tuning, n: Node, isRoot: bool): (r: seq<real>)
    requires Below(n.valid, |n.priors|) && t.rootTemp != 0.0
    ensures |r| == |n.priors|
  {
    var mixed := if isRoot && t.noise.Some? then Normalised(Mixed(t, n), n.valid) else n.priors;
    if isRoot && NeedsSoftmax(t) then Normalised(Tempered(t, n, mixed), n.valid) else mixed
  }

  // ----- scores -----

  function ExploredMass(n: Node, actions: seq<Act>): real
    requires Below(actions, |n.priors|) && Below(actions, |n.edgeVisits|)
  {
    if actions == [] then 0.0
    else (if n.edgeVisits[actions[0]] > 0 then n.priors[actions[0]] else 0.0) + ExploredMass(n, actions[1..])
  }

  /** The fallback value of an action without a known child. */
  function FpuValue(t: Tuning, n: Node, isRoot: bool): real
    requires Below(n.valid, |n.priors|) && Below(n.valid, |n.edgeVisits|)
  {
    n.value - (if isRoot then 0.0 else t.cFpu) * t.sqrt(ExploredMass(n, n.valid))
  }

  function ChildValue(g: Graph, n: Node, a: Act, fallback: real): real {
    match n.Child(a)
    case Some(c) => if c in g then g[c].value else fallback
    case None => fallback
  }

  function ForcedLoad(t: Tuning, total: nat, prior: real): real {
    t.kForced * prior * total as real
  }

  /** Fewer visits than the forced-playout floor for this prior and total. */
  predicate UnderFloor(t: Tuning, total: nat, visits: nat, prior: real) {
    total > 0 && visits as real < t.sqrt(ForcedLoad(t, total, prior))
  }

  predicate UnderVisited(t: Tuning, n: Node, priors: seq<real>, a: Act)
    requires a < |priors| && a < |n.edgeVisits|
  {
    UnderFloor(t, Sum(n.edgeVisits), n.edgeVisits[a], priors[a])
  }

  function RootOfTotal(t: Tuning, total: nat): real {
    t.sqrt(total as real) + TINY
  }

  function Quality(t: Tuning, g: Graph, n: Node, isRoot: bool, a: Act): real
    requires n.Dense() && a < n.numActions
  {
    ChildValue(g, n, a, FpuValue(t, n, isRoot)) + n.penalties[a]
  }

  /** The exploration term, after `visits` settled and pending visits. */
  function Bonus(weight: real, top: real, visits: nat): real {
    weight * (top / (1.0 + visits as real))
  }

  function Exploration(t: Tuning, total: nat, prior: real, visits: nat): real {
    Bonus(t.cPuct * prior, RootOfTotal(t, total), visits)
  }

  function ScoreOf(t: Tuning, g: Graph, n: Node, priors: seq<real>, isRoot: bool, a: Act): Score
    requires n.Dense() && |priors| == n.numActions && a < n.numActions
  {
    if isRoot && t.forced && UnderVisited(t, n, priors, a) then PosInf
    else
      Fin(Quality(t, g, n, isRoot, a) + Exploration(t, Sum(n.edgeVisits), priors[a], n.edgeVisits[a] + n.losses[a]))
  }

  function Scores(t: Tuning, g: Graph, n: Node, isRoot: bool): (r: seq<Score>)
    requires n.Dense() && t.rootTemp != 0.0
    ensures |r| == n.numActions
  {
    var priors := EffectivePriors(t, n, isRoot);
    seq(n.numActions, a requires 0 <= a < n.numActions && n.Dense() && |priors| == n.numActions =>
      if a in n.valid then ScoreOf(t, g, n, priors, isRoot, a) else NegInf)
  }

  // ----- choice -----

  /** The action `max_by` picks: of the best-scored, the one listed last. */
  function LastBest(actions: seq<Act>, scores: seq<Score>): (r: Option<Act>)
    requires Below(actions, |scores|)
    ensures r.Some? <==> actions != []
    ensures r.Some? ==> exists i :: 0 <= i < |actions| && IsLastBest(actions, scores, i) && actions[i] == r.value
  {
    if actions == [] then None
    else
      var last := actions[|actions| - 1];
      var before := actions[..|actions| - 1];
      var best := LastBest(before, scores);
      if best.Some? && !AtMost(scores[best.value], scores[last]) then
        assert forall i :: 0 <= i < |before| && IsLastBest(before, scores, i) && before[i] == best.value ==>
          IsLastBest(actions, scores, i);
        best
      else
        assert IsLastBest(actions, scores, |actions| - 1) by {
          if best.Some? {
            var i :| 0 <= i < |before| && IsLastBest(before, scores, i) && before[i] == best.value;
            assert forall j :: 0 <= j < |before| ==> actions[j] == before[j];
          }
        }
        Some(last)
  }

  /** No listed action scores above the i-th, and none listed after it scores as high. */
  ghost predicate IsLastBest(actions: seq<Act>, scores: seq<Score>, i: nat)
    requires Below(actions, |scores|)
  {
    && i < |actions|
    && (forall j :: 0 <= j < |actions| ==> AtMost(scores[actions[j]], scores[actions[i]]))
    && (forall j :: i < j < |actions| ==> !AtMost(scores[actions[i]], scores[actions[j]]))
  }

  function Choose(t: Tuning, g: Graph, id: NodeId, isRoot: bool): (r: Option<Act>)
    requires id in g ==> g[id].Dense()
    requires t.rootTemp != 0.0
    ensures r.Some? ==> id in g && r.value in g[id].valid && r.value < g[id].numActions
    ensures r.Some? <==> id in g && g[id].valid != []
  {
    assert id in g && g[id].valid != [] ==> g[id].numActions > 0 by {
      if id in g && g[id].valid != [] {
        assert g[id].valid[0] < g[id].numActions;
      }
    }
    if id !in g || g[id].numActions == 0 then None else
      LastBest(g[id].valid, Scores(t, g, g[id], isRoot))
  }

  lemma ScoreReadsLocally(t: Tuning, g: Graph, h: Graph, n: Node, priors: seq<real>, isRoot: bool, a: Act)
    requires n.Dense() && |priors| == n.numActions && a < n.numActions
    requires SameChildValue(g, h, n, a)
    ensures ScoreOf(t, h, n, priors, isRoot, a) == ScoreOf(t, g, n, priors, isRoot, a)
  {
    var fallback := FpuValue(t, n, isRoot);
    assert ChildValue(g, n, a, fallback) == ChildValue(h, n, a, fallback);
  }

  /** A choice reads the node itself and its children's values, nothing else. */
  lemma ChooseReadsLocally(t: Tuning, g: Graph, h: Graph, id: NodeId, isRoot: bool)
    requires id in g && id in h && h[id] == g[id] && g[id].Dense() && t.rootTemp != 0.0
    requires forall a: Act :: SameChildValue(g, h, g[id], a)
    ensures Choose(t, h, id, isRoot) == Choose(t, g, id, isRoot)
  {
    var n := g[id];
    var priors := EffectivePriors(t, n, isRoot);
    forall a | 0 <= a < n.numActions
      ensures Scores(t, h, n, isRoot)[a] == Scores(t, g, n, isRoot)[a]
    {
      ScoreReadsLocally(t, g, h, n, priors, isRoot, a);
    }
    assert Scores(t, h, n, isRoot) == Scores(t, g, n, isRoot);
  }

  ghost predicate SameChildValue(g: Graph, h: Graph, n: Node, a: Act) {
    n.Child(a).Some? ==>
      var c := n.Child(a).value;
      (c in g <==> c in h) && (c in g ==> g[c].value == h[c].value)
  }

  // ----- the loops -----

  method TotalAt(buf: seq<real>, actions: seq<Act>) returns (total: real)
    requires Below(actions, |buf|)
    ensures total == RealSumAt(buf, actions)
  {
    total := 0.0;
    for k := 0 to |actions|
      invariant total + RealSumAt(buf, actions[k..]) == RealSumAt(buf, actions)
    {
      total := total + buf[actions[k]];
    }
  }

  /** Divides the listed entries of the buffer by their total, one after the other. */
  method NormaliseBuffer(start: seq<real>, actions: seq<Act>) returns (buf: seq<real>)
    requires Below(actions, |start|) && Distinct(actions)
    ensures buf == Normalised(start, actions)
  {
    buf := start;
    var total := TotalAt(buf, actions);
    if total > 0.0 {
      for k := 0 to |actions|
        invariant |buf| == |start|
        invariant forall i :: 0 <= i < |buf| ==> buf[i] == if i in actions[..k] then Share(start[i], total) else start[i]
      {
        var a := actions[k];
        assert a !in actions[..k];
        buf := buf[a := Share(buf[a], total)];
      }
      assert actions[..|actions|] == actions;
    }
  }

  method MixNoise(t: Tuning, n: Node) returns (buf: seq<real>)
    requires t.noise.Some? && n.Dense()
    ensures buf == Mixed(t, n)
  {
    buf := n.priors;
    for k := 0 to |n.valid|
      invariant |buf| == |n.priors|
      invariant forall i :: 0 <= i < |buf| ==> buf[i] == if i in n.valid[..k] then Mixed(t, n)[i] else n.priors[i]
    {
      var a := n.valid[k];
      var drawn := if a in t.noise.value then t.noise.value[a] else 0.0;
      buf := buf[a := (1.0 - t.noiseEps) * n.priors[a] + t.noiseEps * drawn];
    }
    assert n.valid[..|n.valid|] == n.valid;
  }

  method Temper(t: Tuning, n: Node, start: seq<real>) returns (buf: seq<real>)
    requires t.rootTemp != 0.0 && n.Dense() && |start| == |n.priors|
    ensures buf == Tempered(t, n, start)
  {
    buf := start;
    var invTemp := 1.0 / t.rootTemp;
    for k := 0 to |n.valid|
      invariant |buf| == |start|
      invariant forall i :: 0 <= i < |buf| ==> buf[i] == if i in n.valid[..k] then t.pow(Max(start[i], FLOOR), invTemp) else start[i]
    {
      var a := n.valid[k];
      assert a !in n.valid[..k];
      buf := buf[a := t.pow(Max(buf[a], FLOOR), invTemp)];
    }
    assert n.valid[..|n.valid|] == n.valid;
  }

  method EffectiveBuffer(t: Tuning, n: Node, isRoot: bool) returns (buf: seq<real>)
    requires t.rootTemp != 0.0 && n.Dense()
    ensures buf == EffectivePriors(t, n, isRoot)
  {
    buf := n.priors;
    if isRoot && t.noise.Some? {
      buf := MixNoise(t, n);
      buf := NormaliseBuffer(buf, n.valid);
    }
    if isRoot && NeedsSoftmax(t) {
      buf := Temper(t, n, buf);
      buf := NormaliseBuffer(buf, n.valid);
    }
  }

  method ScoreLoop(t: Tuning, g: Graph, n: Node, isRoot: bool) returns (scores: seq<Score>)
    requires n.Dense() && t.rootTemp != 0.0
    ensures scores == Scores(t, g, n, isRoot)
  {
    var priors := EffectiveBuffer(t, n, isRoot);
    scores := seq(n.numActions, _ => NegInf);
    for k := 0 to |n.valid|
      invariant |scores| == n.numActions
      invariant forall i :: 0 <= i < |scores| ==>
        scores[i] == if i in n.valid[..k] then ScoreOf(t, g, n, priors, isRoot, i) else NegInf
    {
      var a := n.valid[k];
      scores := scores[a := ScoreOf(t, g, n, priors, isRoot, a)];
    }
    assert n.valid[..|n.valid|] == n.valid;
  }

  method PickLastBest(actions: seq<Act>, scores: seq<Score>) returns (best: Option<Act>)
    requires Below(actions, |scores|)
    ensures best == LastBest(actions, scores)
  {
    best := None;
    for k := 0 to |actions|
      invariant best == LastBest(actions[..k], scores)
    {
      assert actions[..k + 1][..k] == actions[..k];
      if best.None? || AtMost(scores[best.value], scores[actions[k]]) {
        best := Some(actions[k]);
      }
    }
    assert actions[..|actions|] == actions;
  }

  // ----- what the scoring is for -----

  lemma {:induction false} SumAtShared(buf: seq<real>, shared: seq<real>, actions: seq<Act>, total: real)
    requires Below(actions, |buf|) && |shared| == |buf| && total != 0.0
    requires forall k :: 0 <= k < |actions| ==> shared[actions[k]] == Share(buf[actions[k]], total)
    ensures RealSumAt(shared, actions) == Share(RealSumAt(buf, actions), total)
  {
    if actions != [] {
      assert forall k :: 0 <= k < |actions[1..]| ==> actions[1..][k] == actions[k + 1];
      SumAtShared(buf, shared, actions[1..], total);
      ShareAdds(buf[actions[0]], RealSumAt(buf, actions[1..]), total);
    } else {
      ShareOfNothing(total);
    }
  }

  lemma {:induction false} PositiveSum(buf: seq<real>, actions: seq<Act>)
    requires Below(actions, |buf|) && forall k :: 0 <= k < |actions| ==> buf[actions[k]] > 0.0
    ensures RealSumAt(buf, actions) >= 0.0 && (actions != [] ==> RealSumAt(buf, actions) > 0.0)
  {
    if actions != [] {
      assert forall k :: 0 <= k < |actions[1..]| ==> actions[1..][k] == actions[k + 1];
      PositiveSum(buf, actions[1..]);
    }
  }

  lemma SharePositive(x: real, total: real)
    requires x > 0.0 && total > 0.0
    ensures Share(x, total) > 0.0
  {
  }

  /** With the root temperature on, noise or not, the scored root priors are a positive distribution. */
  lemma RootPriorsAreDistribution(t: Tuning, n: Node)
    requires n.Dense() && n.valid != [] && t.rootTemp != 0.0 && NeedsSoftmax(t)
    requires forall x: real, y: real :: x > 0.0 ==> t.pow(x, y) > 0.0
    ensures var p := EffectivePriors(t, n, true);
      RealSumAt(p, n.valid) == 1.0 && forall k :: 0 <= k < |n.valid| ==> p[n.valid[k]] > 0.0
  {
    var mixed := if t.noise.Some? then Normalised(Mixed(t, n), n.valid) else n.priors;
    var buf := Tempered(t, n, mixed);
    forall k | 0 <= k < |n.valid| ensures buf[n.valid[k]] > 0.0 {
      assert n.valid[k] in n.valid;
      assert Max(mixed[n.valid[k]], FLOOR) > 0.0;
    }
    PositiveSum(buf, n.valid);
    var total := RealSumAt(buf, n.valid);
    var p := Normalised(buf, n.valid);
    forall k | 0 <= k < |n.valid| ensures p[n.valid[k]] == Share(buf[n.valid[k]], total) && p[n.valid[k]] > 0.0 {
      assert n.valid[k] in n.valid;
      SharePositive(buf[n.valid[k]], total);
    }
    SumAtShared(buf, p, n.valid, total);
    ShareOfWhole(total);
  }

  /** An untried action is valued like the node itself at the root, and never higher elsewhere. */
  lemma UntriedNeverAboveNode(t: Tuning, g: Graph, n: Node, isRoot: bool, a: Act)
    requires n.Dense() && a < n.numActions && n.children[a] == None && n.penalties[a] == 0.0
    requires t.cFpu >= 0.0 && forall x: real :: t.sqrt(x) >= 0.0
    ensures Quality(t, g, n, isRoot, a) <= n.value
    ensures isRoot ==> Quality(t, g, n, isRoot, a) == n.value
  {
    assert t.sqrt(ExploredMass(n, n.valid)) >= 0.0;
    assert t.cFpu * t.sqrt(ExploredMass(n, n.valid)) >= 0.0;
  }

  lemma BonusDecreases(weight: real, top: real, visits: nat)
    requires weight > 0.0 && top > 0.0
    ensures Bonus(weight, top, visits + 1) < Bonus(weight, top, visits)
  {
    var d := 1.0 + visits as real;
    var less, more := top / (d + 1.0), top / d;
    assert less * (d + 1.0) == more * d;
    assert less * (d + 1.0) == less * d + less;
    assert less * d < more * d;
    assert less < more;
    assert 1.0 + (visits + 1) as real == d + 1.0;
    assert weight * less < weight * more;
  }

  lemma QualityUnderLosses(t: Tuning, g: Graph, n: Node, n': Node, isRoot: bool, a: Act)
    requires n.Dense() && n'.Dense() && n' == n.(losses := n'.losses) && a < n.numActions
    ensures Quality(t, g, n', isRoot, a) == Quality(t, g, n, isRoot, a)
  {
    SameExploredMass(n, n', n.valid);
    assert n'.Child(a) == n.Child(a);
  }

  lemma {:induction false} SameExploredMass(n: Node, n': Node, actions: seq<Act>)
    requires Below(actions, |n.priors|) && Below(actions, |n.edgeVisits|)
    requires n'.priors == n.priors && n'.edgeVisits == n.edgeVisits
    ensures ExploredMass(n', actions) == ExploredMass(n, actions)
  {
    if actions != [] {
      SameExploredMass(n, n', actions[1..]);
    }
  }

  lemma PriorsUnderLosses(t: Tuning, n: Node, n': Node, isRoot: bool)
    requires n.Dense() && n'.priors == n.priors && n'.valid == n.valid && t.rootTemp != 0.0
    ensures EffectivePriors(t, n', isRoot) == EffectivePriors(t, n, isRoot)
  {
    if isRoot && t.noise.Some? {
      assert Mixed(t, n') == Mixed(t, n);
    }
    var mixed := if isRoot && t.noise.Some? then Normalised(Mixed(t, n), n.valid) else n.priors;
    assert Tempered(t, n', mixed) == Tempered(t, n, mixed);
  }

  lemma LossLowersOwnScore(t: Tuning, g: Graph, n: Node, n': Node, p: seq<real>, isRoot: bool, a: Act)
    requires n.Dense() && n'.Dense() && a < n.numActions && |p| == n.numActions
    requires n' == n.(losses := n.losses[a := n.losses[a] + 1])
    requires forall x: real :: t.sqrt(x) >= 0.0
    requires t.cPuct * p[a] > 0.0 && !(isRoot && t.forced && UnderVisited(t, n, p, a))
    ensures var before, after := ScoreOf(t, g, n, p, isRoot, a), ScoreOf(t, g, n', p, isRoot, a);
      before.Fin? && after.Fin? && after.r < before.r
  {
    QualityUnderLosses(t, g, n, n', isRoot, a);
    BonusDecreases(t.cPuct * p[a], RootOfTotal(t, Sum(n.edgeVisits)), n.edgeVisits[a] + n.losses[a]);
  }

  lemma LossSparesOthers(t: Tuning, g: Graph, n: Node, n': Node, p: seq<real>, isRoot: bool, b: Act)
    requires n.Dense() && n'.Dense() && b < n.numActions && |p| == n.numActions
    requires n' == n.(losses := n'.losses) && n'.losses[b] == n.losses[b]
    ensures ScoreOf(t, g, n', p, isRoot, b) == ScoreOf(t, g, n, p, isRoot, b)
  {
    QualityUnderLosses(t, g, n, n', isRoot, b);
  }

  /** A pending playout makes its own edge strictly less attractive and leaves every other score alone. */
  lemma LossLowersScore(t: Tuning, g: Graph, n: Node, isRoot: bool, a: Act, b: Act)
    requires n.Dense() && t.rootTemp != 0.0 && a in n.valid && a < n.numActions && b in n.valid && b < n.numActions
    requires forall x: real :: t.sqrt(x) >= 0.0
    requires var p := EffectivePriors(t, n, isRoot);
      t.cPuct * p[a] > 0.0 && !(isRoot && t.forced && UnderVisited(t, n, p, a))
    ensures n.AddVirtualLoss(a).Dense()
    ensures var before, after := Scores(t, g, n, isRoot), Scores(t, g, n.AddVirtualLoss(a), isRoot);
      && before[a].Fin? && after[a].Fin? && after[a].r < before[a].r
      && (b != a ==> after[b] == before[b])
  {
    var n' := n.AddVirtualLoss(a);
    var p := EffectivePriors(t, n, isRoot);
    PriorsUnderLosses(t, n, n', isRoot);
    LossLowersOwnScore(t, g, n, n', p, isRoot, a);
    if b != a {
      LossSparesOthers(t, g, n, n', p, isRoot, b);
    }
  }

  /** While some stored root action is under its forced floor, a forced search picks such an action. */
  lemma ForcedChoice(t: Tuning, g: Graph, id: NodeId, a: Act)
    requires id in g && g[id].Dense() && t.rootTemp != 0.0 && t.forced
    requires a in g[id].valid && a < g[id].numActions && UnderVisited(t, g[id], EffectivePriors(t, g[id], true), a)
    ensures var r := Choose(t, g, id, true);
      r.Some? && r.value < g[id].numActions && UnderVisited(t, g[id], EffectivePriors(t, g[id], true), r.value)
  {
    var n := g[id];
    var scores := Scores(t, g, n, true);
    var r := Choose(t, g, id, true);
    var i :| 0 <= i < |n.valid| && IsLastBest(n.valid, scores, i) && n.valid[i] == r.value;
    var j :| 0 <= j < |n.valid| && n.valid[j] == a;
    assert scores[n.valid[j]] == PosInf;
    assert scores[n.valid[i]] == PosInf;
  }
}
