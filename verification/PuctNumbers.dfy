/** What a score is made of, in numbers, and what a selection does with it (mcts-core/src/mcts.rs). */
module PuctNumbers {
  import opened Wrappers
  import opened Sums
  import opened Environment
  import opened SearchNode
  import opened SearchGraph
  import opened Backpropagation
  import opened Puct
  import opened Selection

  // ----- the priors that are scored -----

  function OfTotal(x: real, total: real): real {
    if total > 0.0 then x / total else x
  }

  lemma {:induction false} ListedTotal(buf: seq<real>, f: Act -> real, actions: seq<Act>)
    requires Below(actions, |buf|) && forall k :: 0 <= k < |actions| ==> buf[actions[k]] == f(actions[k])
    ensures RealSumAt(buf, actions) == Total(f, actions)
  {
    if actions != [] {
      assert forall k :: 0 <= k < |actions[1..]| ==> actions[1..][k] == actions[k + 1];
      ListedTotal(buf, f, actions[1..]);
    }
  }

  lemma NormalisedAt(buf: seq<real>, f: Act -> real, actions: seq<Act>, a: Act)
    requires Below(actions, |buf|) && a in actions && a < |buf|
    requires forall k :: 0 <= k < |actions| ==> buf[actions[k]] == f(actions[k])
    ensures Normalised(buf, actions)[a] == OfTotal(f(a), Total(f, actions))
  {
    ListedTotal(buf, f, actions);
    var k :| 0 <= k < |actions| && actions[k] == a;
  }

  /** `drawn` mixes the noise into the stored priors with the source's weights. */
  ghost predicate Draws(t: Tuning, n: Node, drawn: Act -> real) {
    t.noise.Some? ==>
      forall a :: a in n.valid && a < |n.priors| ==>
        drawn(a) == (1.0 - t.noiseEps) * n.priors[a] + t.noiseEps * (if a in t.noise.value then t.noise.value[a] else 0.0)
  }

  /** The root prior before the temperature: as stored, or mixed with noise and divided by the mixed total. */
  function Blended(t: Tuning, n: Node, drawn: Act -> real, a: Act): real
    requires a < |n.priors|
  {
    if t.noise.None? then n.priors[a] else OfTotal(drawn(a), Total(drawn, n.valid))
  }

  /** `warm` raises each blended prior, at least 1e-30, to the power one over the temperature. */
  ghost predicate Warms(t: Tuning, n: Node, drawn: Act -> real, warm: Act -> real)
    requires t.rootTemp != 0.0
  {
    forall a :: a in n.valid && a < |n.priors| ==>
      var p := Blended(t, n, drawn, a);
      warm(a) == t.pow(if p < 0.000000000000000000000000000001 then 0.000000000000000000000000000001 else p, 1.0 / t.rootTemp)
  }

  lemma BlendedPrior(t: Tuning, n: Node, drawn: Act -> real, a: Act)
    requires n.Dense() && a in n.valid && a < n.numActions && Draws(t, n, drawn)
    ensures (if t.noise.Some? then Normalised(Mixed(t, n), n.valid) else n.priors)[a] == Blended(t, n, drawn, a)
  {
    if t.noise.Some? {
      forall k | 0 <= k < |n.valid| ensures Mixed(t, n)[n.valid[k]] == drawn(n.valid[k]) {
        assert n.valid[k] in n.valid;
      }
      NormalisedAt(Mixed(t, n), drawn, n.valid, a);
    }
  }

  /** At the root the scored prior is the blended one, or with a temperature its power's share; elsewhere it is the stored one. */
  lemma RootPriorInNumbers(t: Tuning, n: Node, drawn: Act -> real, warm: Act -> real, a: Act)
    requires n.Dense() && t.rootTemp != 0.0 && a in n.valid && a < n.numActions
    requires Draws(t, n, drawn) && Warms(t, n, drawn, warm)
    ensures EffectivePriors(t, n, true)[a] ==
      if -0.000001 <= t.rootTemp - 1.0 <= 0.000001 then Blended(t, n, drawn, a) else OfTotal(warm(a), Total(warm, n.valid))
    ensures EffectivePriors(t, n, false) == n.priors
  {
    BlendedPrior(t, n, drawn, a);
    if NeedsSoftmax(t) {
      var mixed := if t.noise.Some? then Normalised(Mixed(t, n), n.valid) else n.priors;
      forall k | 0 <= k < |n.valid| ensures Tempered(t, n, mixed)[n.valid[k]] == warm(n.valid[k]) {
        assert n.valid[k] in n.valid;
        BlendedPrior(t, n, drawn, n.valid[k]);
      }
      NormalisedAt(Tempered(t, n, mixed), warm, n.valid, a);
    }
  }

  // ----- the scores -----

  /** `explored` is the stored prior of a visited action and zero for any other. */
  ghost predicate Explores(n: Node, explored: Act -> real) {
    forall a :: a in n.valid && a < |n.priors| && a < |n.edgeVisits| ==>
      explored(a) == if n.edgeVisits[a] > 0 then n.priors[a] else 0.0
  }

  lemma {:induction false} ExploredTotal(n: Node, explored: Act -> real, actions: seq<Act>)
    requires Below(actions, |n.priors|) && Below(actions, |n.edgeVisits|)
    requires Explores(n, explored) && forall k :: 0 <= k < |actions| ==> actions[k] in n.valid
    ensures ExploredMass(n, actions) == Total(explored, actions)
  {
    if actions != [] {
      assert forall k :: 0 <= k < |actions[1..]| ==> actions[1..][k] == actions[k + 1];
      ExploredTotal(n, explored, actions[1..]);
    }
  }

  /** The value of an action without a stored child: the node's, off the root less the root of the explored mass. */
  predicate FallbackIs(t: Tuning, n: Node, isRoot: bool, explored: Act -> real, fallback: real) {
    fallback == if isRoot then n.value else n.value - t.cFpu * t.sqrt(Total(explored, n.valid))
  }

  predicate LoadIs(t: Tuning, p: real, total: nat, load: real) {
    load == t.kForced * p * total as real
  }

  predicate ExplorationIs(t: Tuning, p: real, total: nat, visits: nat, u: real) {
    u == t.cPuct * p * ((t.sqrt(total as real) + 0.00000001) / (1.0 + visits as real))
  }

  lemma FallbackInNumbers(t: Tuning, n: Node, isRoot: bool, explored: Act -> real, fallback: real)
    requires n.Dense() && Explores(n, explored)
    requires FallbackIs(t, n, isRoot, explored, fallback)
    ensures FpuValue(t, n, isRoot) == fallback
  {
    ExploredTotal(n, explored, n.valid);
  }

  lemma QualityInNumbers(t: Tuning, g: Graph, n: Node, isRoot: bool, a: Act, fallback: real, q: real)
    requires n.Dense() && a < n.numActions && FpuValue(t, n, isRoot) == fallback
    requires q == if n.children[a].Some? && n.children[a].value in g then g[n.children[a].value].value else fallback
    ensures Quality(t, g, n, isRoot, a) == q + n.penalties[a]
  {
    assert n.Child(a) == n.children[a];
  }

  lemma BonusInNumbers(t: Tuning, total: nat, p: real, visits: nat, u: real)
    requires ExplorationIs(t, p, total, visits, u)
    ensures Exploration(t, total, p, visits) == u
  {
  }

  lemma FloorInNumbers(t: Tuning, total: nat, visits: nat, p: real, load: real)
    requires LoadIs(t, p, total, load)
    ensures UnderFloor(t, total, visits, p) <==> total > 0 && visits as real < t.sqrt(load)
  {
    assert ForcedLoad(t, total, p) == load;
  }

  lemma ScoreFromParts(t: Tuning, g: Graph, n: Node, isRoot: bool, a: Act, p: real, total: nat, visits: nat, pending: nat)
    requires n.Dense() && t.rootTemp != 0.0 && a < n.numActions
    requires p == EffectivePriors(t, n, isRoot)[a] && total == Sum(n.edgeVisits)
    requires visits == n.edgeVisits[a] && pending == n.losses[a]
    ensures Scores(t, g, n, isRoot)[a] ==
      if a !in n.valid then NegInf
      else if isRoot && t.forced && UnderFloor(t, total, visits, p) then PosInf
      else Fin(Quality(t, g, n, isRoot, a) + Exploration(t, total, p, visits + pending))
  {
    ScoreAt(t, g, n, isRoot, a);
    ScoreOfParts(t, g, n, EffectivePriors(t, n, isRoot), isRoot, a);
  }

  lemma ScoreSum(s: Score, listed: bool, floored: bool, value: real, bonus: real, q: real, penalty: real, u: real)
    requires s == if !listed then NegInf else if floored then PosInf else Fin(value + bonus)
    requires value == q + penalty && bonus == u
    ensures s == if !listed then NegInf else if floored then PosInf else Fin(q + penalty + u)
  {
  }

  lemma ScoreAssembled(t: Tuning, g: Graph, n: Node, isRoot: bool, a: Act, p: real, total: nat, visits: nat, pending: nat,
                       fallback: real, q: real, penalty: real, floor: real, u: real)
    requires n.Dense() && t.rootTemp != 0.0 && a < n.numActions && FpuValue(t, n, isRoot) == fallback
    requires p == EffectivePriors(t, n, isRoot)[a] && total == Sum(n.edgeVisits)
    requires visits == n.edgeVisits[a] && pending == n.losses[a] && penalty == n.penalties[a]
    requires q == if n.children[a].Some? && n.children[a].value in g then g[n.children[a].value].value else fallback
    requires UnderFloor(t, total, visits, p) <==> total > 0 && visits as real < floor
    requires Exploration(t, total, p, visits + pending) == u
    ensures Scores(t, g, n, isRoot)[a] ==
      if a !in n.valid then NegInf
      else if isRoot && t.forced && total > 0 && visits as real < floor then PosInf
      else Fin(q + penalty + u)
  {
    QualityInNumbers(t, g, n, isRoot, a, fallback, q);
    ScoreFromParts(t, g, n, isRoot, a, p, total, visits, pending);
    ScoreSum(Scores(t, g, n, isRoot)[a], a in n.valid, isRoot && t.forced && UnderFloor(t, total, visits, p),
             Quality(t, g, n, isRoot, a), Exploration(t, total, p, visits + pending), q, penalty, u);
  }

  /** A score, with the prior `p` that is scored: minus infinity off the list; infinity exactly for a forced root action whose
      visits are below its floor, the root of `load`; otherwise `q`, the child's stored value or else the fallback (the node's value,
      off the root less the root of the explored mass), plus the penalty, plus `u`, the prior's share of the exploration after all
      settled and pending visits. */
  lemma ScoreInNumbers(t: Tuning, g: Graph, n: Node, isRoot: bool, explored: Act -> real, a: Act, p: real, total: nat, visits: nat,
                       pending: nat, fallback: real, q: real, penalty: real, load: real, u: real)
    requires n.Dense() && t.rootTemp != 0.0 && a < n.numActions && Explores(n, explored)
    requires p == EffectivePriors(t, n, isRoot)[a] && total == Sum(n.edgeVisits)
    requires visits == n.edgeVisits[a] && pending == n.losses[a] && penalty == n.penalties[a]
    requires FallbackIs(t, n, isRoot, explored, fallback)
    requires q == if n.children[a].Some? && n.children[a].value in g then g[n.children[a].value].value else fallback
    requires LoadIs(t, p, total, load)
    requires ExplorationIs(t, p, total, visits + pending, u)
    ensures Scores(t, g, n, isRoot)[a] ==
      if a !in n.valid then NegInf
      else if isRoot && t.forced && total > 0 && visits as real < t.sqrt(load) then PosInf
      else Fin(q + penalty + u)
  {
    FallbackInNumbers(t, n, isRoot, explored, fallback);
    FloorInNumbers(t, total, visits, p, load);
    BonusInNumbers(t, total, p, visits + pending, u);
    ScoreAssembled(t, g, n, isRoot, a, p, total, visits, pending, fallback, q, penalty, t.sqrt(load), u);
  }

  lemma ScoreAt(t: Tuning, g: Graph, n: Node, isRoot: bool, a: Act)
    requires n.Dense() && t.rootTemp != 0.0 && a < n.numActions
    ensures Scores(t, g, n, isRoot)[a] ==
      if a in n.valid then ScoreOf(t, g, n, EffectivePriors(t, n, isRoot), isRoot, a) else NegInf
  {
  }

  lemma ScoreOfParts(t: Tuning, g: Graph, n: Node, p: seq<real>, isRoot: bool, a: Act)
    requires n.Dense() && a < n.numActions && |p| == n.numActions
    ensures ScoreOf(t, g, n, p, isRoot, a) ==
      if isRoot && t.forced && UnderFloor(t, Sum(n.edgeVisits), n.edgeVisits[a], p[a]) then PosInf
      else Fin(Quality(t, g, n, isRoot, a) + Exploration(t, Sum(n.edgeVisits), p[a], n.edgeVisits[a] + n.losses[a]))
  {
  }

  lemma QualityWithPenalty(t: Tuning, g: Graph, n: Node, n': Node, isRoot: bool, a: Act)
    requires n.Dense() && n'.Dense() && n' == n.(penalties := n'.penalties) && a < n.numActions
    ensures Quality(t, g, n', isRoot, a) - n'.penalties[a] == Quality(t, g, n, isRoot, a) - n.penalties[a]
  {
    SameExploredMass(n, n', n.valid);
    assert FpuValue(t, n', isRoot) == FpuValue(t, n, isRoot);
    assert n'.Child(a) == n.Child(a);
  }

  lemma ScoreWithPenalty(t: Tuning, g: Graph, n: Node, n': Node, p: seq<real>, isRoot: bool, a: Act)
    requires n.Dense() && n'.Dense() && n' == n.(penalties := n'.penalties) && a < n.numActions && |p| == n.numActions
    ensures var before, after := ScoreOf(t, g, n, p, isRoot, a), ScoreOf(t, g, n', p, isRoot, a);
      (before.Fin? <==> after.Fin?) && (before.PosInf? <==> after.PosInf?)
      && (before.Fin? ==> after.r - before.r == n'.penalties[a] - n.penalties[a])
  {
    QualityWithPenalty(t, g, n, n', isRoot, a);
    ScoreOfParts(t, g, n, p, isRoot, a);
    ScoreOfParts(t, g, n', p, isRoot, a);
  }

  lemma PenaltyShare(t: Tuning, g: Graph, n: Node, n': Node, isRoot: bool, a: Act)
    requires n.Dense() && n'.Dense() && n' == n.(penalties := n'.penalties) && t.rootTemp != 0.0 && a < n.numActions
    ensures var before, after := Scores(t, g, n, isRoot)[a], Scores(t, g, n', isRoot)[a];
      if before.Fin? then after == Fin(before.r + (n'.penalties[a] - n.penalties[a])) else after == before
  {
    PriorsUnderLosses(t, n, n', isRoot);
    ScoreAt(t, g, n, isRoot, a);
    ScoreAt(t, g, n', isRoot, a);
    ScoreWithPenalty(t, g, n, n', EffectivePriors(t, n, isRoot), isRoot, a);
  }

  lemma PenaltyDense(n: Node, a: Act)
    requires n.Dense() && a in n.valid && a < n.numActions
    ensures var n' := n.ApplyPenalty(a);
      && n'.Dense() && n' == n.(penalties := n'.penalties) && n'.penalties[a] == n.penalties[a] - 1.0 / |n.valid| as real
      && n'.penalties[a] < n.penalties[a]
      && forall b :: 0 <= b < n.numActions && b != a ==> n'.penalties[b] == n.penalties[b]
  {
    assert 1.0 / |n.valid| as real > 0.0;
  }

  /** A repeat lowers the finite score of the action it ended with by one share of the node's actions, and no other score. */
  lemma PenaltyLowersScore(t: Tuning, g: Graph, n: Node, isRoot: bool, a: Act, b: Act)
    requires n.Dense() && t.rootTemp != 0.0 && a in n.valid && a < n.numActions && b < n.numActions
    ensures n.ApplyPenalty(a).Dense()
    ensures var before, after := Scores(t, g, n, isRoot), Scores(t, g, n.ApplyPenalty(a), isRoot);
      && (before[a].Fin? ==> after[a].Fin? && after[a].r == before[a].r - 1.0 / |n.valid| as real && after[a].r < before[a].r)
      && (before[a].PosInf? ==> after[a].PosInf?)
      && (b != a ==> after[b] == before[b])
  {
    var n' := n.ApplyPenalty(a);
    PenaltyDense(n, a);
    PenaltyShare(t, g, n, n', isRoot, a);
    PenaltyShare(t, g, n, n', isRoot, b);
  }

  // ----- the choices of a walk -----

  /** The action chosen at `id` has the best score there, and is the last listed with that score. */
  ghost predicate ChosenAt<S(!new)>(game: Game<S>, t: Tuning, g: Graph, root: NodeId, id: NodeId, a: Act, k: nat)
    requires t.rootTemp != 0.0
  {
    && id in g && g[id].Dense() && k < |g[id].valid| && g[id].valid[k] == a
    && IsLastBest(g[id].valid, Scores(t, g, g[id], id == root), k)
  }

  lemma ChoiceIsBest<S(!new)>(game: Game<S>, t: Tuning, g: Graph, root: NodeId, id: NodeId) returns (k: nat)
    requires Coherent(game, g) && t.rootTemp != 0.0 && Choice(game, t, g, root, id).Some?
    ensures ChosenAt(game, t, g, root, id, Choice(game, t, g, root, id).value, k)
  {
    assert NodeCoherent(game, g, id);
    var scores := Scores(t, g, g[id], id == root);
    k :| k < |g[id].valid| && IsLastBest(g[id].valid, scores, k) && g[id].valid[k] == Choice(game, t, g, root, id).value;
  }

  lemma PriorsUnderSettings(t: Tuning, t': Tuning, n: Node, isRoot: bool)
    requires n.Dense() && t.rootTemp != 0.0 && t'.rootTemp != 0.0
    requires isRoot ==> t' == t.(cFpu := t'.cFpu)
    ensures EffectivePriors(t', n, isRoot) == EffectivePriors(t, n, isRoot)
  {
    if isRoot {
      if t.noise.Some? {
        assert Mixed(t', n) == Mixed(t, n);
      }
      var mixed := if t.noise.Some? then Normalised(Mixed(t, n), n.valid) else n.priors;
      assert Tempered(t', n, mixed) == Tempered(t, n, mixed);
    }
  }

  lemma ScoreUnderSettings(t: Tuning, t': Tuning, g: Graph, n: Node, p: seq<real>, isRoot: bool, a: Act)
    requires n.Dense() && a < n.numActions && |p| == n.numActions && t'.cPuct == t.cPuct && t'.sqrt == t.sqrt
    requires if isRoot then t' == t.(cFpu := t'.cFpu) else t'.cFpu == t.cFpu
    ensures ScoreOf(t', g, n, p, isRoot, a) == ScoreOf(t, g, n, p, isRoot, a)
  {
    assert FpuValue(t', n, isRoot) == FpuValue(t, n, isRoot);
    assert Quality(t', g, n, isRoot, a) == Quality(t, g, n, isRoot, a);
    ScoreOfParts(t, g, n, p, isRoot, a);
    ScoreOfParts(t', g, n, p, isRoot, a);
    SettingsSpare(t, t', Sum(n.edgeVisits), p[a], n.edgeVisits[a], n.edgeVisits[a] + n.losses[a]);
  }

  lemma SettingsSpare(t: Tuning, t': Tuning, total: nat, p: real, settled: nat, visits: nat)
    requires t'.cPuct == t.cPuct && t'.sqrt == t.sqrt
    ensures Exploration(t', total, p, visits) == Exploration(t, total, p, visits)
    ensures t'.kForced == t.kForced ==> (UnderFloor(t', total, settled, p) <==> UnderFloor(t, total, settled, p))
  {
    if t'.kForced == t.kForced {
      assert ForcedLoad(t', total, p) == ForcedLoad(t, total, p);
    }
  }

  /** The noise, the temperature and the forced playouts act at the root only, the first-play reduction elsewhere only. */
  lemma RootSettingsAtRootOnly<S(!new)>(game: Game<S>, t: Tuning, t': Tuning, g: Graph, root: NodeId, id: NodeId)
    requires Coherent(game, g) && t.rootTemp != 0.0 && t'.rootTemp != 0.0
    requires t'.cPuct == t.cPuct && t'.sqrt == t.sqrt && t'.pow == t.pow
    requires if id == root then t' == t.(cFpu := t'.cFpu) else t'.cFpu == t.cFpu
    ensures Choice(game, t', g, root, id) == Choice(game, t, g, root, id)
  {
    if id in g {
      assert NodeCoherent(game, g, id);
      var n, isRoot := g[id], id == root;
      PriorsUnderSettings(t, t', n, isRoot);
      forall a | 0 <= a < n.numActions ensures Scores(t', g, n, isRoot)[a] == Scores(t, g, n, isRoot)[a] {
        ScoreUnderSettings(t, t', g, n, EffectivePriors(t, n, isRoot), isRoot, a);
        ScoreAt(t, g, n, isRoot, a);
        ScoreAt(t', g, n, isRoot, a);
      }
      assert Scores(t', g, n, isRoot) == Scores(t, g, n, isRoot);
    }
  }

  /** The graph once each entry of the path has been charged one virtual loss, the first entry first. */
  function Charges(g: Graph, path: Path): Graph {
    if path == [] then g else AddLoss(Charges(g, path[..|path| - 1]), path[|path| - 1])
  }

  /** Entry `i` is the best choice in the graph that the entries before it have charged. */
  ghost predicate BestAt<S(!new)>(game: Game<S>, t: Tuning, g0: Graph, root: NodeId, path: Path, i: nat)
    requires t.rootTemp != 0.0
  {
    i < |path| ==> exists k: nat :: ChosenAt(game, t, Charges(g0, path[..i]), root, path[i].0, path[i].1, k)
  }

  ghost predicate Greedy<S(!new)>(game: Game<S>, t: Tuning, g0: Graph, root: NodeId, path: Path)
    requires t.rootTemp != 0.0
  {
    forall i: nat :: BestAt(game, t, g0, root, path, i)
  }

  lemma BestNext<S(!new)>(game: Game<S>, t: Tuning, g0: Graph, root: NodeId, path: Path, id: NodeId)
    requires t.rootTemp != 0.0
    requires Coherent(game, Charges(g0, path)) && Choice(game, t, Charges(g0, path), root, id).Some?
    ensures BestAt(game, t, g0, root, path + [(id, Choice(game, t, Charges(g0, path), root, id).value)], |path|)
  {
    var longer := path + [(id, Choice(game, t, Charges(g0, path), root, id).value)];
    assert longer[..|path|] == path;
    var k := ChoiceIsBest(game, t, Charges(g0, path), root, id);
    assert ChosenAt(game, t, Charges(g0, longer[..|path|]), root, longer[|path|].0, longer[|path|].1, k);
  }

  lemma GreedyStep<S(!new)>(game: Game<S>, t: Tuning, g0: Graph, root: NodeId, path: Path, id: NodeId)
    requires t.rootTemp != 0.0 && Greedy(game, t, g0, root, path)
    requires Coherent(game, Charges(g0, path)) && Choice(game, t, Charges(g0, path), root, id).Some?
    ensures var a := Choice(game, t, Charges(g0, path), root, id).value;
      && Greedy(game, t, g0, root, path + [(id, a)])
      && Charges(g0, path + [(id, a)]) == AddLoss(Charges(g0, path), (id, a))
  {
    var e := (id, Choice(game, t, Charges(g0, path), root, id).value);
    var longer := path + [e];
    assert longer[..|path|] == path;
    forall i: nat ensures BestAt(game, t, g0, root, longer, i) {
      assert BestAt(game, t, g0, root, path, i);
      if i < |path| {
        assert longer[..i] == path[..i];
      } else if i == |path| {
        BestNext(game, t, g0, root, path, id);
      }
    }
  }

  /** Every entry of a selection is the best choice given the losses charged so far, and those losses are all it changes. */
  lemma {:induction false} WalkGreedy<S(!new)>(game: Game<S>, t: Tuning, g0: Graph, root: NodeId, id: NodeId, s: S, path: Path)
    requires Ready(game, t, Charges(g0, path), id, s) && Greedy(game, t, g0, root, path)
    ensures var w := Walk(game, t, Charges(g0, path), root, id, s, path);
      Greedy(game, t, g0, root, w.path) && w.graph == Charges(g0, w.path)
    decreases Charges(g0, path).Keys - Ids(path)
  {
    var g := Charges(g0, path);
    if !game.done(s) && id in g && id !in Ids(path) && Choice(game, t, g, root, id).Some? {
      var a := Choice(game, t, g, root, id).value;
      GreedyStep(game, t, g0, root, path, id);
      WalkMove(game, t, g, root, id, s, path, a);
      var g1 := AddLoss(g, (id, a));
      if g1[id].Child(a).Some? {
        WalkGreedy(game, t, g0, root, g1[id].Child(a).value, game.step(s, a), path + [(id, a)]);
      }
    }
  }

  /** The same for a whole selection from the root. */
  lemma SelectionGreedy<S(!new)>(game: Game<S>, t: Tuning, g: Graph, root: NodeId, env: S)
    requires Ready(game, t, g, root, env)
    ensures var w := Walk(game, t, g, root, root, env, []);
      Greedy(game, t, g, root, w.path) && w.graph == Charges(g, w.path)
  {
    forall i: nat ensures BestAt(game, t, g, root, [], i) {
    }
    WalkGreedy(game, t, g, root, root, env, []);
  }
}
