/** Creating and linking nodes: `normalize_prior`, `create_node` and `expand` (mcts-core/src/mcts.rs). */
module Expansion {
  import opened Wrappers
  import opened Sums
  import opened Environment
  import opened SearchNode
  import opened SearchGraph
  import opened Backpropagation
  import opened Selection

  type Priors = map<Act, real>

  // ----- prior normalisation -----

  function PriorOf(priors: Priors, a: Act): real {
    if a in priors then priors[a] else 0.0
  }

  /** The mass `priors` gives to the listed actions. */
  function MassOf(priors: Priors, actions: seq<Act>): real {
    if actions == [] then 0.0 else PriorOf(priors, actions[0]) + MassOf(priors, actions[1..])
  }

  function Uniform(actions: seq<Act>): real
    requires actions != []
  {
    1.0 / |actions| as real
  }

  function Normalized(priors: Priors, actions: seq<Act>): Priors {
    var total := MassOf(priors, actions);
    if total == 0.0
    then map a | a in actions :: Uniform(actions)
    else map a | a in actions && a in priors :: Share(priors[a], total)
  }

  method TotalPrior(priors: Priors, actions: seq<Act>) returns (total: real)
    ensures total == MassOf(priors, actions)
  {
    total := 0.0;
    for i := 0 to |actions|
      invariant total + MassOf(priors, actions[i..]) == MassOf(priors, actions)
    {
      if actions[i] in priors {
        total := total + priors[actions[i]];
      }
    }
  }

  method UniformPrior(actions: seq<Act>) returns (normalized: Priors)
    requires actions != []
    ensures normalized == map a | a in actions :: Uniform(actions)
  {
    normalized := map[];
    for i := 0 to |actions|
      invariant normalized == map a | a in actions[..i] :: Uniform(actions)
    {
      normalized := normalized[actions[i] := Uniform(actions)];
    }
    assert actions[..|actions|] == actions;
  }

  method ScaledPrior(priors: Priors, actions: seq<Act>, total: real) returns (normalized: Priors)
    requires total != 0.0
    ensures normalized == map a | a in actions && a in priors :: Share(priors[a], total)
  {
    normalized := map[];
    for i := 0 to |actions|
      invariant normalized == map a | a in actions[..i] && a in priors :: Share(priors[a], total)
    {
      if actions[i] in priors {
        normalized := normalized[actions[i] := Share(priors[actions[i]], total)];
      }
    }
    assert actions[..|actions|] == actions;
  }

  method NormalizePrior(priors: Priors, actions: seq<Act>) returns (normalized: Priors)
    ensures normalized == Normalized(priors, actions)
  {
    var total := TotalPrior(priors, actions);
    if total != 0.0 {
      normalized := ScaledPrior(priors, actions, total);
    } else if actions != [] {
      normalized := UniformPrior(actions);
    } else {
      normalized := map[];
    }
  }

  lemma UniformAdds(actions: seq<Act>)
    requires actions != []
    ensures |actions| as real * Uniform(actions) == 1.0
  {
  }

  lemma {:induction false} ScaledMass(priors: Priors, scaled: Priors, actions: seq<Act>, total: real)
    requires total != 0.0
    requires forall a :: a in actions ==> PriorOf(scaled, a) == Share(PriorOf(priors, a), total)
    ensures MassOf(scaled, actions) == Share(MassOf(priors, actions), total)
  {
    if actions != [] {
      assert actions[0] in actions;
      ScaledMass(priors, scaled, actions[1..], total);
      ShareAdds(PriorOf(priors, actions[0]), MassOf(priors, actions[1..]), total);
    } else {
      ShareOfNothing(total);
    }
  }

  lemma {:induction false} ConstantMass(constant: Priors, actions: seq<Act>, p: real)
    requires forall a :: a in actions ==> PriorOf(constant, a) == p
    ensures MassOf(constant, actions) == |actions| as real * p
  {
    if actions != [] {
      assert actions[0] in actions;
      ConstantMass(constant, actions[1..], p);
      assert |actions| as real * p == p + |actions[1..]| as real * p;
    }
  }

  lemma SomePrior(priors: Priors, actions: seq<Act>)
    requires MassOf(priors, actions) != 0.0
    ensures exists a :: a in actions && a in priors
  {
    if forall a :: a in actions ==> a !in priors {
      ConstantMass(priors, actions, 0.0);
    }
  }

  /** Whatever the client answered, the stored priors have mass one over a non-empty list of actions. */
  lemma NormalizedMass(priors: Priors, actions: seq<Act>)
    requires actions != []
    ensures MassOf(Normalized(priors, actions), actions) == 1.0
  {
    var r, total := Normalized(priors, actions), MassOf(priors, actions);
    if total == 0.0 {
      ConstantMass(r, actions, Uniform(actions));
      UniformAdds(actions);
    } else {
      ShareOfNothing(total);
      ShareOfWhole(total);
      ScaledMass(priors, r, actions, total);
    }
  }

  lemma NormalizedKeys(priors: Priors, actions: seq<Act>)
    ensures forall a :: a in Normalized(priors, actions) ==> a in actions
    ensures actions != [] ==> exists a :: a in Normalized(priors, actions)
  {
    if actions != [] {
      if MassOf(priors, actions) == 0.0 {
        assert actions[0] in Normalized(priors, actions);
      } else {
        SomePrior(priors, actions);
        var a :| a in actions && a in priors;
        assert a in Normalized(priors, actions);
      }
    }
  }

  // ----- node creation -----

  function Clamp(value: real): (r: real)
    ensures -1.0 <= r <= 1.0
    ensures -1.0 <= value <= 1.0 ==> r == value
  {
    if value < -1.0 then -1.0 else if value > 1.0 then 1.0 else value
  }

  ghost predicate Created<S(!new)>(game: Game<S>, s: S, priors: Priors, value: real, n: Node) {
    if game.done(s) then n == NewTerminal(game.hash(s), value)
    else IsNewNode(n, game.numActions(s), priors, Clamp(value), game.hash(s))
  }

  /** The graph once a node for state `s` is stored: unchanged when one is there already. */
  function WithNode(g: Graph, id: NodeId, n: Node): Graph {
    if id in g then g else g[id := n]
  }

  ghost predicate AnswerAt<S(!new)>(game: Game<S>, g: Graph, g': Graph, e: Edge, s: S, priors: Priors, value: real, n: Node) {
    && (game.hash(s) !in g ==> Created(game, s, Normalized(priors, game.valid(s)), value, n))
    && g' == Link(WithNode(g, game.hash(s), n), e, game.hash(s))
  }

  /** The effect of `expand` on the graph, for some iteration order of the prior map. */
  ghost predicate ExpandsTo<S(!new)>(game: Game<S>, g: Graph, g': Graph, e: Edge, s: S, priors: Priors, value: real) {
    exists n :: AnswerAt(game, g, g', e, s, priors, value, n)
  }

  lemma CreatedCoherent<S(!new)>(game: Game<S>, s: S, priors: Priors, value: real, n: Node)
    requires Lawful(game) && Created(game, s, Normalized(priors, game.valid(s)), value, n)
    ensures n.id == game.hash(s) && n.Dense() && Faithful(game, n)
    ensures forall a :: 0 <= a < |n.children| ==> n.children[a].None?
    ensures Sum(n.edgeVisits) == 0 && n.visits == 0
    ensures forall a :: 0 <= a < |n.losses| ==> n.losses[a] == 0
  {
    NormalizedKeys(priors, game.valid(s));
    SumZero(n.edgeVisits);
    assert n.valid != [] ==> n.valid[0] in n.valid;
    if !game.done(s) && game.valid(s) != [] {
      var a :| a in Normalized(priors, game.valid(s));
      assert a in n.valid;
    }
    forall t ensures Matches(game, n, t) {
      assert Interchangeable(game, s, t);
    }
    forall k | 0 <= k < |n.valid| ensures n.valid[k] < n.numActions {
      assert n.valid[k] in n.valid;
    }
  }

  /** Storing a new node keeps every invariant: it starts with no visits, no losses and no children. */
  lemma WithNodeKeeps<S(!new)>(game: Game<S>, g: Graph, s: S, priors: Priors, value: real, n: Node, pending: multiset<Edge>)
    requires Lawful(game) && (game.hash(s) !in g ==> Created(game, s, Normalized(priors, game.valid(s)), value, n))
    requires Coherent(game, g) && Balanced(g, pending) && Settled(g, {})
    ensures var g' := WithNode(g, game.hash(s), n);
      && Coherent(game, g') && Balanced(g', pending) && Settled(g', {})
      && Evolves(g, g') && VisitsGrowBy(g, g', multiset{}) && game.hash(s) in g'
  {
    var id := game.hash(s);
    var g' := WithNode(g, id, n);
    if id !in g {
      CreatedCoherent(game, s, priors, value, n);
      forall k ensures NodeCoherent(game, g', k) {
        assert NodeCoherent(game, g, k);
      }
      forall e ensures EdgeBalanced(g', pending, e) {
        assert EdgeBalanced(g, pending, e);
      }
      forall k ensures SettledAt(g', {}, k) {
        assert SettledAt(g, {}, k);
      }
    }
    forall e ensures Counted(g, g', multiset{}, e) {
    }
  }

  // ----- linking -----

  /** A child already linked is the leaf itself, so the mismatch the source reports never occurs. */
  lemma LinkedChildIsLeaf<S(!new)>(game: Game<S>, g: Graph, e: Edge, s: S)
    requires Coherent(game, g) && game.hash(s) == e.0 && e.0 in g && g[e.0].Child(e.1).Some?
    ensures g[e.0].Child(e.1) == Some(game.hash(game.step(s, e.1)))
  {
    ChildHash(game, g, s, e.0, e.1);
  }

  lemma LinkCoherent<S(!new)>(game: Game<S>, g: Graph, e: Edge, s: S)
    requires Lawful(game) && Coherent(game, g) && Stored(g, e)
    requires game.hash(s) == e.0 && game.hash(game.step(s, e.1)) in g
    ensures Coherent(game, Link(g, e, game.hash(game.step(s, e.1))))
  {
    var leaf := game.hash(game.step(s, e.1));
    var n' := g[e.0].LinkChild(e.1, leaf);
    var g' := Link(g, e, leaf);
    assert NodeCoherent(game, g, e.0);
    assert Matches(game, g[e.0], s);
    assert Faithful(game, n') by {
      forall t ensures Matches(game, n', t) {
        assert Matches(game, g[e.0], t);
        assert Interchangeable(game, s, t);
      }
    }
    forall k ensures NodeCoherent(game, g', k) {
      assert NodeCoherent(game, g, k);
    }
  }

  lemma LinkKeeps<S(!new)>(game: Game<S>, g: Graph, e: Edge, s: S, pending: multiset<Edge>)
    requires Lawful(game) && Coherent(game, g) && Balanced(g, pending) && Settled(g, {}) && Stored(g, e)
    requires game.hash(s) == e.0 && game.hash(game.step(s, e.1)) in g
    ensures var g' := Link(g, e, game.hash(game.step(s, e.1)));
      && Coherent(game, g') && Balanced(g', pending) && Settled(g', {})
      && Evolves(g, g') && VisitsGrowBy(g, g', multiset{}) && Expanded(g', e)
  {
    var leaf := game.hash(game.step(s, e.1));
    var g' := Link(g, e, leaf);
    LinkCoherent(game, g, e, s);
    assert NodeCoherent(game, g, e.0);
    forall k ensures EdgeBalanced(g', pending, k) {
      assert EdgeBalanced(g, pending, k);
    }
    forall k ensures SettledAt(g', {}, k) {
      assert SettledAt(g, {}, k);
    }
    forall k ensures Counted(g, g', multiset{}, k) {
    }
  }

  lemma RouteExpanded<S(!new)>(game: Game<S>, g: Graph, s0: S, path: Path)
    requires Route(game, g, s0, path) && path != [] && Expanded(g, path[|path| - 1])
    ensures AllExpanded(g, path)
  {
    forall i | 0 <= i < |path| ensures Expanded(g, path[i]) {
      assert Stored(g, path[i]);
      if i < |path| - 1 {
        assert g[path[i].0].Child(path[i].1) == Some(path[i + 1].0);
      }
    }
  }

  /** Expanding the end of a pending route keeps every invariant and makes the whole route settleable. */
  lemma ExpandKeeps<S(!new)>(game: Game<S>, g: Graph, g': Graph, s0: S, path: Path, s: S, priors: Priors, value: real,
                             pending: multiset<Edge>)
    requires Lawful(game) && Coherent(game, g) && Balanced(g, pending) && Settled(g, {})
    requires path != [] && Route(game, g, s0, path) && s == StepAlong(game, s0, path)
    requires ExpandsTo(game, g, g', path[|path| - 1], s, priors, value)
    ensures Coherent(game, g') && Balanced(g', pending) && Settled(g', {})
    ensures Evolves(g, g') && VisitsGrowBy(g, g', multiset{}) && AllExpanded(g', path) && game.hash(s) in g'
  {
    var e := path[|path| - 1];
    var n :| AnswerAt(game, g, g', e, s, priors, value, n);
    var g1 := WithNode(g, game.hash(s), n);
    var parent := StepAlong(game, s0, path[..|path| - 1]);
    WithNodeKeeps(game, g, s, priors, value, n, pending);
    RouteEvolves(game, g, g1, s0, path);
    LinkKeeps(game, g1, e, parent, pending);
    EvolvesChain(g, g1, g');
    RouteEvolves(game, g1, g', s0, path);
    RouteExpanded(game, g', s0, path);
    var none: multiset<Edge> := multiset{};
    VisitsGrowChain(g, g1, g', none, none);
    assert none + none == none;
  }

  // ----- value bounds -----

  lemma CreatedValue<S(!new)>(game: Game<S>, s: S, priors: Priors, value: real, n: Node)
    requires Created(game, s, priors, value, n)
    ensures |n.penalties| == |n.edgeVisits| && n.estimate == n.value
    ensures forall a :: 0 <= a < |n.penalties| ==> n.penalties[a] == 0.0
    ensures n.value == if game.done(s) then value else Clamp(value)
  {
  }

  lemma WithNodeUpper<S(!new)>(game: Game<S>, g: Graph, s: S, priors: Priors, value: real, n: Node)
    requires UpperBounded(g, None) && (game.hash(s) !in g ==> Created(game, s, priors, value, n))
    requires game.done(s) ==> value <= 1.0
    ensures UpperBounded(WithNode(g, game.hash(s), n), None)
  {
    var g1 := WithNode(g, game.hash(s), n);
    if game.hash(s) !in g {
      CreatedValue(game, s, priors, value, n);
      forall id ensures BoundedAt(g1, None, id) {
        assert BoundedAt(g, None, id);
        forall a: Act ensures PenaltyBounded(n, game.hash(s), None, a) {
        }
      }
    }
  }

  lemma ExpandUpper<S(!new)>(game: Game<S>, g: Graph, g': Graph, e: Edge, s: S, priors: Priors, value: real)
    requires UpperBounded(g, None) && ExpandsTo(game, g, g', e, s, priors, value)
    requires game.done(s) ==> value <= 1.0
    ensures UpperBounded(g', None)
  {
    var n :| AnswerAt(game, g, g', e, s, priors, value, n);
    WithNodeUpper(game, g, s, Normalized(priors, game.valid(s)), value, n);
    LinkUpper(WithNode(g, game.hash(s), n), e, game.hash(s));
  }

  lemma LinkUpper(g: Graph, e: Edge, child: NodeId)
    requires UpperBounded(g, None)
    ensures UpperBounded(Link(g, e, child), None)
  {
    var g' := Link(g, e, child);
    forall id ensures BoundedAt(g', None, id) {
      assert BoundedAt(g, None, id);
      if id in g' {
        forall a: Act ensures PenaltyBounded(g'[id], id, None, a) {
          assert PenaltyBounded(g[id], id, None, a);
        }
      }
    }
  }

  lemma WithNodeLower<S(!new)>(game: Game<S>, g: Graph, s: S, priors: Priors, value: real, n: Node)
    requires LowerBounded(g) && (game.hash(s) !in g ==> Created(game, s, priors, value, n))
    requires game.done(s) ==> value >= -1.0
    ensures LowerBounded(WithNode(g, game.hash(s), n))
  {
    var g1 := WithNode(g, game.hash(s), n);
    if game.hash(s) !in g {
      CreatedValue(game, s, priors, value, n);
      forall id ensures BoundedBelowAt(g1, id) {
        assert BoundedBelowAt(g, id);
        forall a: Act ensures Unpenalised(n, a) {
        }
      }
    }
  }

  lemma ExpandLower<S(!new)>(game: Game<S>, g: Graph, g': Graph, e: Edge, s: S, priors: Priors, value: real)
    requires LowerBounded(g) && ExpandsTo(game, g, g', e, s, priors, value)
    requires game.done(s) ==> value >= -1.0
    ensures LowerBounded(g')
  {
    var n :| AnswerAt(game, g, g', e, s, priors, value, n);
    WithNodeLower(game, g, s, Normalized(priors, game.valid(s)), value, n);
    SameValuesLower(WithNode(g, game.hash(s), n), g');
  }
}
