/** The walk from the root to a leaf: `select_leaf` (mcts-core/src/mcts.rs). */
module Selection {
  import opened Wrappers
  import opened Sums
  import opened Environment
  import opened SearchNode
  import opened SearchGraph
  import opened Backpropagation
  import opened Puct

  function StepAlong<S>(game: Game<S>, s: S, path: Path): S {
    if path == [] then s else game.step(StepAlong(game, s, path[..|path| - 1]), path[|path| - 1].1)
  }

  datatype Walked<S> = Walked(graph: Graph, path: Path, final: S, repeat: bool)

  lemma ChildHash<S(!new)>(game: Game<S>, g: Graph, s: S, id: NodeId, a: Act)
    requires Coherent(game, g) && game.hash(s) == id && id in g && g[id].Child(a).Some?
    ensures g[id].Child(a).value == game.hash(game.step(s, a)) && g[id].Child(a).value in g
  {
    assert NodeCoherent(game, g, id);
    assert Matches(game, g[id], s);
  }

  /** A stored non-terminal state has a stored action exactly when the game gives it a valid one. */
  lemma StoredActions<S(!new)>(game: Game<S>, g: Graph, s: S)
    requires Coherent(game, g) && game.hash(s) in g && !game.done(s)
    ensures g[game.hash(s)].valid == [] <==> game.valid(s) == []
  {
    assert NodeCoherent(game, g, game.hash(s));
    assert Matches(game, g[game.hash(s)], s);
  }

  lemma AddLossCoherent<S(!new)>(game: Game<S>, g: Graph, e: Edge)
    requires Coherent(game, g) && Stored(g, e)
    ensures Coherent(game, AddLoss(g, e)) && AddLoss(g, e).Keys == g.Keys
    ensures OnlyLosses(g, AddLoss(g, e))
  {
    assert NodeCoherent(game, g, e.0);
    CoherentUpdate(game, g, e.0, g[e.0].AddVirtualLoss(e.1));
  }

  lemma IdsExtend(path: Path, e: Edge)
    ensures Ids(path + [e]) == Ids(path) + {e.0}
  {
    var longer := path + [e];
    assert longer[|path|] == e;
    forall id | id in Ids(path) ensures id in Ids(longer) {
      var i :| 0 <= i < |path| && path[i].0 == id;
      assert longer[i] == path[i];
    }
  }

  /** What the loop of `select_leaf` needs to go on from node `id` in state `s`. */
  ghost predicate Ready<S(!new)>(game: Game<S>, t: Tuning, g: Graph, id: NodeId, s: S) {
    Lawful(game) && Coherent(game, g) && game.hash(s) == id && t.rootTemp != 0.0
  }

  function Choice<S(!new)>(game: Game<S>, t: Tuning, g: Graph, root: NodeId, id: NodeId): (r: Option<Act>)
    requires Coherent(game, g) && t.rootTemp != 0.0
    ensures r.Some? ==> Stored(g, (id, r.value))
    ensures r.Some? <==> id in g && g[id].valid != []
  {
    assert NodeCoherent(game, g, id);
    Choose(t, g, id, id == root)
  }

  /** The rest of the walk from node `id`, reached in state `s` along `path`. */
  function Walk<S(!new)>(game: Game<S>, t: Tuning, g: Graph, root: NodeId, id: NodeId, s: S, path: Path): Walked<S>
    requires Ready(game, t, g, id, s)
    decreases g.Keys - Ids(path)
  {
    if game.done(s) || id !in g then Walked(g, path, s, false)
    else if game.hash(s) in Ids(path) then Walked(g, path, s, true)
    else
      match Choice(game, t, g, root, id)
      case None => Walked(g, path, s, false)
      case Some(a) =>
        var g1 := AddLoss(g, (id, a));
        var path1 := path + [(id, a)];
        if g1[id].Child(a).None? then Walked(g1, path1, game.step(s, a), false)
        else
          AddLossCoherent(game, g, (id, a));
          ChildHash(game, g1, s, id, a);
          IdsExtend(path, (id, a));
          Walk(game, t, g1, root, g1[id].Child(a).value, game.step(s, a), path1)
  }

  /** One turn of the loop, when an action is chosen. */
  lemma WalkMove<S(!new)>(game: Game<S>, t: Tuning, g: Graph, root: NodeId, id: NodeId, s: S, path: Path, a: Act)
    requires Ready(game, t, g, id, s) && !game.done(s) && id in g && id !in Ids(path)
    requires Choice(game, t, g, root, id) == Some(a)
    ensures var g1, s1, path1 := AddLoss(g, (id, a)), game.step(s, a), path + [(id, a)];
      && id in g1
      && (g1[id].Child(a).None? ==> Walk(game, t, g, root, id, s, path) == Walked(g1, path1, s1, false))
      && (g1[id].Child(a).Some? ==>
           var c := g1[id].Child(a).value;
           && Ready(game, t, g1, c, s1)
           && Walk(game, t, g, root, id, s, path) == Walk(game, t, g1, root, c, s1, path1)
           && g1.Keys - Ids(path1) < g.Keys - Ids(path))
  {
    AddLossCoherent(game, g, (id, a));
    IdsExtend(path, (id, a));
    var g1 := AddLoss(g, (id, a));
    if g1[id].Child(a).Some? {
      ChildHash(game, g1, s, id, a);
    }
  }

  // ----- what a walk returns -----

  /** Each entry's node is the hash of the state the walk was in when it left that node. */
  ghost predicate Tracked<S(!new)>(game: Game<S>, s0: S, path: Path) {
    forall i :: 0 <= i < |path| ==> game.hash(StepAlong(game, s0, path[..i])) == path[i].0
  }

  /** A path of pairwise distinct stored nodes, each the child of the one before, that follows the game from `s0`. */
  ghost predicate Route<S(!new)>(game: Game<S>, g: Graph, s0: S, path: Path) {
    Simple(path) && Routed(g, path) && Joined(g, path) && Tracked(game, s0, path)
  }

  /** The last edge has no child yet, or leads to `id`. */
  ghost predicate LeadsTo(g: Graph, path: Path, id: NodeId) {
    path != [] ==>
      var (m, a) := path[|path| - 1];
      m in g && g[m].Child(a) == Some(id)
  }

  ghost predicate Ends(g: Graph, path: Path) {
    path != [] ==>
      var (m, a) := path[|path| - 1];
      m in g && g[m].Child(a) == None
  }

  lemma TrackedExtend<S(!new)>(game: Game<S>, s0: S, path: Path, e: Edge)
    requires Tracked(game, s0, path) && game.hash(StepAlong(game, s0, path)) == e.0
    ensures Tracked(game, s0, path + [e])
    ensures StepAlong(game, s0, path + [e]) == game.step(StepAlong(game, s0, path), e.1)
  {
    var longer := path + [e];
    assert longer[..|path|] == path;
    forall i | 0 <= i < |longer| ensures game.hash(StepAlong(game, s0, longer[..i])) == longer[i].0 {
      assert i < |path| ==> longer[..i] == path[..i];
    }
  }

  lemma RoutedEvolves(g: Graph, g': Graph, path: Path)
    requires Routed(g, path) && Joined(g, path) && Evolves(g, g')
    ensures Routed(g', path) && Joined(g', path)
  {
    forall i | 0 <= i < |path| ensures Stored(g', path[i]) {
      assert Stored(g, path[i]) && EvolvesAt(g, g', path[i].0);
    }
    forall i | 0 <= i < |path| - 1
      ensures path[i].0 in g' && g'[path[i].0].Child(path[i].1) == Some(path[i + 1].0)
    {
      assert EvolvesAt(g, g', path[i].0);
    }
  }

  lemma RouteEvolves<S(!new)>(game: Game<S>, g: Graph, g': Graph, s0: S, path: Path)
    requires Route(game, g, s0, path) && Evolves(g, g')
    ensures Route(game, g', s0, path)
  {
    RoutedEvolves(g, g', path);
  }

  lemma SimpleExtend(path: Path, e: Edge)
    requires Simple(path) && e.0 !in Ids(path)
    ensures Simple(path + [e])
  {
  }

  lemma RouteExtend<S(!new)>(game: Game<S>, g: Graph, s0: S, path: Path, e: Edge)
    requires Route(game, g, s0, path) && LeadsTo(g, path, e.0)
    requires e.0 !in Ids(path) && Stored(g, e) && game.hash(StepAlong(game, s0, path)) == e.0
    ensures Route(game, g, s0, path + [e])
    ensures StepAlong(game, s0, path + [e]) == game.step(StepAlong(game, s0, path), e.1)
  {
    TrackedExtend(game, s0, path, e);
    SimpleExtend(path, e);
    var longer := path + [e];
    forall i | 0 <= i < |longer| - 1
      ensures longer[i].0 in g && g[longer[i].0].Child(longer[i].1) == Some(longer[i + 1].0)
    {
      if i < |path| - 1 {
        assert path[i].0 in g;
      }
    }
  }

  lemma AddLossSettles(g: Graph, e: Edge)
    requires Settled(g, {})
    ensures Settled(AddLoss(g, e), {})
  {
    var g' := AddLoss(g, e);
    if e.0 in g && e.1 < |g[e.0].losses| {
      SumUpdate(g[e.0].losses, e.1, g[e.0].losses[e.1] + 1);
    }
    forall id ensures SettledAt(g', {}, id) {
      assert SettledAt(g, {}, id);
    }
  }

  /** Where a walk stops: at a repeat, at a terminal state, or at an edge to expand. A non-terminal state that is
      already stored ends a walk only when it has no stored action. */
  ghost predicate Arrived<S(!new)>(game: Game<S>, w: Walked<S>) {
    && (w.repeat ==> w.path != [] && LeadsTo(w.graph, w.path, game.hash(w.final)) && game.hash(w.final) in Ids(w.path))
    && (!w.repeat && !game.done(w.final) ==>
         || Ends(w.graph, w.path)
         || game.hash(w.final) !in w.graph
         || (LeadsTo(w.graph, w.path, game.hash(w.final)) && w.graph[game.hash(w.final)].valid == []))
    && (Ends(w.graph, w.path) || LeadsTo(w.graph, w.path, game.hash(w.final)))
  }

  lemma WalkStep<S(!new)>(game: Game<S>, g: Graph, s0: S, path: Path, e: Edge)
    requires Coherent(game, g) && Route(game, g, s0, path) && LeadsTo(g, path, e.0)
    requires e.0 !in Ids(path) && Stored(g, e) && game.hash(StepAlong(game, s0, path)) == e.0
    ensures var g1, path1 := AddLoss(g, e), path + [e];
      && Coherent(game, g1) && g1.Keys == g.Keys && OnlyLosses(g, g1) && e.0 in g1
      && Route(game, g1, s0, path1)
      && StepAlong(game, s0, path1) == game.step(StepAlong(game, s0, path), e.1)
      && (g1[e.0].Child(e.1).Some? ==> g1[e.0].Child(e.1).value == game.hash(StepAlong(game, s0, path1)))
  {
    var g1 := AddLoss(g, e);
    AddLossCoherent(game, g, e);
    OnlyLossesEvolves(g, g1);
    RouteExtend(game, g, s0, path, e);
    RouteEvolves(game, g, g1, s0, path + [e]);
    if g1[e.0].Child(e.1).Some? {
      ChildHash(game, g1, StepAlong(game, s0, path), e.0, e.1);
    }
  }

  /** What a walk that has reached graph `g` along `path` from `s0` ends with. */
  ghost predicate GoodWalk<S(!new)>(game: Game<S>, g: Graph, s0: S, path: Path, w: Walked<S>) {
    && Route(game, w.graph, s0, w.path) && w.final == StepAlong(game, s0, w.path)
    && path <= w.path && Coherent(game, w.graph) && OnlyLosses(g, w.graph)
    && Arrived(game, w)
  }

  lemma GoodWalkFrom<S(!new)>(game: Game<S>, g: Graph, g1: Graph, s0: S, path: Path, path1: Path, w: Walked<S>)
    requires GoodWalk(game, g1, s0, path1, w) && OnlyLosses(g, g1) && path <= path1
    ensures GoodWalk(game, g, s0, path, w)
  {
    OnlyLossesChain(g, g1, w.graph);
  }

  lemma GoodStop<S(!new)>(game: Game<S>, g: Graph, s0: S, path: Path, s: S, repeat: bool)
    requires Route(game, g, s0, path) && Coherent(game, g) && s == StepAlong(game, s0, path)
    requires Arrived(game, Walked(g, path, s, repeat))
    ensures GoodWalk(game, g, s0, path, Walked(g, path, s, repeat))
  {
  }

  /** One move makes a good walk of the rest into a good walk of the whole. */
  lemma GoodMove<S(!new)>(game: Game<S>, g: Graph, s0: S, path: Path, e: Edge, w: Walked<S>)
    requires Coherent(game, g) && Stored(g, e)
    requires GoodWalk(game, AddLoss(g, e), s0, path + [e], w)
    ensures GoodWalk(game, g, s0, path, w)
  {
    AddLossCoherent(game, g, e);
    GoodWalkFrom(game, g, AddLoss(g, e), s0, path, path + [e], w);
  }

  /** A move onto an edge without a child ends a good walk. */
  lemma GoodLeaf<S(!new)>(game: Game<S>, g: Graph, s0: S, path: Path, e: Edge)
    requires Coherent(game, g) && Route(game, g, s0, path) && LeadsTo(g, path, e.0)
    requires e.0 !in Ids(path) && Stored(g, e) && game.hash(StepAlong(game, s0, path)) == e.0
    requires e.0 in AddLoss(g, e) && AddLoss(g, e)[e.0].Child(e.1).None?
    ensures GoodWalk(game, g, s0, path, Walked(AddLoss(g, e), path + [e], game.step(StepAlong(game, s0, path), e.1), false))
  {
    WalkStep(game, g, s0, path, e);
    GoodStop(game, AddLoss(g, e), s0, path + [e], StepAlong(game, s0, path + [e]), false);
    GoodMove(game, g, s0, path, e, Walked(AddLoss(g, e), path + [e], StepAlong(game, s0, path + [e]), false));
  }

  lemma GoodHalt<S(!new)>(game: Game<S>, t: Tuning, g: Graph, root: NodeId, id: NodeId, s: S, path: Path, s0: S)
    requires Ready(game, t, g, id, s)
    requires Route(game, g, s0, path) && LeadsTo(g, path, id) && s == StepAlong(game, s0, path)
    requires game.done(s) || id !in g || id in Ids(path) || Choice(game, t, g, root, id).None?
    ensures GoodWalk(game, g, s0, path, Walk(game, t, g, root, id, s, path))
  {
    GoodStop(game, g, s0, path, s, !game.done(s) && id in g && id in Ids(path));
  }

  /** The walk terminates with a route from `s0` in a graph that differs only in virtual losses. */
  lemma {:induction false} WalkRoute<S(!new)>(game: Game<S>, t: Tuning, g: Graph, root: NodeId, id: NodeId, s: S,
                                              path: Path, s0: S)
    requires Ready(game, t, g, id, s)
    requires Route(game, g, s0, path) && LeadsTo(g, path, id) && s == StepAlong(game, s0, path)
    ensures GoodWalk(game, g, s0, path, Walk(game, t, g, root, id, s, path))
    decreases g.Keys - Ids(path)
  {
    var choice := Choice(game, t, g, root, id);
    if game.done(s) || id !in g || id in Ids(path) || choice.None? {
      GoodHalt(game, t, g, root, id, s, path, s0);
    } else {
      var e := (id, choice.value);
      var g1, path1, s1 := AddLoss(g, e), path + [e], game.step(s, e.1);
      WalkMove(game, t, g, root, id, s, path, e.1);
      if g1[id].Child(e.1).Some? {
        var c := g1[id].Child(e.1).value;
        WalkStep(game, g, s0, path, e);
        WalkRoute(game, t, g1, root, c, s1, path1, s0);
        GoodMove(game, g, s0, path, e, Walk(game, t, g1, root, c, s1, path1));
      } else {
        GoodLeaf(game, g, s0, path, e);
      }
    }
  }

  ghost predicate Charged(g: Graph, pending: multiset<Edge>, path: Path) {
    Balanced(g, pending + multiset(path)) && Settled(g, {})
  }

  lemma ChargeStep<S(!new)>(game: Game<S>, g: Graph, e: Edge, pending: multiset<Edge>, path: Path)
    requires Coherent(game, g) && Stored(g, e) && Charged(g, pending, path)
    ensures Charged(AddLoss(g, e), pending, path + [e])
  {
    AddLossKeeps(game, g, e, pending + multiset(path));
    AddLossSettles(g, e);
    assert pending + multiset(path) + multiset{e} == pending + multiset(path + [e]);
  }

  /** The walk charges one virtual loss to each entry of its path, and nothing else. */
  lemma {:induction false} WalkCharges<S(!new)>(game: Game<S>, t: Tuning, g: Graph, root: NodeId, id: NodeId, s: S,
                                                path: Path, pending: multiset<Edge>)
    requires Ready(game, t, g, id, s) && Charged(g, pending, path)
    ensures var w := Walk(game, t, g, root, id, s, path);
      Charged(w.graph, pending, w.path)
    decreases g.Keys - Ids(path)
  {
    var choice := Choice(game, t, g, root, id);
    if !game.done(s) && id in g && game.hash(s) !in Ids(path) && choice.Some? {
      var e := (id, choice.value);
      var g1 := AddLoss(g, e);
      ChargeStep(game, g, e, pending, path);
      if g1[id].Child(e.1).Some? {
        AddLossCoherent(game, g, e);
        ChildHash(game, g1, s, id, e.1);
        IdsExtend(path, e);
        WalkCharges(game, t, g1, root, g1[id].Child(e.1).value, game.step(s, e.1), path + [e], pending);
      }
    }
  }

  lemma {:induction false} WalkExtends<S(!new)>(game: Game<S>, t: Tuning, g: Graph, root: NodeId, id: NodeId, s: S, path: Path)
    requires Ready(game, t, g, id, s)
    ensures path <= Walk(game, t, g, root, id, s, path).path
    decreases g.Keys - Ids(path)
  {
    var choice := Choice(game, t, g, root, id);
    if !game.done(s) && id in g && game.hash(s) !in Ids(path) && choice.Some? {
      var e := (id, choice.value);
      var g1 := AddLoss(g, e);
      if g1[id].Child(e.1).Some? {
        AddLossCoherent(game, g, e);
        ChildHash(game, g1, s, id, e.1);
        IdsExtend(path, e);
        WalkExtends(game, t, g1, root, g1[id].Child(e.1).value, game.step(s, e.1), path + [e]);
      }
    }
  }

  /** A walk from a stored, non-terminal state moves exactly when the node has a stored action. */
  lemma WalkStarts<S(!new)>(game: Game<S>, t: Tuning, g: Graph, id: NodeId, s: S)
    requires Ready(game, t, g, id, s) && id in g && !game.done(s)
    ensures var w := Walk(game, t, g, id, id, s, []);
      if g[id].valid == [] then w == Walked(g, [], s, false)
      else w.path != [] && w.path[0].0 == id
  {
    var choice := Choice(game, t, g, id, id);
    if choice.Some? {
      var e := (id, choice.value);
      var g1 := AddLoss(g, e);
      assert [] + [e] == [e];
      if g1[id].Child(e.1).Some? {
        AddLossCoherent(game, g, e);
        ChildHash(game, g1, s, id, e.1);
        WalkExtends(game, t, g1, id, g1[id].Child(e.1).value, game.step(s, e.1), [e]);
      }
    }
  }

  /** A simple path is no longer than the table is large. */
  lemma {:induction false} SimplePathFits(path: Path, keys: set<NodeId>)
    requires Simple(path) && Ids(path) <= keys
    ensures |path| <= |keys|
    decreases |path|
  {
    if path != [] {
      var e, rest := path[|path| - 1], path[..|path| - 1];
      assert path == rest + [e];
      IdsExtend(rest, e);
      assert e.0 !in Ids(rest);
      SimplePathFits(rest, keys - {e.0});
    }
  }

  /** A selection from the root: a route in the table's keys, charged with one virtual loss per entry. */
  lemma WalkSound<S(!new)>(game: Game<S>, t: Tuning, g: Graph, root: NodeId, env: S, pending: multiset<Edge>)
    requires Ready(game, t, g, root, env) && Balanced(g, pending) && Settled(g, {})
    ensures var w := Walk(game, t, g, root, root, env, []);
      && GoodWalk(game, g, env, [], w)
      && Balanced(w.graph, pending + multiset(w.path)) && Settled(w.graph, {})
      && |w.path| <= |g.Keys|
  {
    var none: Path := [];
    assert pending + multiset(none) == pending;
    WalkRoute(game, t, g, root, root, env, [], env);
    WalkCharges(game, t, g, root, root, env, [], pending);
    var w := Walk(game, t, g, root, root, env, []);
    assert Ids(w.path) <= g.Keys by {
      assert forall i :: 0 <= i < |w.path| ==> Stored(w.graph, w.path[i]);
    }
    SimplePathFits(w.path, g.Keys);
  }

  lemma WalkKeeps<S(!new)>(game: Game<S>, t: Tuning, g: Graph, root: NodeId, env: S, pending: multiset<Edge>)
    requires Ready(game, t, g, root, env) && Balanced(g, pending) && Settled(g, {})
    ensures var w := Walk(game, t, g, root, root, env, []);
      && Coherent(game, w.graph) && Balanced(w.graph, pending + multiset(w.path)) && Settled(w.graph, {})
      && |w.path| <= |g.Keys|
  {
    WalkSound(game, t, g, root, env, pending);
  }
}
