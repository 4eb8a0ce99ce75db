/** What a stretch of search adds to the visit counts, and the bounds it keeps (mcts-core/src/mcts.rs). */
module Accounting {
  import opened Wrappers
  import opened Sums
  import opened Environment
  import opened SearchNode
  import opened SearchGraph
  import opened Backpropagation
  import opened Puct
  import opened Selection
  import opened Expansion

  // ----- one settled path -----

  lemma {:induction false} SimpleCount(path: Path, e: Edge)
    requires Simple(path)
    ensures multiset(path)[e] == if e in path then 1 else 0
    decreases |path|
  {
    if path != [] {
      SplitLast(path);
      var last, rest := path[|path| - 1], path[..|path| - 1];
      SimpleCount(rest, e);
      assert e in path <==> e == last || e in rest;
      if e == last {
        assert forall i :: 0 <= i < |rest| ==> rest[i].0 == path[i].0 != last.0;
      }
    }
  }

  /** Settling a simple path adds one visit to each node on it and none elsewhere. */
  lemma NodeTotal(g: Graph, g': Graph, path: Path, id: NodeId)
    requires VisitsGrowBy(g, g', multiset(path)) && Simple(path) && Routed(g, path) && id in g
    requires g[id].Dense()
    ensures id in g'
    ensures Sum(g'[id].edgeVisits) == Sum(g[id].edgeVisits) + if id in Ids(path) then 1 else 0
  {
    var ev := g[id].edgeVisits;
    assert Counted(g, g', multiset(path), (id, 0));
    var ev' := g'[id].edgeVisits;
    if id in Ids(path) {
      var i :| 0 <= i < |path| && path[i].0 == id;
      var a := path[i].1;
      assert Stored(g, path[i]);
      forall k: nat | k < |ev| ensures ev'[k] == ev[a := ev[a] + 1][k] {
        assert Counted(g, g', multiset(path), (id, k));
        SimpleCount(path, (id, k));
        assert (id, a) == path[i];
        if (id, k) in path {
          var j :| 0 <= j < |path| && path[j] == (id, k);
          assert j == i;
        }
      }
      assert ev' == ev[a := ev[a] + 1];
      SumUpdate(ev, a, ev[a] + 1);
    } else {
      forall k: nat | k < |ev| ensures ev'[k] == ev[k] {
        assert Counted(g, g', multiset(path), (id, k));
        SimpleCount(path, (id, k));
      }
      assert ev' == ev;
    }
  }

  // ----- flow: visits into a node and out of it -----

  /** Visits on the first `upTo` edges of a node that point to `target`. */
  function VisitsTo(n: Node, target: NodeId, upTo: nat): nat
    requires upTo <= |n.children| && upTo <= |n.edgeVisits|
  {
    if upTo == 0 then 0
    else VisitsTo(n, target, upTo - 1) + if n.children[upTo - 1] == Some(target) then n.edgeVisits[upTo - 1] else 0
  }

  function NodeVisitsTo(n: Node, target: NodeId): nat {
    if |n.children| == |n.edgeVisits| then VisitsTo(n, target, |n.children|) else 0
  }

  /** Visits on all edges of the listed nodes that point to `target`. */
  function Inflow(g: Graph, ids: seq<NodeId>, target: NodeId): nat {
    if ids == [] then 0
    else (if ids[0] in g then NodeVisitsTo(g[ids[0]], target) else 0) + Inflow(g, ids[1..], target)
  }

  ghost predicate FlowAt(g: Graph, ids: seq<NodeId>, root: NodeId, id: NodeId) {
    id in g ==> id in ids && (id != root ==> Sum(g[id].edgeVisits) <= Inflow(g, ids, id))
  }

  /** No node but the root was left more often than it was entered. */
  ghost predicate FlowBounded(g: Graph, ids: seq<NodeId>, root: NodeId) {
    forall id :: FlowAt(g, ids, root, id)
  }

  ghost predicate NodeGrows(n: Node, n': Node) {
    && |n.children| == |n.edgeVisits| == |n'.children| == |n'.edgeVisits|
    && (forall a :: 0 <= a < |n.children| ==> n.edgeVisits[a] <= n'.edgeVisits[a])
    && (forall a :: 0 <= a < |n.children| && n.children[a].Some? ==> n'.children[a] == n.children[a])
  }

  lemma {:induction false} VisitsToGrows(n: Node, n': Node, target: NodeId, upTo: nat, a: Act)
    requires NodeGrows(n, n') && upTo <= |n.children|
    requires forall k :: 0 <= k < |n.children| && n.children[k].None? ==> n.edgeVisits[k] == 0
    ensures VisitsTo(n, target, upTo) <= VisitsTo(n', target, upTo)
    ensures a < upTo && n'.children[a] == Some(target) && n.edgeVisits[a] < n'.edgeVisits[a] ==>
      VisitsTo(n, target, upTo) < VisitsTo(n', target, upTo)
  {
    if upTo > 0 {
      VisitsToGrows(n, n', target, upTo - 1, a);
    }
  }

  lemma StepGrowsNode<S(!new)>(game: Game<S>, g: Graph, g': Graph, settled: multiset<Edge>, id: NodeId)
    requires Coherent(game, g) && Coherent(game, g') && Evolves(g, g') && VisitsGrowBy(g, g', settled) && id in g
    ensures id in g' && NodeGrows(g[id], g'[id])
    ensures forall k :: 0 <= k < |g[id].children| && g[id].children[k].None? ==> g[id].edgeVisits[k] == 0
  {
    assert EvolvesAt(g, g', id) && NodeCoherent(game, g, id) && NodeCoherent(game, g', id);
    forall a: nat | a < |g[id].children| ensures g[id].edgeVisits[a] <= g'[id].edgeVisits[a] {
      assert Counted(g, g', settled, (id, a));
    }
  }

  /** A step never lowers an inflow, and settling an edge into `target` raises it. */
  lemma {:induction false} InflowGrows<S(!new)>(game: Game<S>, g: Graph, g': Graph, settled: multiset<Edge>,
                                                ids: seq<NodeId>, target: NodeId, e: Edge)
    requires Coherent(game, g) && Coherent(game, g') && Evolves(g, g') && VisitsGrowBy(g, g', settled)
    ensures Inflow(g, ids, target) <= Inflow(g', ids, target)
    ensures e in settled && e.0 in g && e.0 in g' && e.0 in ids && g'[e.0].Child(e.1) == Some(target) ==>
      Inflow(g, ids, target) < Inflow(g', ids, target)
  {
    if ids != [] {
      var id := ids[0];
      InflowGrows(game, g, g', settled, ids[1..], target, e);
      if id in g {
        StepGrowsNode(game, g, g', settled, id);
        VisitsToGrows(g[id], g'[id], target, |g[id].children|, e.1);
        assert e.0 == id ==> Counted(g, g', settled, e);
      }
    }
  }

  lemma {:induction false} InflowListed(g: Graph, ids: seq<NodeId>, more: seq<NodeId>, target: NodeId)
    ensures Inflow(g, ids, target) <= Inflow(g, ids + more, target)
  {
    if ids != [] {
      InflowListed(g, ids[1..], more, target);
      assert (ids + more)[1..] == ids[1..] + more;
    }
  }

  lemma Unvisited<S(!new)>(game: Game<S>, g: Graph, g': Graph, settled: multiset<Edge>, id: NodeId)
    requires Coherent(game, g') && VisitsGrowBy(g, g', settled) && id in g' && id !in g
    requires forall e :: e in settled ==> e.0 in g
    ensures Sum(g'[id].edgeVisits) == 0
  {
    var ev := g'[id].edgeVisits;
    forall a: nat | a < |ev| ensures ev[a] == 0 {
      assert Counted(g, g', settled, (id, a));
    }
    SumZero(ev);
  }

  /** Steps that settle nothing keep the flow bound. */
  lemma FlowIdle<S(!new)>(game: Game<S>, g: Graph, g': Graph, ids: seq<NodeId>, more: seq<NodeId>, root: NodeId)
    requires Coherent(game, g) && Coherent(game, g') && Evolves(g, g') && VisitsGrowBy(g, g', multiset{})
    requires FlowBounded(g, ids, root) && forall id :: id in g' ==> id in ids + more
    ensures FlowBounded(g', ids + more, root)
  {
    var ids' := ids + more;
    forall id ensures FlowAt(g', ids', root, id) {
      assert FlowAt(g, ids, root, id);
      if id in g' && id != root {
        if id in g {
          NodeTotal(g, g', [], id) by { assert NodeCoherent(game, g, id); }
          InflowGrows(game, g, g', multiset{}, ids, id, (id, 0));
          InflowListed(g', ids, more, id);
        } else {
          Unvisited(game, g, g', multiset{}, id);
        }
      }
    }
  }

  /** Settling a route from the root keeps the flow bound: a node left by the route was entered by it. */
  lemma FlowSettle<S(!new)>(game: Game<S>, g: Graph, g': Graph, ids: seq<NodeId>, root: NodeId, path: Path)
    requires Coherent(game, g) && Coherent(game, g') && Evolves(g, g') && VisitsGrowBy(g, g', multiset(path))
    requires g'.Keys == g.Keys && FlowBounded(g, ids, root)
    requires path != [] && path[0].0 == root && Simple(path) && Routed(g, path) && Joined(g', path)
    ensures FlowBounded(g', ids, root)
  {
    forall id ensures FlowAt(g', ids, root, id) {
      assert FlowAt(g, ids, root, id);
      if id in g' && id != root {
        NodeTotal(g, g', path, id) by { assert NodeCoherent(game, g, id); }
        if id in Ids(path) {
          var i :| 0 <= i < |path| && path[i].0 == id;
          var e := path[i - 1];
          assert e in multiset(path) && Stored(g, e);
          assert FlowAt(g, ids, root, e.0);
          assert g'[path[i - 1].0].Child(path[i - 1].1) == Some(path[i - 1 + 1].0);
          InflowGrows(game, g, g', multiset(path), ids, id, e);
        } else {
          InflowGrows(game, g, g', multiset(path), ids, id, (id, 0));
        }
      }
    }
  }

  // ----- a stretch of search -----

  ghost predicate TerminalsAtMostOne<S(!new)>(evaluate: S -> real) {
    forall s :: evaluate(s) <= 1.0
  }

  ghost predicate TerminalsAtLeastMinusOne<S(!new)>(evaluate: S -> real) {
    forall s :: evaluate(s) >= -1.0
  }

  /** The visits recorded on a node's edges, none when it is not stored. */
  function TotalVisits(g: Graph, id: NodeId): nat {
    if id in g then Sum(g[id].edgeVisits) else 0
  }

  /** From `g0` to `g` the search settled exactly `settled`, which is `count` playouts of which `repeats` were
      penalised, and kept the flow and value bounds. */
  ghost predicate Progress<S(!new)>(evaluate: S -> real, root: NodeId, g0: Graph, ids0: seq<NodeId>, g: Graph, ids: seq<NodeId>,
                                    settled: multiset<Edge>, count: nat, repeats: nat) {
    && Evolves(g0, g) && VisitsGrowBy(g0, g, settled)
    && root in g && TotalVisits(g, root) == TotalVisits(g0, root) + count
    && (FlowBounded(g0, ids0, root) ==> FlowBounded(g, ids, root))
    && (UpperBounded(g0, None) && TerminalsAtMostOne(evaluate) ==> UpperBounded(g, None))
    && (LowerBounded(g0) && TerminalsAtLeastMinusOne(evaluate) && repeats == 0 ==> LowerBounded(g))
  }

  lemma ProgressChain<S(!new)>(evaluate: S -> real, root: NodeId, g0: Graph, ids0: seq<NodeId>, g1: Graph, ids1: seq<NodeId>,
                               g2: Graph, ids2: seq<NodeId>, s1: multiset<Edge>, c1: nat, r1: nat,
                               s2: multiset<Edge>, c2: nat, r2: nat)
    requires Progress(evaluate, root, g0, ids0, g1, ids1, s1, c1, r1)
    requires Progress(evaluate, root, g1, ids1, g2, ids2, s2, c2, r2)
    ensures Progress(evaluate, root, g0, ids0, g2, ids2, s1 + s2, c1 + c2, r1 + r2)
  {
    EvolvesChain(g0, g1, g2);
    VisitsGrowChain(g0, g1, g2, s1, s2);
  }

  lemma SameVisits<S(!new)>(game: Game<S>, g: Graph, g': Graph, id: NodeId)
    requires Coherent(game, g) && VisitsGrowBy(g, g', multiset{}) && id in g
    ensures id in g' && Sum(g'[id].edgeVisits) == Sum(g[id].edgeVisits)
  {
    var none: Path := [];
    assert multiset(none) == multiset{};
    assert NodeCoherent(game, g, id);
    NodeTotal(g, g', none, id);
  }

  lemma ProgressNone<S(!new)>(evaluate: S -> real, root: NodeId, g: Graph, ids: seq<NodeId>)
    requires root in g
    ensures Progress(evaluate, root, g, ids, g, ids, multiset{}, 0, 0)
  {
    forall id ensures EvolvesAt(g, g, id) {
    }
    forall e ensures Counted(g, g, multiset{}, e) {
    }
  }

  lemma ProgressSelect<S(!new)>(game: Game<S>, evaluate: S -> real, root: NodeId, g: Graph, g': Graph, ids: seq<NodeId>)
    requires Coherent(game, g) && Coherent(game, g') && OnlyLosses(g, g') && root in g
    ensures Progress(evaluate, root, g, ids, g', ids, multiset{}, 0, 0)
  {
    OnlyLossesEvolves(g, g');
    SameVisits(game, g, g', root);
    if FlowBounded(g, ids, root) {
      FlowIdleSame(game, g, g', ids, root);
    }
    if UpperBounded(g, None) {
      OnlyLossesUpper(g, g');
    }
    if LowerBounded(g) {
      forall id | id in g' ensures id in g && SameValues(g[id], g'[id]) {
        assert KeepsButLosses(g, g', id);
      }
      SameValuesLower(g, g');
    }
  }

  lemma FlowIdleSame<S(!new)>(game: Game<S>, g: Graph, g': Graph, ids: seq<NodeId>, root: NodeId)
    requires Coherent(game, g) && Coherent(game, g') && Evolves(g, g') && VisitsGrowBy(g, g', multiset{})
    requires g'.Keys == g.Keys && FlowBounded(g, ids, root)
    ensures FlowBounded(g', ids, root)
  {
    assert ids + [] == ids;
    forall id | id in g' ensures id in ids + [] {
      assert FlowAt(g, ids, root, id);
    }
    FlowIdle(game, g, g', ids, [], root);
  }

  lemma ProgressExpand<S(!new)>(game: Game<S>, evaluate: S -> real, root: NodeId, g: Graph, g': Graph, ids: seq<NodeId>,
                                more: seq<NodeId>, e: Edge, s: S, priors: Priors, value: real)
    requires Coherent(game, g) && Coherent(game, g') && root in g
    requires Evolves(g, g') && VisitsGrowBy(g, g', multiset{})
    requires ExpandsTo(game, g, g', e, s, priors, value) && (game.done(s) ==> value == evaluate(s))
    requires game.hash(s) in g || game.hash(s) in more
    ensures Progress(evaluate, root, g, ids, g', ids + more, multiset{}, 0, 0)
  {
    SameVisits(game, g, g', root);
    if FlowBounded(g, ids, root) {
      forall id | id in g' ensures id in ids + more {
        assert FlowAt(g, ids, root, id);
      }
      FlowIdle(game, g, g', ids, more, root);
    }
    if UpperBounded(g, None) && TerminalsAtMostOne(evaluate) {
      ExpandUpper(game, g, g', e, s, priors, value);
    }
    if LowerBounded(g) && TerminalsAtLeastMinusOne(evaluate) {
      ExpandLower(game, g, g', e, s, priors, value);
    }
  }

  /** Storing the root's node, when it is missing, settles nothing. */
  lemma ProgressCreate<S(!new)>(game: Game<S>, evaluate: S -> real, g: Graph, ids: seq<NodeId>, s: S, priors: Priors,
                                value: real, n: Node, pending: multiset<Edge>)
    requires Lawful(game) && Coherent(game, g) && Balanced(g, pending) && Settled(g, {}) && game.hash(s) !in g
    requires Created(game, s, Normalized(priors, game.valid(s)), value, n) && (game.done(s) ==> value == evaluate(s))
    ensures var g', root := WithNode(g, game.hash(s), n), game.hash(s);
      && Coherent(game, g') && Balanced(g', pending) && Settled(g', {})
      && Progress(evaluate, root, g, ids, g', ids + [root], multiset{}, 0, 0)
  {
    var root := game.hash(s);
    var g' := WithNode(g, root, n);
    WithNodeKeeps(game, g, s, priors, value, n, pending);
    CreatedCoherent(game, s, priors, value, n);
    if FlowBounded(g, ids, root) {
      forall id | id in g' ensures id in ids + [root] {
        assert FlowAt(g, ids, root, id);
      }
      FlowIdle(game, g, g', ids, [root], root);
    }
    if UpperBounded(g, None) && TerminalsAtMostOne(evaluate) {
      WithNodeUpper(game, g, s, Normalized(priors, game.valid(s)), value, n);
    }
    if LowerBounded(g) && TerminalsAtLeastMinusOne(evaluate) {
      WithNodeLower(game, g, s, Normalized(priors, game.valid(s)), value, n);
    }
  }

  lemma ProgressSettle<S(!new)>(game: Game<S>, evaluate: S -> real, root: NodeId, g: Graph, ids: seq<NodeId>, s0: S,
                                path: Path, repeat: bool, pending: multiset<Edge>)
    requires Coherent(game, g) && Balanced(g, pending) && Settled(g, {}) && multiset(path) <= pending
    requires Route(game, g, s0, path) && AllExpanded(g, path) && path != [] && path[0].0 == root
    ensures Progress(evaluate, root, g, ids, Backprop(g, path, repeat), ids, multiset(path), 1, if repeat then 1 else 0)
  {
    var g' := Backprop(g, path, repeat);
    BackpropKeeps(game, g, path, repeat, pending);
    assert Stored(g, path[0]) && NodeCoherent(game, g, root);
    NodeTotal(g, g', path, root);
    RoutedEvolves(g, g', path);
    if FlowBounded(g, ids, root) {
      FlowSettle(game, g, g', ids, root, path);
    }
    if UpperBounded(g, None) {
      BackpropUpper(game, g, path, repeat, pending);
    }
    if LowerBounded(g) && !repeat {
      assert forall i :: 0 <= i < |path| ==> Stored(g, path[i]);
      BackpropLower(g, path);
    }
  }

  // ----- playouts waiting for inference -----

  /** What the client answers to a list of states, its calls being numbered. */
  type Client<!S> = (nat, seq<S>) -> (seq<Priors>, seq<real>)

  /** The client returns a prior map and a value for every observation of the call. */
  ghost predicate AnswersCall<S(!new)>(client: Client<S>, call: nat, observations: seq<S>) {
    |client(call, observations).0| >= |observations| && |client(call, observations).1| >= |observations|
  }

  ghost predicate AnswersAll<S(!new)>(client: Client<S>) {
    forall call, observations :: AnswersCall(client, call, observations)
  }

  /** A selected playout whose leaf awaits the client's answer. */
  datatype Waiting<S> = Waiting(path: Path, parent: NodeId, action: Act, env: S)

  ghost predicate WaitsAt<S(!new)>(game: Game<S>, g: Graph, root: NodeId, start: S, p: Waiting<S>) {
    && p.path != [] && p.path[0].0 == root && p.path[|p.path| - 1] == (p.parent, p.action)
    && Route(game, g, start, p.path) && p.env == StepAlong(game, start, p.path) && !game.done(p.env)
  }

  /** The playouts from index `from` on still wait. */
  ghost predicate AllWait<S(!new)>(game: Game<S>, g: Graph, root: NodeId, start: S, batch: seq<Waiting<S>>, from: nat) {
    forall i :: from <= i < |batch| ==> WaitsAt(game, g, root, start, batch[i])
  }

  /** The edges of the playouts from index `from` on. */
  ghost function EdgesOf<S>(batch: seq<Waiting<S>>, from: nat): multiset<Edge>
    decreases |batch| - from
  {
    if from >= |batch| then multiset{} else multiset(batch[from].path) + EdgesOf(batch, from + 1)
  }

  lemma SwapSum(p: multiset<Edge>, q: multiset<Edge>, r: multiset<Edge>)
    ensures p + (q + r) == p + r + q
  {
  }

  lemma Reassociate(p: multiset<Edge>, q: multiset<Edge>, r: multiset<Edge>)
    ensures p + q + r == p + (q + r)
  {
  }

  lemma {:induction false} EdgesOfAppend<S>(batch: seq<Waiting<S>>, p: Waiting<S>, from: nat)
    requires from <= |batch|
    ensures EdgesOf(batch + [p], from) == EdgesOf(batch, from) + multiset(p.path)
    decreases |batch| - from
  {
    var longer := batch + [p];
    if from == |batch| {
      assert longer[from] == p && EdgesOf(longer, from + 1) == multiset{};
      AddThenRemove(multiset(p.path), multiset{});
    } else {
      assert longer[from] == batch[from];
      EdgesOfAppend(batch, p, from + 1);
      Reassociate(multiset(batch[from].path), EdgesOf(batch, from + 1), multiset(p.path));
    }
  }

  lemma AllWaitEvolves<S(!new)>(game: Game<S>, g: Graph, g': Graph, root: NodeId, start: S, batch: seq<Waiting<S>>, from: nat)
    requires AllWait(game, g, root, start, batch, from) && Evolves(g, g')
    ensures AllWait(game, g', root, start, batch, from)
  {
    forall i | from <= i < |batch| ensures WaitsAt(game, g', root, start, batch[i]) {
      assert WaitsAt(game, g, root, start, batch[i]);
      RouteEvolves(game, g, g', start, batch[i].path);
    }
  }

  lemma AllWaitAppend<S(!new)>(game: Game<S>, g: Graph, root: NodeId, start: S, batch: seq<Waiting<S>>, p: Waiting<S>)
    requires AllWait(game, g, root, start, batch, 0) && WaitsAt(game, g, root, start, p)
    ensures AllWait(game, g, root, start, batch + [p], 0)
  {
    forall i | 0 <= i < |batch + [p]| ensures WaitsAt(game, g, root, start, (batch + [p])[i]) {
      assert i < |batch| ==> WaitsAt(game, g, root, start, batch[i]);
    }
  }

  function Listed<S>(p: Option<Waiting<S>>): seq<Waiting<S>> {
    if p.Some? then [p.value] else []
  }

  function EdgesListed<S>(p: Option<Waiting<S>>): multiset<Edge> {
    if p.Some? then multiset(p.value.path) else multiset{}
  }

  /** One more selection, which may or may not leave a playout waiting. */
  lemma AllWaitSelect<S(!new)>(game: Game<S>, g: Graph, g': Graph, root: NodeId, start: S, batch: seq<Waiting<S>>,
                               p: Option<Waiting<S>>, base: multiset<Edge>)
    requires AllWait(game, g, root, start, batch, 0) && Evolves(g, g')
    requires p.Some? ==> WaitsAt(game, g', root, start, p.value)
    ensures AllWait(game, g', root, start, batch + Listed(p), 0)
    ensures base + EdgesOf(batch, 0) + EdgesListed(p) == base + EdgesOf(batch + Listed(p), 0)
  {
    AllWaitEvolves(game, g, g', root, start, batch, 0);
    if p.Some? {
      AllWaitAppend(game, g', root, start, batch, p.value);
      EdgesOfAppend(batch, p.value, 0);
      Reassociate(base, EdgesOf(batch, 0), multiset(p.value.path));
    } else {
      assert batch + [] == batch;
      AddThenRemove(base + EdgesOf(batch, 0), multiset{});
    }
  }

  /** Waiting playouts always leave pending edges behind. */
  lemma EdgesOfWaiting<S(!new)>(game: Game<S>, g: Graph, root: NodeId, start: S, batch: seq<Waiting<S>>, from: nat)
    requires AllWait(game, g, root, start, batch, from) && from <= |batch|
    ensures EdgesOf(batch, from) == multiset{} <==> from == |batch|
  {
    if from < |batch| {
      assert WaitsAt(game, g, root, start, batch[from]);
      assert batch[from].path[0] in EdgesOf(batch, from);
    }
  }

  lemma LeadsToExpanded(g: Graph, path: Path, id: NodeId)
    requires path != [] && Stored(g, path[|path| - 1]) && LeadsTo(g, path, id)
    ensures Expanded(g, path[|path| - 1])
  {
  }

  /** A repeat ends a route whose every edge is expanded. */
  lemma RepeatExpanded<S(!new)>(game: Game<S>, start: S, w: Walked<S>)
    requires Route(game, w.graph, start, w.path) && Arrived(game, w) && w.repeat
    ensures w.path != [] && AllExpanded(w.graph, w.path)
  {
    var last := w.path[|w.path| - 1];
    assert Stored(w.graph, last);
    LeadsToExpanded(w.graph, w.path, game.hash(w.final));
    RouteExpanded(game, w.graph, start, w.path);
  }

  /** What `run` relies on when `select_leaf` returns. */
  ghost predicate Selected<S(!new)>(game: Game<S>, root: NodeId, start: S, w: Walked<S>) {
    && Route(game, w.graph, start, w.path) && w.final == StepAlong(game, start, w.path)
    && (w.path != [] ==> w.path[0].0 == root)
    && (w.repeat ==> w.path != [] && AllExpanded(w.graph, w.path))
  }

  lemma SelectedFromRoot<S(!new)>(game: Game<S>, t: Tuning, evaluate: S -> real, g: Graph, ids: seq<NodeId>, root: NodeId,
                                  start: S, pending: multiset<Edge>)
    requires Ready(game, t, g, root, start) && Balanced(g, pending) && Settled(g, {}) && root in g && !game.done(start)
    ensures var w := Walk(game, t, g, root, root, start, []);
      && Selected(game, root, start, w) && (w.path == [] <==> g[root].valid == [])
      && Progress(evaluate, root, g, ids, w.graph, ids, multiset{}, 0, 0)
  {
    var w := Walk(game, t, g, root, root, start, []);
    WalkSound(game, t, g, root, start, pending);
    WalkStarts(game, t, g, root, start);
    ProgressSelect(game, evaluate, root, g, w.graph, ids);
    if w.repeat {
      RepeatExpanded(game, start, w);
    }
  }

  lemma AddThenRemove(p: multiset<Edge>, q: multiset<Edge>)
    ensures p + q - q == p && p + multiset{} == p && multiset{} + p == p && q <= p + q
  {
  }

  /** All virtual losses are zero exactly when no selected path is unsettled. */
  lemma ClearIffSettled(g: Graph, pending: multiset<Edge>)
    requires Balanced(g, pending)
    ensures pending == multiset{} <==> forall id :: id in g ==> Sum(g[id].losses) == 0
  {
    if pending == multiset{} {
      forall id | id in g ensures Sum(g[id].losses) == 0 {
        ClearIffNotPending(g, pending, id);
      }
    } else {
      var e :| e in pending;
      assert EdgeBalanced(g, pending, e);
      ClearIffNotPending(g, pending, e.0);
    }
  }

  /** With nothing pending, every node's count is settled: zero, or one more than its edge visits. */
  lemma AllSettled(g: Graph, pending: multiset<Edge>)
    requires Balanced(g, pending) && Settled(g, {}) && pending == multiset{}
    ensures forall id :: id in g ==> SettledNode(g[id])
  {
    ClearIffSettled(g, pending);
    forall id | id in g ensures SettledNode(g[id]) {
      assert SettledAt(g, {}, id);
    }
  }
}
