/** The search graph behind the arena and its transposition table: node ids to nodes, the
    in-place updates `MCTS` makes to it, and the invariants those updates keep (mcts-core/src/mcts.rs). */
module SearchGraph {
  import opened Wrappers
  import opened Sums
  import opened Environment
  import opened SearchNode

  type Graph = map<NodeId, Node>
  type Edge = (NodeId, Act)
  type Path = seq<Edge>

  // ----- the updates, as functions of the graph -----

  function AddLoss(g: Graph, e: Edge): Graph {
    if e.0 in g then g[e.0 := g[e.0].AddVirtualLoss(e.1)] else g
  }

  function RevertLoss(g: Graph, e: Edge): Graph {
    if e.0 in g then g[e.0 := g[e.0].RevertVirtualLoss(e.1)] else g
  }

  function AddEdgeVisit(g: Graph, e: Edge): Graph {
    if e.0 in g then g[e.0 := g[e.0].AddVisit(e.1)] else g
  }

  function Penalize(g: Graph, e: Edge): Graph {
    if e.0 in g && g[e.0].valid != [] then g[e.0 := g[e.0].ApplyPenalty(e.1)] else g
  }

  function Link(g: Graph, e: Edge, child: NodeId): Graph {
    if e.0 in g then g[e.0 := g[e.0].LinkChild(e.1, child)] else g
  }

  /** Visits of the listed actions that have an expanded child. */
  function VisitsVia(n: Node, actions: seq<Act>): nat {
    if actions == [] then 0
    else (if n.Child(actions[0]).Some? && actions[0] < |n.edgeVisits| then n.edgeVisits[actions[0]] else 0)
         + VisitsVia(n, actions[1..])
  }

  /** One action's share of the backed-up total: its visits times its child's penalised value. */
  function Contribution(g: Graph, n: Node, a: Act): real {
    if n.Child(a).Some? && n.Child(a).value in g && a < |n.edgeVisits| && n.edgeVisits[a] > 0
    then n.edgeVisits[a] as real * (g[n.Child(a).value].value + (if a < |n.penalties| then n.penalties[a] else 0.0))
    else 0.0
  }

  function WeightedValue(g: Graph, n: Node, actions: seq<Act>): real {
    if actions == [] then 0.0
    else Contribution(g, n, actions[0]) + WeightedValue(g, n, actions[1..])
  }

  lemma WeightedFrom(g: Graph, n: Node, actions: seq<Act>, i: nat)
    requires i < |actions|
    ensures WeightedValue(g, n, actions[i..]) == Contribution(g, n, actions[i]) + WeightedValue(g, n, actions[i + 1..])
  {
    assert actions[i..][1..] == actions[i + 1..];
  }

  function Average(total: real, count: nat): real
    requires count > 0
  {
    total / count as real
  }

  function Recomputed(g: Graph, n: Node): Node {
    var total := VisitsVia(n, n.valid) + Sum(n.losses);
    if total == 0 then n.(visits := 1, value := n.estimate)
    else n.(visits := 1 + total, value := Average(n.estimate + WeightedValue(g, n, n.valid), 1 + total))
  }

  function Recompute(g: Graph, id: NodeId): Graph {
    if id in g then g[id := Recomputed(g, g[id])] else g
  }

  function VisitEdge(g: Graph, e: Edge): Graph {
    Recompute(AddEdgeVisit(g, e), e.0)
  }

  // The walks over a path run from its last edge back to its first.

  function RevertPath(g: Graph, path: Path): Graph {
    if path == [] then g else RevertPath(RevertLoss(g, path[|path| - 1]), path[..|path| - 1])
  }

  function VisitPath(g: Graph, path: Path): Graph {
    if path == [] then g else VisitPath(VisitEdge(g, path[|path| - 1]), path[..|path| - 1])
  }

  function Unsettled(g: Graph, path: Path, repeat: bool): Graph {
    if path != [] && repeat then Penalize(RevertPath(g, path), path[|path| - 1]) else RevertPath(g, path)
  }

  function Backprop(g: Graph, path: Path, repeat: bool): Graph {
    VisitPath(Unsettled(g, path, repeat), path)
  }

  // ----- invariants -----

  /** What a stored node says about a state with its id. */
  ghost predicate Matches<S(!new)>(game: Game<S>, n: Node, s: S) {
    game.hash(s) == n.id ==>
      && n.terminal == game.done(s)
      && (game.done(s) ==> n.valid == [])
      && (!game.done(s) ==>
           && n.numActions == game.numActions(s)
           && (n.valid == [] <==> game.valid(s) == [])
           && (forall a :: a in n.valid ==> a in game.valid(s)))
      && (forall a :: 0 <= a < |n.children| && n.children[a].Some? ==>
           n.children[a].value == game.hash(game.step(s, a)))
  }

  ghost predicate Faithful<S(!new)>(game: Game<S>, n: Node) {
    forall s :: Matches(game, n, s)
  }

  ghost predicate Realised<S(!new)>(game: Game<S>, id: NodeId) {
    exists s :: game.hash(s) == id
  }

  ghost predicate ChildrenIn(g: Graph, n: Node) {
    forall a :: 0 <= a < |n.children| && n.children[a].Some? ==> n.children[a].value in g
  }

  ghost predicate NodeCoherent<S(!new)>(game: Game<S>, g: Graph, id: NodeId) {
    id in g ==>
      && g[id].id == id
      && g[id].Dense()
      && Realised(game, id)
      && Faithful(game, g[id])
      && ChildrenIn(g, g[id])
  }

  /** Every node is well formed, stands for a state of the game, and its children are in the table
      under the hash of the stepped state. */
  ghost predicate Coherent<S(!new)>(game: Game<S>, g: Graph) {
    forall id :: NodeCoherent(game, g, id)
  }

  ghost predicate Stored(g: Graph, e: Edge) {
    e.0 in g && e.1 in g[e.0].valid && e.1 < |g[e.0].losses|
  }

  ghost predicate EdgeBalanced(g: Graph, pending: multiset<Edge>, e: Edge) {
    && (e in pending ==> Stored(g, e))
    && (e.0 in g && e.1 < |g[e.0].losses| ==> g[e.0].losses[e.1] == pending[e])
  }

  /** Each virtual-loss counter is the number of occurrences of its edge on pending paths. */
  ghost predicate Balanced(g: Graph, pending: multiset<Edge>) {
    forall e :: EdgeBalanced(g, pending, e)
  }

  predicate SettledNode(n: Node) {
    n.visits == if Sum(n.edgeVisits) == 0 then 0 else 1 + Sum(n.edgeVisits)
  }

  ghost predicate SettledAt(g: Graph, except: set<NodeId>, id: NodeId) {
    id in g && id !in except && Sum(g[id].losses) == 0 ==> SettledNode(g[id])
  }

  /** Apart from `except`, nodes off every pending path have settled visit counts. */
  ghost predicate Settled(g: Graph, except: set<NodeId>) {
    forall id :: SettledAt(g, except, id)
  }

  ghost predicate Simple(path: Path) {
    forall i, j :: 0 <= i < j < |path| ==> path[i].0 != path[j].0
  }

  ghost predicate Routed(g: Graph, path: Path) {
    forall i :: 0 <= i < |path| ==> Stored(g, path[i])
  }

  ghost predicate Expanded(g: Graph, e: Edge) {
    Stored(g, e) && g[e.0].Child(e.1).Some?
  }

  ghost predicate AllExpanded(g: Graph, path: Path) {
    forall i :: 0 <= i < |path| ==> Expanded(g, path[i])
  }

  ghost predicate Joined(g: Graph, path: Path) {
    forall i :: 0 <= i < |path| - 1 ==> path[i].0 in g && g[path[i].0].Child(path[i].1) == Some(path[i + 1].0)
  }

  function Ids(path: Path): (ids: set<NodeId>)
    ensures forall i :: 0 <= i < |path| ==> path[i].0 in ids
  {
    set i | 0 <= i < |path| :: path[i].0
  }

  ghost predicate EvolvesAt(g: Graph, g': Graph, id: NodeId) {
    id in g ==> id in g' && SameShape(g[id], g'[id])
  }

  /** Nothing is removed and no child pointer changes; counters and values may. */
  ghost predicate Evolves(g: Graph, g': Graph) {
    forall id :: EvolvesAt(g, g', id)
  }

  ghost predicate SameShape(n: Node, n': Node) {
    && n'.id == n.id && n'.numActions == n.numActions && n'.valid == n.valid && n'.priors == n.priors
    && n'.estimate == n.estimate && n'.terminal == n.terminal
    && |n'.losses| == |n.losses| && |n'.children| == |n.children|
    && (forall a :: 0 <= a < |n.children| && n.children[a].Some? ==> n'.children[a] == n.children[a])
  }

  /** Same nodes and links; only counters, penalties and values differ. */
  ghost predicate SameLinks(n: Node, n': Node) {
    SameShape(n, n') && n'.children == n.children
  }

  // ----- coherence -----

  lemma CoherentUpdate<S(!new)>(game: Game<S>, g: Graph, id: NodeId, n: Node)
    requires Coherent(game, g) && id in g
    requires SameLinks(g[id], n) && n.Dense()
    ensures Coherent(game, g[id := n])
  {
    var g' := g[id := n];
    assert NodeCoherent(game, g, id);
    assert Faithful(game, n) by {
      forall s ensures Matches(game, n, s) {
        assert Matches(game, g[id], s);
      }
    }
    forall k ensures NodeCoherent(game, g', k) {
      assert NodeCoherent(game, g, k);
    }
  }

  // ----- virtual losses -----

  lemma AddLossKeeps<S(!new)>(game: Game<S>, g: Graph, e: Edge, pending: multiset<Edge>)
    requires Coherent(game, g) && Balanced(g, pending) && Stored(g, e)
    ensures Coherent(game, AddLoss(g, e))
    ensures Balanced(AddLoss(g, e), pending + multiset{e})
  {
    assert NodeCoherent(game, g, e.0);
    CoherentUpdate(game, g, e.0, g[e.0].AddVirtualLoss(e.1));
    forall k ensures EdgeBalanced(AddLoss(g, e), pending + multiset{e}, k) {
      assert EdgeBalanced(g, pending, k) && EdgeBalanced(g, pending, e);
    }
  }

  /** The saturating subtraction never saturates on a pending edge. */
  lemma RevertLossKeeps<S(!new)>(game: Game<S>, g: Graph, e: Edge, pending: multiset<Edge>)
    requires Coherent(game, g) && Balanced(g, pending) && e in pending
    ensures Stored(g, e) && g[e.0].losses[e.1] > 0
    ensures g[e.0].RevertVirtualLoss(e.1).losses == g[e.0].losses[e.1 := g[e.0].losses[e.1] - 1]
    ensures Coherent(game, RevertLoss(g, e))
    ensures Balanced(RevertLoss(g, e), pending - multiset{e})
  {
    assert EdgeBalanced(g, pending, e) && Stored(g, e);
    assert NodeCoherent(game, g, e.0);
    CoherentUpdate(game, g, e.0, g[e.0].RevertVirtualLoss(e.1));
    forall k ensures EdgeBalanced(RevertLoss(g, e), pending - multiset{e}, k) {
      assert EdgeBalanced(g, pending, k) && EdgeBalanced(g, pending, e);
    }
  }

  lemma SplitLast(path: Path)
    requires path != []
    ensures path == path[..|path| - 1] + [path[|path| - 1]]
    ensures multiset(path) == multiset(path[..|path| - 1]) + multiset{path[|path| - 1]}
  {
    assert path == path[..|path| - 1] + [path[|path| - 1]];
  }

  lemma {:induction false} RevertPathKeeps<S(!new)>(game: Game<S>, g: Graph, path: Path, pending: multiset<Edge>)
    requires Coherent(game, g) && Balanced(g, pending) && multiset(path) <= pending
    ensures Coherent(game, RevertPath(g, path))
    ensures Balanced(RevertPath(g, path), pending - multiset(path))
    decreases |path|
  {
    if path != [] {
      SplitLast(path);
      var e, rest := path[|path| - 1], path[..|path| - 1];
      RevertLossKeeps(game, g, e, pending);
      RevertPathKeeps(game, RevertLoss(g, e), rest, pending - multiset{e});
      assert pending - multiset(path) == pending - multiset{e} - multiset(rest);
    } else {
      assert pending - multiset(path) == pending;
    }
  }

  /** `n'` is `n` up to its virtual-loss counters. */
  ghost predicate SameButLosses(n: Node, n': Node) {
    |n'.losses| == |n.losses| && n' == n.(losses := n'.losses)
  }

  ghost predicate KeepsButLosses(g: Graph, g': Graph, id: NodeId) {
    id in g ==> id in g' && SameButLosses(g[id], g'[id])
  }

  ghost predicate OnlyLosses(g: Graph, g': Graph) {
    g'.Keys == g.Keys && forall id :: KeepsButLosses(g, g', id)
  }

  lemma OnlyLossesChain(g: Graph, g1: Graph, g2: Graph)
    requires OnlyLosses(g, g1) && OnlyLosses(g1, g2)
    ensures OnlyLosses(g, g2)
  {
    forall id ensures KeepsButLosses(g, g2, id) {
      assert KeepsButLosses(g, g1, id) && KeepsButLosses(g1, g2, id);
    }
  }

  lemma {:induction false} RevertPathOnlyLosses(g: Graph, path: Path)
    ensures OnlyLosses(g, RevertPath(g, path))
    decreases |path|
  {
    if path != [] {
      var e, rest := path[|path| - 1], path[..|path| - 1];
      RevertPathOnlyLosses(RevertLoss(g, e), rest);
      OnlyLossesChain(g, RevertLoss(g, e), RevertPath(g, path));
    }
  }

  lemma ClearIffNotPending(g: Graph, pending: multiset<Edge>, id: NodeId)
    requires Balanced(g, pending) && id in g
    ensures Sum(g[id].losses) == 0 <==> forall e :: e in pending ==> e.0 != id
  {
    SumZero(g[id].losses);
    if Sum(g[id].losses) == 0 {
      forall e | e in pending ensures e.0 != id {
        assert EdgeBalanced(g, pending, e);
      }
    } else {
      var a :| 0 <= a < |g[id].losses| && g[id].losses[a] != 0;
      assert EdgeBalanced(g, pending, (id, a)) && (id, a) in pending;
    }
  }

  // ----- visits -----

  lemma {:induction false} VisitsViaIsSumAt(n: Node, actions: seq<Act>)
    requires n.Dense() && Below(actions, n.numActions)
    ensures VisitsVia(n, actions) == SumAt(n.edgeVisits, actions)
    decreases |actions|
  {
    if actions != [] {
      VisitsViaIsSumAt(n, actions[1..]);
    }
  }

  lemma VisitsViaAll(n: Node)
    requires n.Dense()
    ensures VisitsVia(n, n.valid) == Sum(n.edgeVisits)
  {
    VisitsViaIsSumAt(n, n.valid);
    SumAtAll(n.edgeVisits, n.valid);
  }

  /** Contributions of the actions below `upTo`, stored or not. */
  function DenseValue(g: Graph, n: Node, upTo: nat): real {
    if upTo == 0 then 0.0 else DenseValue(g, n, upTo - 1) + Contribution(g, n, upTo - 1)
  }

  lemma {:induction false} WeightedSkips(g: Graph, n: Node, actions: seq<Act>, k: nat)
    requires k < |actions|
    ensures WeightedValue(g, n, actions) ==
            Contribution(g, n, actions[k]) + WeightedValue(g, n, actions[..k] + actions[k + 1..])
  {
    if k > 0 {
      WeightedSkips(g, n, actions[1..], k - 1);
      var rest := actions[..k] + actions[k + 1..];
      assert rest[1..] == actions[1..][..k - 1] + actions[1..][k..];
      assert actions[1..][k..] == actions[k + 1..];
    } else {
      assert actions[..0] + actions[1..] == actions[1..];
    }
  }

  lemma WithoutLargest(actions: seq<Act>, k: nat, upTo: nat)
    requires Distinct(actions) && Below(actions, upTo) && k < |actions| && actions[k] == upTo - 1
    ensures var rest := actions[..k] + actions[k + 1..];
            Distinct(rest) && Below(rest, upTo - 1) && forall a: Act :: a in actions && a != upTo - 1 ==> a in rest
  {
    var rest := actions[..k] + actions[k + 1..];
    forall a: Act | a in actions && a != upTo - 1 ensures a in rest {
      var i: nat :| i < |actions| && actions[i] == a;
      assert if i < k then rest[i] == a else rest[i - 1] == a;
    }
    forall i | 0 <= i < |rest| ensures rest[i] < upTo - 1 {
      var j := if i < k then i else i + 1;
      assert rest[i] == actions[j] && actions[j] != actions[k];
    }
  }

  ghost predicate Idle(g: Graph, n: Node, a: Act) {
    Contribution(g, n, a) == 0.0
  }

  lemma {:induction false} IdleDense(g: Graph, n: Node, upTo: nat)
    requires forall a: Act :: a < upTo ==> Idle(g, n, a)
    ensures DenseValue(g, n, upTo) == 0.0
  {
    if upTo > 0 {
      IdleDense(g, n, upTo - 1);
      assert Idle(g, n, upTo - 1);
    }
  }

  /** The backed-up total ranges over every action once, whatever order the actions are stored in. */
  lemma {:induction false} WeightedIsDense(g: Graph, n: Node, actions: seq<Act>, upTo: nat)
    requires Distinct(actions) && Below(actions, upTo)
    requires forall a: Act :: a < upTo && a !in actions ==> Idle(g, n, a)
    ensures WeightedValue(g, n, actions) == DenseValue(g, n, upTo)
    decreases upTo
  {
    if actions == [] {
      IdleDense(g, n, upTo);
    } else {
      assert actions[0] < upTo;
      if upTo - 1 in actions {
        var k: nat :| k < |actions| && actions[k] == upTo - 1;
        WeightedSkips(g, n, actions, k);
        WithoutLargest(actions, k, upTo);
        WeightedIsDense(g, n, actions[..k] + actions[k + 1..], upTo - 1);
      } else {
        forall i | 0 <= i < |actions| ensures actions[i] < upTo - 1 { assert actions[i] in actions; }
        assert Idle(g, n, upTo - 1);
        WeightedIsDense(g, n, actions, upTo - 1);
      }
    }
  }

  lemma AverageOfOne(total: real)
    ensures Average(total, 1) == total
  {
  }

  lemma UnvisitedIdle(g: Graph, n: Node, a: Act)
    requires a < |n.edgeVisits| ==> n.edgeVisits[a] == 0
    ensures Idle(g, n, a)
  {
  }

  lemma ValidIsDense(g: Graph, n: Node)
    requires n.Dense()
    ensures WeightedValue(g, n, n.valid) == DenseValue(g, n, n.numActions)
    ensures Sum(n.edgeVisits) == 0 ==> DenseValue(g, n, n.numActions) == 0.0
  {
    forall a: Act | a < n.numActions && a !in n.valid ensures Idle(g, n, a) {
      UnvisitedIdle(g, n, a);
    }
    WeightedIsDense(g, n, n.valid, n.numActions);
    if Sum(n.edgeVisits) == 0 {
      SumZero(n.edgeVisits);
      forall a: Act | a < n.numActions ensures Idle(g, n, a) {
        UnvisitedIdle(g, n, a);
      }
      IdleDense(g, n, n.numActions);
    }
  }

  /** What `recompute_value` stores: the node's own estimate and every visited edge's penalised child value,
      averaged over one more than all settled and pending visits. */
  lemma RecomputedIsAverage(g: Graph, n: Node)
    requires n.Dense()
    ensures Recomputed(g, n).visits == 1 + Sum(n.edgeVisits) + Sum(n.losses)
    ensures Recomputed(g, n).value == Average(n.estimate + DenseValue(g, n, n.numActions), Recomputed(g, n).visits)
  {
    VisitsViaAll(n);
    ValidIsDense(g, n);
    AverageOfOne(n.estimate);
  }

  /** `n'` is `n` up to its visit counts, penalties and value. */
  ghost predicate SameButTallies(n: Node, n': Node) {
    && |n'.edgeVisits| == |n.edgeVisits| && |n'.penalties| == |n.penalties|
    && n' == n.(edgeVisits := n'.edgeVisits, visits := n'.visits, value := n'.value, penalties := n'.penalties)
  }

  ghost predicate KeepsButTallies(g: Graph, g': Graph, id: NodeId) {
    id in g ==> id in g' && SameButTallies(g[id], g'[id])
  }

  ghost predicate OnlyTallies(g: Graph, g': Graph) {
    g'.Keys == g.Keys && forall id :: KeepsButTallies(g, g', id)
  }

  lemma OnlyTalliesChain(g: Graph, g1: Graph, g2: Graph)
    requires OnlyTallies(g, g1) && OnlyTallies(g1, g2)
    ensures OnlyTallies(g, g2)
  {
    forall id ensures KeepsButTallies(g, g2, id) {
      assert KeepsButTallies(g, g1, id) && KeepsButTallies(g1, g2, id);
    }
  }

  lemma OnlyTalliesEvolves(g: Graph, g': Graph)
    requires OnlyTallies(g, g')
    ensures Evolves(g, g')
  {
    forall id ensures EvolvesAt(g, g', id) {
      assert KeepsButTallies(g, g', id);
    }
  }

  lemma BalancedTallies(g: Graph, g': Graph, pending: multiset<Edge>)
    requires Balanced(g, pending) && OnlyTallies(g, g')
    ensures Balanced(g', pending)
  {
    forall e ensures EdgeBalanced(g', pending, e) {
      assert EdgeBalanced(g, pending, e) && KeepsButTallies(g, g', e.0);
    }
  }

  lemma ExpandedAfterTallies(g: Graph, g': Graph, path: Path)
    requires AllExpanded(g, path) && OnlyTallies(g, g')
    ensures AllExpanded(g', path)
  {
    forall i | 0 <= i < |path| ensures Expanded(g', path[i]) {
      assert Expanded(g, path[i]) && KeepsButTallies(g, g', path[i].0);
    }
  }

  /** Everything `VisitEdge` changes: one count, then the node's total and its value. */
  ghost predicate VisitedNode(n: Node, a: Act, n': Node) {
    && a < |n.edgeVisits|
    && n' == n.(edgeVisits := n.edgeVisits[a := n.edgeVisits[a] + 1], visits := n'.visits, value := n'.value)
    && n'.visits == 1 + Sum(n'.edgeVisits) + Sum(n'.losses)
    && Sum(n'.edgeVisits) == Sum(n.edgeVisits) + 1
    && n'.Dense()
  }

  /** Recomputing a node right after one of its edges is visited records every settled and pending visit. */
  lemma VisitEdgeNode(g: Graph, e: Edge)
    requires Expanded(g, e) && g[e.0].Dense()
    ensures VisitEdge(g, e) == g[e.0 := VisitEdge(g, e)[e.0]]
    ensures VisitedNode(g[e.0], e.1, VisitEdge(g, e)[e.0])
  {
    var n1 := g[e.0].AddVisit(e.1);
    SumUpdate(g[e.0].edgeVisits, e.1, g[e.0].edgeVisits[e.1] + 1);
    VisitsViaAll(n1);
    assert VisitEdge(g, e) == g[e.0 := Recomputed(g[e.0 := n1], n1)];
  }

  lemma VisitEdgeKeeps<S(!new)>(game: Game<S>, g: Graph, e: Edge)
    requires Coherent(game, g) && Expanded(g, e)
    ensures VisitEdge(g, e) == g[e.0 := VisitEdge(g, e)[e.0]]
    ensures VisitedNode(g[e.0], e.1, VisitEdge(g, e)[e.0])
    ensures Coherent(game, VisitEdge(g, e)) && OnlyTallies(g, VisitEdge(g, e))
  {
    assert NodeCoherent(game, g, e.0);
    VisitEdgeNode(g, e);
    CoherentUpdate(game, g, e.0, VisitEdge(g, e)[e.0]);
  }

  lemma VisitedNodeSettles(g: Graph, e: Edge, n: Node, except: set<NodeId>)
    requires e.0 in g && VisitedNode(g[e.0], e.1, n) && Settled(g, except)
    ensures Settled(g[e.0 := n], except - {e.0})
  {
    var g', except' := g[e.0 := n], except - {e.0};
    forall id ensures SettledAt(g', except', id) {
      assert SettledAt(g, except, id);
    }
  }

  lemma {:induction false} VisitPathKeeps<S(!new)>(game: Game<S>, g: Graph, path: Path)
    requires Coherent(game, g) && AllExpanded(g, path)
    ensures Coherent(game, VisitPath(g, path)) && OnlyTallies(g, VisitPath(g, path))
    decreases |path|
  {
    if path != [] {
      var e, rest := path[|path| - 1], path[..|path| - 1];
      VisitEdgeKeeps(game, g, e);
      ExpandedAfterTallies(g, VisitEdge(g, e), path);
      VisitPathKeeps(game, VisitEdge(g, e), rest);
      OnlyTalliesChain(g, VisitEdge(g, e), VisitPath(g, path));
    }
  }

  function EdgeVisits(g: Graph, e: Edge): nat {
    if e.0 in g && e.1 < |g[e.0].edgeVisits| then g[e.0].edgeVisits[e.1] else 0
  }

  ghost predicate Counted(g: Graph, g': Graph, settled: multiset<Edge>, e: Edge) {
    && (e.0 in g ==> e.0 in g' && |g'[e.0].edgeVisits| == |g[e.0].edgeVisits|)
    && (e in settled ==> Stored(g', e))
    && (e.0 in g' && e.1 < |g'[e.0].edgeVisits| ==> EdgeVisits(g', e) == EdgeVisits(g, e) + settled[e])
  }

  /** Edge visits grow by exactly the edges settled, and new nodes start unvisited. */
  ghost predicate VisitsGrowBy(g: Graph, g': Graph, settled: multiset<Edge>) {
    forall e :: Counted(g, g', settled, e)
  }

  lemma VisitsGrowChain(g: Graph, g1: Graph, g2: Graph, s1: multiset<Edge>, s2: multiset<Edge>)
    requires VisitsGrowBy(g, g1, s1) && VisitsGrowBy(g1, g2, s2)
    requires Evolves(g1, g2)
    ensures VisitsGrowBy(g, g2, s1 + s2)
  {
    forall e ensures Counted(g, g2, s1 + s2, e) {
      assert Counted(g, g1, s1, e) && Counted(g1, g2, s2, e) && EvolvesAt(g1, g2, e.0);
    }
  }

  lemma VisitEdgeCounts(g: Graph, e: Edge)
    requires e.0 in g && VisitEdge(g, e) == g[e.0 := VisitEdge(g, e)[e.0]]
    requires VisitedNode(g[e.0], e.1, VisitEdge(g, e)[e.0])
    requires Stored(g, e) && OnlyTallies(g, VisitEdge(g, e))
    ensures VisitsGrowBy(g, VisitEdge(g, e), multiset{e})
  {
    var n' := VisitEdge(g, e)[e.0];
    var g' := g[e.0 := n'];
    forall k ensures Counted(g, g', multiset{e}, k) {
      assert KeepsButTallies(g, VisitEdge(g, e), k.0);
    }
  }

  lemma {:induction false} VisitPathCounts<S(!new)>(game: Game<S>, g: Graph, path: Path)
    requires Coherent(game, g) && AllExpanded(g, path)
    ensures VisitsGrowBy(g, VisitPath(g, path), multiset(path))
    decreases |path|
  {
    if path != [] {
      var e, rest := path[|path| - 1], path[..|path| - 1];
      VisitEdgeKeeps(game, g, e);
      ExpandedAfterTallies(g, VisitEdge(g, e), path);
      VisitPathCounts(game, VisitEdge(g, e), rest);
      SplitLast(path);
      VisitEdgeCounts(g, e);
      VisitPathKeeps(game, VisitEdge(g, e), rest);
      OnlyTalliesEvolves(VisitEdge(g, e), VisitPath(g, path));
      VisitsGrowChain(g, VisitEdge(g, e), VisitPath(g, path), multiset{e}, multiset(rest));
      assert multiset{e} + multiset(rest) == multiset(path);
    }
  }

  lemma IdsSplit(path: Path)
    requires path != []
    ensures Ids(path) - {path[|path| - 1].0} <= Ids(path[..|path| - 1])
  {
    assert forall i :: 0 <= i < |path| - 1 ==> path[..|path| - 1][i] == path[i];
  }

  lemma {:induction false} VisitPathSettles<S(!new)>(game: Game<S>, g: Graph, path: Path, except: set<NodeId>)
    requires Coherent(game, g) && AllExpanded(g, path)
    requires Settled(g, except) && except <= Ids(path)
    ensures Settled(VisitPath(g, path), {})
    decreases |path|
  {
    if path != [] {
      var e, rest := path[|path| - 1], path[..|path| - 1];
      VisitEdgeKeeps(game, g, e);
      VisitedNodeSettles(g, e, VisitEdge(g, e)[e.0], except);
      IdsSplit(path);
      ExpandedAfterTallies(g, VisitEdge(g, e), path);
      VisitPathSettles(game, VisitEdge(g, e), rest, except - {e.0});
    } else {
      assert except == {};
    }
  }
}
