/** Reachability in the search graph, and why pruning the unreachable part is invisible to later
    selections: `advance_root` (mcts-core/src/mcts.rs). */
module Pruning {
  import opened Wrappers
  import opened Sums
  import opened Environment
  import opened SearchNode
  import opened SearchGraph
  import opened Backpropagation
  import opened Puct
  import opened Selection
  import opened Arena

  // ----- reachability -----

  ghost predicate HasChild(n: Node, child: NodeId) {
    exists a: Act :: n.Child(a) == Some(child)
  }

  ghost predicate Steps(g: Graph, m: NodeId, child: NodeId) {
    m in g && HasChild(g[m], child)
  }

  ghost predicate Chain(g: Graph, p: seq<NodeId>) {
    p != [] && forall i :: 0 <= i < |p| - 1 ==> Steps(g, p[i], p[i + 1])
  }

  ghost predicate Connects(g: Graph, p: seq<NodeId>, from: NodeId, to: NodeId) {
    Chain(g, p) && p[0] == from && p[|p| - 1] == to
  }

  /** `to` can be reached from `from` along child pointers. */
  ghost predicate Reachable(g: Graph, from: NodeId, to: NodeId) {
    exists p :: Connects(g, p, from, to)
  }

  ghost predicate ChildrenWithin(g: Graph, id: NodeId, keep: set<NodeId>) {
    id in g ==> forall a: Act :: g[id].Child(a).Some? ==> g[id].Child(a).value in keep
  }

  ghost predicate Closed(g: Graph, keep: set<NodeId>) {
    forall id :: id in keep ==> ChildrenWithin(g, id, keep)
  }

  lemma ReachableStart(g: Graph, from: NodeId)
    ensures Reachable(g, from, from)
  {
    assert Connects(g, [from], from, from);
  }

  lemma ReachableStep(g: Graph, from: NodeId, m: NodeId, child: NodeId)
    requires Reachable(g, from, m) && Steps(g, m, child)
    ensures Reachable(g, from, child)
  {
    var p :| Connects(g, p, from, m);
    var longer := p + [child];
    forall i | 0 <= i < |longer| - 1 ensures Steps(g, longer[i], longer[i + 1]) {
      if i < |p| - 1 {
        assert Steps(g, p[i], p[i + 1]);
      }
    }
    assert Connects(g, longer, from, child);
  }

  lemma {:induction false} ChainStaysInside(g: Graph, keep: set<NodeId>, p: seq<NodeId>)
    requires Closed(g, keep) && Chain(g, p) && p[0] in keep
    ensures p[|p| - 1] in keep
    decreases |p|
  {
    if |p| > 1 {
      assert Steps(g, p[0], p[1]) && ChildrenWithin(g, p[0], keep);
      forall i | 0 <= i < |p[1..]| - 1 ensures Steps(g, p[1..][i], p[1..][i + 1]) {
        assert Steps(g, p[i + 1], p[i + 2]);
      }
      ChainStaysInside(g, keep, p[1..]);
    }
  }

  /** A closed set that holds the start holds everything reachable from it. */
  lemma ClosedHoldsReachable(g: Graph, keep: set<NodeId>, from: NodeId, to: NodeId)
    requires Closed(g, keep) && from in keep && Reachable(g, from, to)
    ensures to in keep
  {
    var p :| Connects(g, p, from, to);
    ChainStaysInside(g, keep, p);
  }

  // ----- what pruning keeps -----

  ghost function RestrictedEdges(pending: multiset<Edge>, keep: set<NodeId>): (r: multiset<Edge>)
    ensures forall e :: r[e] == if e.0 in keep then pending[e] else 0
    decreases |pending|
  {
    if pending == multiset{} then multiset{}
    else
      var e :| e in pending;
      var rest := RestrictedEdges(pending[e := 0], keep);
      if e.0 in keep then rest[e := pending[e]] else rest
  }

  lemma RestrictedCoherent<S(!new)>(game: Game<S>, g: Graph, keep: set<NodeId>)
    requires Coherent(game, g) && Closed(g, keep) && keep <= g.Keys
    ensures Coherent(game, Restricted(g, keep))
  {
    var g' := Restricted(g, keep);
    forall id ensures NodeCoherent(game, g', id) {
      assert NodeCoherent(game, g, id);
      if id in g' {
        assert ChildrenWithin(g, id, keep);
        forall a: nat | a < |g'[id].children| && g'[id].children[a].Some? ensures g'[id].children[a].value in g' {
          assert g[id].Child(a) == g'[id].children[a];
        }
      }
    }
  }

  /** Pruning to a closed set of stored nodes keeps every invariant. */
  lemma RestrictedKeeps<S(!new)>(game: Game<S>, g: Graph, keep: set<NodeId>, pending: multiset<Edge>)
    requires Coherent(game, g) && Balanced(g, pending) && Settled(g, {}) && Closed(g, keep) && keep <= g.Keys
    ensures Coherent(game, Restricted(g, keep)) && Settled(Restricted(g, keep), {})
    ensures Balanced(Restricted(g, keep), RestrictedEdges(pending, keep))
  {
    var g', pending' := Restricted(g, keep), RestrictedEdges(pending, keep);
    RestrictedCoherent(game, g, keep);
    forall e ensures EdgeBalanced(g', pending', e) {
      assert EdgeBalanced(g, pending, e);
    }
    forall id ensures SettledAt(g', {}, id) {
      assert SettledAt(g, {}, id);
    }
  }

  /** Pruning keeps the value bounds. */
  lemma RestrictedBounds(g: Graph, keep: set<NodeId>)
    ensures UpperBounded(g, None) ==> UpperBounded(Restricted(g, keep), None)
    ensures LowerBounded(g) ==> LowerBounded(Restricted(g, keep))
  {
    var g' := Restricted(g, keep);
    if UpperBounded(g, None) {
      forall id ensures BoundedAt(g', None, id) {
        assert BoundedAt(g, None, id);
      }
    }
    if LowerBounded(g) {
      forall id ensures BoundedBelowAt(g', id) {
        assert BoundedBelowAt(g, id);
      }
    }
  }

  // ----- pruning is invisible to selection -----

  ghost predicate AgreesAt(g: Graph, h: Graph, keep: set<NodeId>, id: NodeId) {
    id in keep ==> id in g && id in h && h[id] == g[id] && ChildrenWithin(g, id, keep)
  }

  /** The two graphs hold the same nodes on a closed set. */
  ghost predicate Agree(g: Graph, h: Graph, keep: set<NodeId>) {
    forall id :: AgreesAt(g, h, keep, id)
  }

  lemma ChoiceAgrees<S(!new)>(game: Game<S>, t: Tuning, g: Graph, h: Graph, keep: set<NodeId>, root: NodeId, id: NodeId)
    requires Coherent(game, g) && Coherent(game, h) && Agree(g, h, keep) && id in keep && t.rootTemp != 0.0
    ensures Choice(game, t, h, root, id) == Choice(game, t, g, root, id)
  {
    assert AgreesAt(g, h, keep, id) && NodeCoherent(game, g, id);
    forall a: Act ensures SameChildValue(g, h, g[id], a) {
      if g[id].Child(a).Some? {
        assert AgreesAt(g, h, keep, g[id].Child(a).value);
      }
    }
    ChooseReadsLocally(t, g, h, id, id == root);
  }

  lemma AddLossAgrees(g: Graph, h: Graph, keep: set<NodeId>, e: Edge)
    requires Agree(g, h, keep) && e.0 in keep
    ensures Agree(AddLoss(g, e), AddLoss(h, e), keep)
  {
    var g', h' := AddLoss(g, e), AddLoss(h, e);
    assert AgreesAt(g, h, keep, e.0);
    forall id ensures AgreesAt(g', h', keep, id) {
      assert AgreesAt(g, h, keep, id);
      if id in keep {
        forall a: Act | g'[id].Child(a).Some? ensures g'[id].Child(a).value in keep {
          assert g'[id].Child(a) == g[id].Child(a);
        }
      }
    }
  }

  /** From a node of the common part, both graphs give the same walk. */
  lemma {:induction false} WalkAgrees<S(!new)>(game: Game<S>, t: Tuning, g: Graph, h: Graph, keep: set<NodeId>,
                                               root: NodeId, id: NodeId, s: S, path: Path)
    requires Ready(game, t, g, id, s) && Ready(game, t, h, id, s) && Agree(g, h, keep) && id in keep
    ensures var w, v := Walk(game, t, g, root, id, s, path), Walk(game, t, h, root, id, s, path);
      v.path == w.path && v.final == w.final && v.repeat == w.repeat && Agree(w.graph, v.graph, keep)
    decreases g.Keys - Ids(path)
  {
    assert AgreesAt(g, h, keep, id);
    ChoiceAgrees(game, t, g, h, keep, root, id);
    var choice := Choice(game, t, g, root, id);
    if !game.done(s) && id !in Ids(path) && choice.Some? {
      var a := choice.value;
      WalkMove(game, t, g, root, id, s, path, a);
      WalkMove(game, t, h, root, id, s, path, a);
      var g1, h1 := AddLoss(g, (id, a)), AddLoss(h, (id, a));
      AddLossAgrees(g, h, keep, (id, a));
      assert AgreesAt(g1, h1, keep, id);
      if g1[id].Child(a).Some? {
        WalkAgrees(game, t, g1, h1, keep, root, g1[id].Child(a).value, game.step(s, a), path + [(id, a)]);
      }
    }
  }

  /** Selecting from a kept node sees no difference between the pruned and the unpruned graph. */
  lemma PruningInvisible<S(!new)>(game: Game<S>, t: Tuning, g: Graph, keep: set<NodeId>, root: NodeId, s: S)
    requires Lawful(game) && Coherent(game, g) && Closed(g, keep) && keep <= g.Keys && root in keep
    requires game.hash(s) == root && t.rootTemp != 0.0
    ensures Coherent(game, Restricted(g, keep))
    ensures var w, v := Walk(game, t, g, root, root, s, []), Walk(game, t, Restricted(g, keep), root, root, s, []);
      v.path == w.path && v.final == w.final && v.repeat == w.repeat
  {
    var h := Restricted(g, keep);
    RestrictedCoherent(game, g, keep);
    forall id ensures AgreesAt(g, h, keep, id) {
      assert id in keep ==> ChildrenWithin(g, id, keep);
    }
    WalkAgrees(game, t, g, h, keep, root, root, s, []);
  }

  /** What is reachable from a root is closed, so advancing to it is invisible to every selection from it. */
  lemma AdvancingInvisible<S(!new)>(game: Game<S>, t: Tuning, g: Graph, keep: set<NodeId>, root: NodeId, s: S)
    requires Lawful(game) && Coherent(game, g) && root in g && game.hash(s) == root && t.rootTemp != 0.0
    requires forall id :: id in keep <==> Reachable(g, root, id)
    ensures Coherent(game, Restricted(g, keep))
    ensures var w, v := Walk(game, t, g, root, root, s, []), Walk(game, t, Restricted(g, keep), root, root, s, []);
      v.path == w.path && v.final == w.final && v.repeat == w.repeat
  {
    ReachableStart(g, root);
    assert Closed(g, g.Keys) by {
      forall id | id in g ensures ChildrenWithin(g, id, g.Keys) {
        assert NodeCoherent(game, g, id);
      }
    }
    forall id | id in keep ensures id in g && ChildrenWithin(g, id, keep) {
      ClosedHoldsReachable(g, g.Keys, root, id);
      forall a: Act | g[id].Child(a).Some? ensures g[id].Child(a).value in keep {
        assert Steps(g, id, g[id].Child(a).value);
        ReachableStep(g, root, id, g[id].Child(a).value);
      }
    }
    PruningInvisible(game, t, g, keep, root, s);
  }
}
