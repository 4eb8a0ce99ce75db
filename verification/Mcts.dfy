/** The batched search engine: the struct `MCTS` and its methods (mcts-core/src/mcts.rs). */
module Mcts {
  import opened Wrappers
  import opened Sums
  import opened Environment
  import opened SearchNode
  import opened SearchGraph
  import opened Backpropagation
  import opened Puct
  import opened Selection
  import opened PuctNumbers
  import opened Expansion
  import opened Arena
  import opened Accounting
  import opened Pruning
  import opened SearchTrace
  import opened PolicyTarget

  /** One call of a session: a search from a state, or a move of the root. */
  datatype Command<S> = RunSearch(env: S, numSteps: nat, forced: bool) | Advance(action: Act)

  class Search<S(!new)> {
    const game: Game<S>
    const batchSize: nat
    const sqrt: real -> real
    const pow: (real, real) -> real
    var rootId: Option<NodeId>
    var table: Table
    var nodes: seq<Node>
    var cFpu: real
    var rootTemp: real
    var kForced: real
    var noise: Option<map<Act, real>>
    var noiseEps: real
    ghost var pending: multiset<Edge>   // the edges of every path selected but not yet backpropagated

    function Graph(): Graph
      reads this
      requires Indexed(nodes, table)
    {
      GraphOf(nodes, table)
    }

    ghost predicate Valid()
      reads this
    {
      && Lawful(game) && rootTemp != 0.0
      && Indexed(nodes, table)
      && Coherent(game, Graph()) && Balanced(Graph(), pending) && Settled(Graph(), {})
    }

    function Knobs(cPuct: real, forced: bool): (t: Tuning)
      reads this`cFpu, this`rootTemp, this`kForced, this`noise, this`noiseEps
      ensures t.cPuct == cPuct && t.forced == forced && t.cFpu == cFpu && t.rootTemp == rootTemp && t.kForced == kForced
      ensures t.noise == noise && t.noiseEps == noiseEps && t.sqrt == sqrt && t.pow == pow
    {
      Tuning(cPuct, cFpu, rootTemp, kForced, forced, noise, noiseEps, sqrt, pow)
    }

    /** The rules that this engine plays by when it searches from `env` with these arguments. */
    ghost predicate Governs(r: Rules<S>, root: NodeId, env: S, cPuct: real, forced: bool, evaluate: S -> real)
      reads this`cFpu, this`rootTemp, this`kForced, this`noise, this`noiseEps
    {
      r == Rules(game, Knobs(cPuct, forced), evaluate, r.client, root, env, batchSize)
    }

    constructor (game: Game<S>, batchSize: nat, sqrt: real -> real, pow: (real, real) -> real)
      requires Lawful(game)
      ensures AtRest() && Graph() == map[] && rootId == None
      ensures cFpu == 0.2 && rootTemp == 1.03 && kForced == 2.0 && noise == None && noiseEps == 0.0
      ensures this.game == game && this.batchSize == batchSize
    {
      this.game, this.batchSize, this.sqrt, this.pow := game, batchSize, sqrt, pow;
      rootId, table, nodes := None, map[], [];
      cFpu, rootTemp, kForced := 0.2, 1.03, 2.0;
      noise, noiseEps := None, 0.0;
      pending := multiset{};
      new;
      RestsWhenNothingPends();
    }

    // ----- the table and the arena -----

    predicate NodeExists(id: NodeId)
      reads this
    {
      id in table
    }

    function GetNode(id: NodeId): (n: Option<Node>)
      reads this
      ensures Indexed(nodes, table) ==> n == if id in Graph() then Some(Graph()[id]) else None
      ensures Indexed(nodes, table) && n.Some? ==> n.value.id == id
    {
      assert Indexed(nodes, table) ==> EntryOk(nodes, table, id);
      if id in table && table[id] < |nodes| then Some(nodes[table[id]]) else None
    }

    /** Writes through the reference `get_node_mut` hands out. */
    method SetNode(n: Node)
      requires Indexed(nodes, table) && n.id in table
      modifies this`nodes
      ensures Indexed(nodes, table) && Graph() == old(Graph())[n.id := n]
      ensures IdsOf(nodes) == IdsOf(old(nodes))
    {
      GraphUpdate(nodes, table, n.id, n);
      nodes := nodes[table[n.id] := n];
    }

    method InsertNode(id: NodeId, n: Node)
      modifies this`nodes, this`table
      ensures nodes == old(nodes) + [n] && table == old(table)[id := |old(nodes)|]
      ensures old(Indexed(nodes, table)) && id !in old(table) && n.id == id ==>
        Indexed(nodes, table) && Graph() == old(Graph())[id := n] && IdsOf(nodes) == IdsOf(old(nodes)) + [id]
    {
      if Indexed(nodes, table) && id !in table && n.id == id {
        GraphInsert(nodes, table, id, n);
      }
      var index := |nodes|;
      nodes := nodes + [n];
      table := table[id := index];
    }

    method CreateNode(env: S, priors: Priors, value: real) returns (id: NodeId, ghost made: Node)
      modifies this`nodes, this`table
      ensures id == game.hash(env) && Created(game, env, priors, value, made)
      ensures nodes == old(nodes) + [made] && table == old(table)[id := |old(nodes)|]
      ensures old(Indexed(nodes, table)) && id !in old(table) ==>
        Indexed(nodes, table) && Graph() == old(Graph())[id := made] && IdsOf(nodes) == IdsOf(old(nodes)) + [id]
    {
      id := game.hash(env);
      var n: Node;
      if game.done(env) {
        n := NewTerminal(id, value);
      } else {
        n := NewNode(game.numActions(env), priors, Clamp(value), id);
      }
      InsertNode(id, n);
      made := n;
    }

    // ----- backpropagation -----

    method ChildVisits(n: Node) returns (via: nat)
      ensures via == VisitsVia(n, n.valid)
    {
      via := 0;
      for i := 0 to |n.valid|
        invariant via + VisitsVia(n, n.valid[i..]) == VisitsVia(n, n.valid)
      {
        var a := n.valid[i];
        if n.Child(a).Some? && a < |n.edgeVisits| {
          via := via + n.edgeVisits[a];
        }
      }
    }

    /** What one stored action adds to the backed-up total. */
    method ChildShare(n: Node, a: Act) returns (share: real)
      requires Indexed(nodes, table)
      ensures share == Contribution(Graph(), n, a)
    {
      share := 0.0;
      if n.Child(a).Some? && a < |n.edgeVisits| && n.edgeVisits[a] > 0 {
        var child := GetNode(n.Child(a).value);
        if child.Some? {
          share := n.edgeVisits[a] as real * (child.value.value + (if a < |n.penalties| then n.penalties[a] else 0.0));
        }
      }
    }

    method BackedUp(n: Node) returns (acc: real)
      requires Indexed(nodes, table)
      ensures acc == WeightedValue(Graph(), n, n.valid)
    {
      acc := 0.0;
      for i := 0 to |n.valid|
        invariant acc + WeightedValue(Graph(), n, n.valid[i..]) == WeightedValue(Graph(), n, n.valid)
      {
        WeightedFrom(Graph(), n, n.valid, i);
        var share := ChildShare(n, n.valid[i]);
        acc := acc + share;
      }
    }

    method RecomputeValue(id: NodeId)
      requires Indexed(nodes, table)
      modifies this`nodes
      ensures Indexed(nodes, table) && Graph() == Recompute(old(Graph()), id) && IdsOf(nodes) == IdsOf(old(nodes))
    {
      if id in table {
        assert EntryOk(nodes, table, id);
        var n := nodes[table[id]];
        var via := ChildVisits(n);
        var total := via + Sum(n.losses);
        if total == 0 {
          SetNode(n.(visits := 1, value := n.estimate));
        } else {
          var acc := BackedUp(n);
          SetNode(n.(visits := 1 + total, value := Average(n.estimate + acc, 1 + total)));
        }
      }
    }

    method RevertLosses(path: Path)
      requires Indexed(nodes, table)
      modifies this`nodes
      ensures Indexed(nodes, table) && Graph() == RevertPath(old(Graph()), path) && IdsOf(nodes) == IdsOf(old(nodes))
    {
      assert path[..|path|] == path;
      for i := |path| downto 0
        invariant Indexed(nodes, table) && IdsOf(nodes) == IdsOf(old(nodes))
        invariant RevertPath(Graph(), path[..i]) == RevertPath(old(Graph()), path)
      {
        assert path[..i + 1][..i] == path[..i];
        var (id, a) := path[i];
        var n := GetNode(id);
        if n.Some? {
          SetNode(n.value.RevertVirtualLoss(a));
        }
      }
    }

    method VisitAll(path: Path)
      requires Indexed(nodes, table)
      modifies this`nodes
      ensures Indexed(nodes, table) && Graph() == VisitPath(old(Graph()), path) && IdsOf(nodes) == IdsOf(old(nodes))
    {
      assert path[..|path|] == path;
      for i := |path| downto 0
        invariant Indexed(nodes, table) && IdsOf(nodes) == IdsOf(old(nodes))
        invariant VisitPath(Graph(), path[..i]) == VisitPath(old(Graph()), path)
      {
        assert path[..i + 1][..i] == path[..i];
        var (id, a) := path[i];
        var n := GetNode(id);
        if n.Some? {
          SetNode(n.value.AddVisit(a));
        }
        RecomputeValue(id);
      }
    }

    method ApplyPenalty(e: Edge)
      requires Indexed(nodes, table) && (e.0 in Graph() ==> Graph()[e.0].valid != [])
      modifies this`nodes
      ensures Indexed(nodes, table) && Graph() == Penalize(old(Graph()), e) && IdsOf(nodes) == IdsOf(old(nodes))
    {
      var n := GetNode(e.0);
      if n.Some? {
        SetNode(n.value.ApplyPenalty(e.1));
      }
    }

    /** The writes of `backpropagate`, in their order. */
    method SettlePath(path: Path, repeat: bool)
      requires Indexed(nodes, table) && Routed(Graph(), path)
      modifies this`nodes
      ensures Indexed(nodes, table) && Graph() == Backprop(old(Graph()), path, repeat) && IdsOf(nodes) == IdsOf(old(nodes))
    {
      if path == [] { return; }
      RevertPathOnlyLosses(Graph(), path);
      var last := path[|path| - 1];
      assert Stored(Graph(), last) && KeepsButLosses(Graph(), RevertPath(Graph(), path), last.0);
      RevertLosses(path);
      if repeat {
        ApplyPenalty(last);
      }
      VisitAll(path);
    }

    method Backpropagate(path: Path, repeat: bool)
      requires Valid() && multiset(path) <= pending && AllExpanded(Graph(), path)
      modifies this`nodes, this`pending
      ensures Valid() && Graph() == Backprop(old(Graph()), path, repeat) && IdsOf(nodes) == IdsOf(old(nodes))
      ensures pending == old(pending) - multiset(path)
    {
      BackpropKeeps(game, Graph(), path, repeat, pending);
      assert Routed(Graph(), path) by {
        forall i | 0 <= i < |path| ensures Stored(Graph(), path[i]) {
          assert Expanded(Graph(), path[i]);
        }
      }
      SettlePath(path, repeat);
      pending := pending - multiset(path);
    }

    // ----- selection -----

    method PuctScores(id: NodeId, cPuct: real, isRoot: bool, forced: bool) returns (scores: seq<Score>)
      requires Indexed(nodes, table) && rootTemp != 0.0 && (id in Graph() ==> Graph()[id].Dense())
      ensures scores == if id in Graph() then Scores(Knobs(cPuct, forced), Graph(), Graph()[id], isRoot) else []
    {
      var n := GetNode(id);
      if n.None? { return []; }
      scores := ScoreLoop(Knobs(cPuct, forced), Graph(), n.value, isRoot);
    }

    method SelectActionPuct(id: NodeId, cPuct: real, isRoot: bool, forced: bool) returns (a: Option<Act>)
      requires Indexed(nodes, table) && rootTemp != 0.0 && (id in Graph() ==> Graph()[id].Dense())
      ensures a == Choose(Knobs(cPuct, forced), Graph(), id, isRoot)
    {
      var scores := PuctScores(id, cPuct, isRoot, forced);
      if scores == [] { return None; }
      var n := GetNode(id);
      a := PickLastBest(n.value.valid, scores);
    }

    method AddVirtualLoss(id: NodeId, a: Act)
      requires Indexed(nodes, table) && id in table
      modifies this`nodes
      ensures Indexed(nodes, table) && IdsOf(nodes) == IdsOf(old(nodes))
      ensures Graph() == AddLoss(old(Graph()), (id, a))
    {
      var n := GetNode(id);
      SetNode(n.value.AddVirtualLoss(a));
    }

    ghost predicate LastOf(path: Path, parent: Option<NodeId>, action: Option<Act>) {
      if path == [] then parent == None && action == None
      else parent == Some(path[|path| - 1].0) && action == Some(path[|path| - 1].1)
    }

    /** Chooses an action, charges its virtual loss and looks up the child it leads to. */
    method ChooseAndCharge(root: NodeId, id: NodeId, cPuct: real, forced: bool)
        returns (chosen: Option<Act>, child: Option<NodeId>)
      requires Indexed(nodes, table) && Coherent(game, Graph()) && rootTemp != 0.0 && id in table
      modifies this`nodes
      ensures Indexed(nodes, table) && IdsOf(nodes) == IdsOf(old(nodes))
      ensures chosen == Choice(game, Knobs(cPuct, forced), old(Graph()), root, id)
      ensures Graph() == if chosen.Some? then AddLoss(old(Graph()), (id, chosen.value)) else old(Graph())
      ensures id in Graph() && child == if chosen.Some? then Graph()[id].Child(chosen.value) else None
    {
      assert NodeCoherent(game, Graph(), id);
      child := None;
      chosen := SelectActionPuct(id, cPuct, id == root, forced);
      if chosen.Some? {
        AddVirtualLoss(id, chosen.value);
        child := GetNode(id).value.Child(chosen.value);
      }
    }

    /** One turn of the loop of `select_leaf`: either the walk stops here, or it goes on from `next`. */
    method TakeStep(root: NodeId, id: NodeId, s: S, path: Path, cPuct: real, forced: bool, ghost w: Walked<S>)
        returns (stop: bool, repeat: bool, chosen: Option<Act>, next: NodeId)
      requires Indexed(nodes, table) && Ready(game, Knobs(cPuct, forced), Graph(), id, s) && !game.done(s)
      requires w == Walk(game, Knobs(cPuct, forced), Graph(), root, id, s, path)
      modifies this`nodes
      ensures Indexed(nodes, table) && IdsOf(nodes) == IdsOf(old(nodes))
      ensures var path' := if chosen.Some? then path + [(id, chosen.value)] else path;
        var s' := if chosen.Some? then game.step(s, chosen.value) else s;
        && (stop ==> w == Walked(Graph(), path', s', repeat))
        && (!stop ==>
             && !repeat && chosen.Some? && Ready(game, Knobs(cPuct, forced), Graph(), next, s')
             && w == Walk(game, Knobs(cPuct, forced), Graph(), root, next, s', path')
             && Graph().Keys - Ids(path') < old(Graph()).Keys - Ids(path))
    {
      stop, repeat, chosen, next := true, false, None, id;
      if NodeExists(id) {
        repeat := game.hash(s) in Ids(path);
        if !repeat {
          ghost var g := Graph();
          var child;
          chosen, child := ChooseAndCharge(root, id, cPuct, forced);
          if chosen.Some? {
            WalkMove(game, Knobs(cPuct, forced), g, root, id, s, path, chosen.value);
          }
          if child.Some? {
            stop, next := false, child.value;
          }
        }
      }
    }

    /** The loop of `select_leaf`: it terminates because no state repeats along the path. */
    method WalkLoop(root: NodeId, env: S, cPuct: real, forced: bool)
        returns (path: Path, parent: Option<NodeId>, action: Option<Act>, final: S, repeat: bool)
      requires Indexed(nodes, table) && Ready(game, Knobs(cPuct, forced), Graph(), root, env)
      modifies this`nodes
      ensures Indexed(nodes, table) && IdsOf(nodes) == IdsOf(old(nodes))
      ensures Walked(Graph(), path, final, repeat) == Walk(game, Knobs(cPuct, forced), old(Graph()), root, root, env, [])
      ensures LastOf(path, parent, action)
    {
      path, parent, action, final, repeat := [], None, None, env, false;
      var id, stop := root, false;
      ghost var w := Walk(game, Knobs(cPuct, forced), Graph(), root, root, env, []);
      while !stop && !game.done(final) && !repeat
        invariant Indexed(nodes, table) && IdsOf(nodes) == IdsOf(old(nodes)) && LastOf(path, parent, action)
        invariant stop ==> w == Walked(Graph(), path, final, repeat)
        invariant !stop ==> !repeat && Ready(game, Knobs(cPuct, forced), Graph(), id, final)
        invariant !stop ==> Walk(game, Knobs(cPuct, forced), Graph(), root, id, final, path) == w
        decreases !stop, Graph().Keys - Ids(path)
      {
        var chosen, next;
        stop, repeat, chosen, next := TakeStep(root, id, final, path, cPuct, forced, w);
        if chosen.Some? {
          final := game.step(final, chosen.value);
          path := path + [(id, chosen.value)];
          parent, action := Some(id), chosen;
        }
        id := next;
      }
    }

    method SelectLeaf(root: NodeId, env: S, cPuct: real, forced: bool)
        returns (path: Path, parent: Option<NodeId>, action: Option<Act>, final: S, repeat: bool)
      requires Valid() && game.hash(env) == root
      modifies this`nodes, this`pending
      ensures Valid() && IdsOf(nodes) == IdsOf(old(nodes))
      ensures Walked(Graph(), path, final, repeat) == Walk(game, Knobs(cPuct, forced), old(Graph()), root, root, env, [])
      ensures pending == old(pending) + multiset(path)
      ensures |path| <= |table| && LastOf(path, parent, action)
      ensures Greedy(game, Knobs(cPuct, forced), old(Graph()), root, path) && Graph() == Charges(old(Graph()), path)
    {
      SelectionGreedy(game, Knobs(cPuct, forced), Graph(), root, env);
      WalkKeeps(game, Knobs(cPuct, forced), Graph(), root, env, pending);
      path, parent, action, final, repeat := WalkLoop(root, env, cPuct, forced);
      pending := pending + multiset(path);
    }

    // ----- expansion and settling -----

    /** The first half of `expand`: a node for the leaf, unless there is one. */
    method EnsureNode(env: S, priors: Priors, value: real) returns (leaf: NodeId, ghost made: Node)
      requires Indexed(nodes, table)
      modifies this`nodes, this`table
      ensures Indexed(nodes, table) && leaf == game.hash(env)
      ensures leaf !in old(table) ==> Created(game, env, Normalized(priors, game.valid(env)), value, made)
      ensures Graph() == WithNode(old(Graph()), leaf, made)
      ensures IdsOf(nodes) == IdsOf(old(nodes)) + if leaf in old(table) then [] else [leaf]
    {
      leaf := game.hash(env);
      made := NewTerminal(leaf, value);
      if !NodeExists(leaf) {
        var normalized := NormalizePrior(priors, game.valid(env));
        leaf, made := CreateNode(env, normalized, value);
      }
    }

    /** The second half of `expand`: the parent's pointer to the leaf, unless it has one. */
    method AddChild(parent: NodeId, action: Act, child: NodeId)
      requires Indexed(nodes, table)
      modifies this`nodes
      ensures Indexed(nodes, table) && IdsOf(nodes) == IdsOf(old(nodes))
      ensures Graph() == Link(old(Graph()), (parent, action), child)
    {
      var n := GetNode(parent);
      if n.Some? {
        SetNode(n.value.LinkChild(action, child));
      }
    }

    method Expand(parent: NodeId, action: Act, env: S, priors: Priors, value: real) returns (leaf: NodeId)
      requires Indexed(nodes, table)
      modifies this`nodes, this`table
      ensures Indexed(nodes, table) && leaf == game.hash(env)
      ensures ExpandsTo(game, old(Graph()), Graph(), (parent, action), env, priors, value)
      ensures IdsOf(nodes) == IdsOf(old(nodes)) + if leaf in old(table) then [] else [leaf]
    {
      ghost var made;
      leaf, made := EnsureNode(env, priors, value);
      AddChild(parent, action, leaf);
      assert AnswerAt(game, old(Graph()), Graph(), (parent, action), env, priors, value, made);
    }

    /** Expands the end of a selected route with an answer and settles the route. */
    method ExpandAndSettle(root: NodeId, ghost start: S, path: Path, env: S, priors: Priors, value: real, ghost evaluate: S -> real)
      requires Valid() && multiset(path) <= pending
      requires Route(game, Graph(), start, path) && path != [] && path[0].0 == root && env == StepAlong(game, start, path)
      requires game.done(env) ==> value == evaluate(env)
      modifies this`nodes, this`table, this`pending
      ensures Valid() && pending == old(pending) - multiset(path)
      ensures Progress(evaluate, root, old(Graph()), IdsOf(old(nodes)), Graph(), IdsOf(nodes), multiset(path), 1, 0)
      ensures ExpandedAndBacked(game, old(Graph()), Graph(), path, env, priors, value)
    {
      var (parent, action) := path[|path| - 1];
      ghost var g, ids := Graph(), IdsOf(nodes);
      ghost var more := if game.hash(env) in table then [] else [game.hash(env)];
      var leaf := Expand(parent, action, env, priors, value);
      ghost var g1 := Graph();
      ExpandKeeps(game, g, g1, start, path, env, priors, value, pending);
      assert Stored(g, path[0]);
      ProgressExpand(game, evaluate, root, g, g1, ids, more, (parent, action), env, priors, value);
      RouteEvolves(game, g, g1, start, path);
      ProgressSettle(game, evaluate, root, g1, ids + more, start, path, false, pending);
      Backpropagate(path, false);
      assert Backed(game, g, g1, Graph(), path, env, priors, value);
      ProgressChain(evaluate, root, g, ids, g1, ids + more, Graph(), IdsOf(nodes), multiset{}, 0, 0, multiset(path), 1, 0);
      assert multiset{} + multiset(path) == multiset(path);
    }

    /** Penalises and settles a selected route that ended at a repeat. */
    method SettleRepeat(root: NodeId, ghost start: S, path: Path, ghost evaluate: S -> real)
      requires Valid() && multiset(path) <= pending
      requires Route(game, Graph(), start, path) && AllExpanded(Graph(), path) && path != [] && path[0].0 == root
      modifies this`nodes, this`pending
      ensures Valid() && pending == old(pending) - multiset(path)
      ensures Progress(evaluate, root, old(Graph()), IdsOf(old(nodes)), Graph(), IdsOf(nodes), multiset(path), 1, 1)
      ensures Graph() == Backprop(old(Graph()), path, true)
      ensures OnlyPenalty(old(Graph()), Graph(), Last(path))
    {
      RepeatPenalty(game, Graph(), path);
      ProgressSettle(game, evaluate, root, Graph(), IdsOf(nodes), start, path, true, pending);
      Backpropagate(path, true);
    }

    // ----- running a search -----

    /** Settles a selected route that needs no inference: a repeat, or a terminal leaf. */
    method SettleNow(root: NodeId, ghost start: S, path: Path, final: S, repeat: bool, evaluate: S -> real)
      requires Valid() && multiset(path) <= pending && path != []
      requires Selected(game, root, start, Walked(Graph(), path, final, repeat))
      requires repeat || game.done(final)
      modifies this`nodes, this`table, this`pending
      ensures Valid() && pending == old(pending) - multiset(path)
      ensures Progress(evaluate, root, old(Graph()), IdsOf(old(nodes)), Graph(), IdsOf(nodes), multiset(path), 1,
                       if repeat then 1 else 0)
      ensures repeat ==> Graph() == Backprop(old(Graph()), path, true) && OnlyPenalty(old(Graph()), Graph(), Last(path))
      ensures !repeat ==> ExpandedAndBacked(game, old(Graph()), Graph(), path, final, map[], evaluate(final))
    {
      if repeat {
        SettleRepeat(root, start, path, evaluate);
      } else {
        ExpandAndSettle(root, start, path, final, map[], evaluate(final), evaluate);
      }
    }

    /** A selection from the root, with what the search knows about the route it returns. */
    method SelectRoute(root: NodeId, env: S, cPuct: real, forced: bool, ghost evaluate: S -> real)
        returns (path: Path, parent: Option<NodeId>, action: Option<Act>, final: S, repeat: bool)
      requires Valid() && game.hash(env) == root && root in table && !game.done(env)
      modifies this`nodes, this`pending
      ensures Valid() && pending == old(pending) + multiset(path) && IdsOf(nodes) == IdsOf(old(nodes))
      ensures Selected(game, root, env, Walked(Graph(), path, final, repeat))
      ensures path == [] <==> old(Graph())[root].valid == []
      ensures Progress(evaluate, root, old(Graph()), IdsOf(old(nodes)), Graph(), IdsOf(nodes), multiset{}, 0, 0)
      ensures LastOf(path, parent, action)
      ensures Ready(game, Knobs(cPuct, forced), old(Graph()), root, env)
      ensures Walked(Graph(), path, final, repeat) == Walk(game, Knobs(cPuct, forced), old(Graph()), root, root, env, [])
    {
      SelectedFromRoot(game, Knobs(cPuct, forced), evaluate, Graph(), IdsOf(nodes), root, env, pending);
      path, parent, action, final, repeat := SelectLeaf(root, env, cPuct, forced);
    }

    /** One selection of `run`: settled at once at a repeat or a terminal state, otherwise left waiting. */
    method Simulate(root: NodeId, env: S, cPuct: real, forced: bool, evaluate: S -> real, ghost r: Rules<S>)
        returns (waiting: Option<Waiting<S>>, ghost settled: multiset<Edge>, ghost count: nat, ghost repeated: multiset<Edge>)
      requires Valid() && game.hash(env) == root && root in table && !game.done(env)
      requires Governs(r, root, env, cPuct, forced, evaluate)
      modifies this`nodes, this`table, this`pending
      ensures Valid()
      ensures Progress(evaluate, root, old(Graph()), IdsOf(old(nodes)), Graph(), IdsOf(nodes), settled, count, |repeated|)
      ensures count + (if waiting.Some? then 1 else 0) == if old(Graph())[root].valid == [] then 0 else 1
      ensures waiting.Some? ==> WaitsAt(game, Graph(), root, env, waiting.value)
      ensures pending == old(pending) + EdgesListed(waiting)
      ensures Plays(r, old(Graph()), Graph(), Listed(waiting), repeated)
    {
      ghost var g, ids := Graph(), IdsOf(nodes);
      var path, parent, action, final, repeat := SelectRoute(root, env, cPuct, forced, evaluate);
      ghost var g1, w := Graph(), Walked(Graph(), path, final, repeat);
      waiting, settled, count, repeated := None, multiset{}, 0, multiset{};
      AddThenRemove(old(pending), multiset(path));
      AddThenRemove(multiset(path), multiset{});
      if action.None? || parent.None? {
        assert PlaysOut(r, w, g, Graph(), [], repeated);
        return;
      }
      if !repeat && !game.done(final) {
        waiting := Some(Waiting(path, parent.value, action.value, final));
        assert PlaysOut(r, w, g, Graph(), Listed(waiting), repeated);
        return;
      }
      SettleNow(root, env, path, final, repeat, evaluate);
      settled, count := multiset(path), 1;
      if repeat {
        repeated := multiset{Last(path)};
      }
      assert PlaysOut(r, w, g, Graph(), [], repeated);
      ProgressChain(evaluate, root, g, ids, g1, ids, Graph(), IdsOf(nodes), multiset{}, 0, 0, settled, count, |repeated|);
    }

    /** One more selection of the batch that began at `first`. */
    method CollectNext(root: NodeId, env: S, cPuct: real, forced: bool, evaluate: S -> real, batch: seq<Waiting<S>>,
                       ghost base: multiset<Edge>, ghost r: Rules<S>, ghost first: Moment<S>, ghost m: Moment<S>)
        returns (batch': seq<Waiting<S>>, ghost settled: multiset<Edge>, ghost count: nat, ghost repeats: nat, ghost m': Moment<S>)
      requires Valid() && game.hash(env) == root && root in table && !game.done(env)
      requires AllWait(game, Graph(), root, env, batch, 0) && pending == base + EdgesOf(batch, 0)
      requires Governs(r, root, env, cPuct, forced, evaluate) && m.graph == Graph() && m.selected < batchSize
      requires Leads(r, first, m) && Selecting(first, m, batch, m.selected)
      modifies this`nodes, this`table, this`pending
      ensures Valid() && AllWait(game, Graph(), root, env, batch', 0) && |batch'| <= |batch| + 1
      ensures Progress(evaluate, root, old(Graph()), IdsOf(old(nodes)), Graph(), IdsOf(nodes), settled, count, repeats)
      ensures count + |batch'| == |batch| + if old(Graph())[root].valid == [] then 0 else 1
      ensures pending == base + EdgesOf(batch', 0)
      ensures Leads(r, first, m') && m'.graph == Graph() && |m'.penalised| == |m.penalised| + repeats
      ensures Selecting(first, m', batch', m.selected + 1)
    {
      ghost var g := Graph();
      ghost var repeated;
      var waiting;
      waiting, settled, count, repeated := Simulate(root, env, cPuct, forced, evaluate, r);
      repeats := |repeated|;
      batch' := batch + Listed(waiting);
      AllWaitSelect(game, g, Graph(), root, env, batch, waiting, base);
      m' := SelectOn(r, first, m, Graph(), Listed(waiting), repeated);
    }

    /** The selection half of one batch. */
    method CollectBatch(root: NodeId, env: S, cPuct: real, forced: bool, evaluate: S -> real, ghost r: Rules<S>, ghost m: Moment<S>)
        returns (batch: seq<Waiting<S>>, ghost settled: multiset<Edge>, ghost count: nat, ghost repeats: nat, ghost m': Moment<S>)
      requires Valid() && game.hash(env) == root && root in table && !game.done(env)
      requires Governs(r, root, env, cPuct, forced, evaluate) && AtTurn(m) && m.graph == Graph()
      modifies this`nodes, this`table, this`pending
      ensures Valid() && AllWait(game, Graph(), root, env, batch, 0) && |batch| <= batchSize
      ensures Progress(evaluate, root, old(Graph()), IdsOf(old(nodes)), Graph(), IdsOf(nodes), settled, count, repeats)
      ensures count + |batch| == if old(Graph())[root].valid == [] then 0 else batchSize
      ensures pending == old(pending) + EdgesOf(batch, 0)
      ensures Leads(r, m, m') && m'.graph == Graph() && |m'.penalised| == |m.penalised| + repeats
      ensures Selecting(m, m', batch, batchSize)
    {
      batch, settled, count, repeats, m' := [], multiset{}, 0, 0, m;
      ghost var g0, ids0 := Graph(), IdsOf(nodes);
      ProgressNone(evaluate, root, g0, ids0);
      LeadsHere(r, m);
      AddThenRemove(pending, multiset{});
      for i := 0 to batchSize
        invariant Valid() && AllWait(game, Graph(), root, env, batch, 0) && |batch| <= i
        invariant Progress(evaluate, root, g0, ids0, Graph(), IdsOf(nodes), settled, count, repeats)
        invariant count + |batch| == if g0[root].valid == [] then 0 else i
        invariant pending == old(pending) + EdgesOf(batch, 0)
        invariant Leads(r, m, m') && m'.graph == Graph() && |m'.penalised| == |m.penalised| + repeats
        invariant Selecting(m, m', batch, i)
      {
        ghost var g1, ids1 := Graph(), IdsOf(nodes);
        assert EvolvesAt(g0, g1, root);
        ghost var s, c, k;
        batch, s, c, k, m' := CollectNext(root, env, cPuct, forced, evaluate, batch, old(pending), r, m, m');
        ProgressChain(evaluate, root, g0, ids0, g1, ids1, Graph(), IdsOf(nodes), settled, count, repeats, s, c, k);
        settled, count, repeats := settled + s, count + c, repeats + k;
      }
    }

    /** Settles one waiting playout with its answer. */
    method SettleOne(root: NodeId, ghost start: S, batch: seq<Waiting<S>>, i: nat, priors: Priors, value: real,
                     ghost evaluate: S -> real, ghost base: multiset<Edge>)
      requires Valid() && i < |batch| && AllWait(game, Graph(), root, start, batch, i)
      requires pending == base + EdgesOf(batch, i)
      modifies this`nodes, this`table, this`pending
      ensures Valid() && AllWait(game, Graph(), root, start, batch, i + 1)
      ensures pending == base + EdgesOf(batch, i + 1)
      ensures Progress(evaluate, root, old(Graph()), IdsOf(old(nodes)), Graph(), IdsOf(nodes), multiset(batch[i].path), 1, 0)
      ensures ExpandedAndBacked(game, old(Graph()), Graph(), batch[i].path, batch[i].env, priors, value)
    {
      var p := batch[i];
      ghost var g, rest := Graph(), EdgesOf(batch, i + 1);
      assert WaitsAt(game, g, root, start, p);
      SwapSum(base, multiset(p.path), rest);
      AddThenRemove(base + rest, multiset(p.path));
      ExpandAndSettle(root, start, p.path, p.env, priors, value, evaluate);
      AllWaitEvolves(game, g, Graph(), root, start, batch, i + 1);
    }

    /** How far three sequences of these lengths go together. */
    static function Zipped(a: nat, b: nat, c: nat): (n: nat)
      ensures n <= a && n <= b && n <= c && (n == a || n == b || n == c)
    {
      if a <= b && a <= c then a else if b <= c then b else c
    }

    /** The expansion half of one batch: as many playouts as the client answered, each with its own answer, in order. */
    method SettleBatch(root: NodeId, ghost start: S, batch: seq<Waiting<S>>, priors: seq<Priors>, values: seq<real>,
                       ghost evaluate: S -> real, ghost base: multiset<Edge>)
        returns (n: nat, ghost settled: multiset<Edge>, ghost graphs: seq<Graph>)
      requires Valid() && AllWait(game, Graph(), root, start, batch, 0) && root in table
      requires pending == base + EdgesOf(batch, 0)
      modifies this`nodes, this`table, this`pending
      ensures n == Zipped(|batch|, |priors|, |values|)
      ensures Valid() && AllWait(game, Graph(), root, start, batch, n)
      ensures Progress(evaluate, root, old(Graph()), IdsOf(old(nodes)), Graph(), IdsOf(nodes), settled, n, 0)
      ensures pending == base + EdgesOf(batch, n)
      ensures |graphs| == n + 1 && graphs[0] == old(Graph()) && graphs[n] == Graph()
      ensures AppliesAnswers(game, graphs, batch, priors, values)
    {
      n := Zipped(|batch|, |priors|, |values|);
      ghost var g0, ids0 := Graph(), IdsOf(nodes);
      settled, graphs := multiset{}, [g0];
      AppliesNone(game, g0, batch, priors, values);
      ProgressNone(evaluate, root, g0, ids0);
      for i := 0 to n
        invariant Valid() && AllWait(game, Graph(), root, start, batch, i)
        invariant Progress(evaluate, root, g0, ids0, Graph(), IdsOf(nodes), settled, i, 0)
        invariant pending == base + EdgesOf(batch, i)
        invariant |graphs| == i + 1 && graphs[0] == g0 && graphs[i] == Graph()
        invariant AppliesAnswers(game, graphs, batch, priors, values)
      {
        ghost var g1, ids1 := Graph(), IdsOf(nodes);
        SettleOne(root, start, batch, i, priors[i], values[i], evaluate, base);
        AppliesNext(game, graphs, Graph(), batch, priors, values);
        ProgressChain(evaluate, root, g0, ids0, g1, ids1, Graph(), IdsOf(nodes), settled, i, 0, multiset(batch[i].path), 1, 0);
        settled, graphs := settled + multiset(batch[i].path), graphs + [Graph()];
      }
    }

    /** Sends the waiting leaves' states, in order. */
    method BlockingInfer(client: Client<S>, call: nat, batch: seq<Waiting<S>>)
        returns (priors: seq<Priors>, values: seq<real>, ghost observed: seq<S>)
      ensures |observed| == |batch| && forall i :: 0 <= i < |batch| ==> observed[i] == batch[i].env
      ensures client(call, observed) == (priors, values)
      ensures AnswersAll(client) ==> |priors| >= |batch| && |values| >= |batch|
    {
      var observations := seq(|batch|, i requires 0 <= i < |batch| => batch[i].env);
      assert AnswersAll(client) ==> AnswersCall(client, call, observations);
      var answer := client(call, observations);
      priors, values, observed := answer.0, answer.1, observations;
    }

    /** The second half of a batch with waiting leaves: one call, then its answers. */
    method AnswerBatch(root: NodeId, ghost start: S, batch: seq<Waiting<S>>, client: Client<S>, call: nat,
                       ghost evaluate: S -> real, ghost base: multiset<Edge>, ghost r: Rules<S>, ghost m: Moment<S>)
        returns (n: nat, ghost settled: multiset<Edge>, ghost m': Moment<S>)
      requires Valid() && AllWait(game, Graph(), root, start, batch, 0) && root in table && batch != []
      requires pending == base + EdgesOf(batch, 0)
      requires r.game == game && r.client == client && r.batchSize == batchSize && |m.calls| == call
      requires m.graph == Graph() && m.waiting == batch && m.selected == batchSize && !m.answered
      modifies this`nodes, this`table, this`pending
      ensures Valid() && n <= |batch| && AllWait(game, Graph(), root, start, batch, n)
      ensures AnswersAll(client) ==> n == |batch|
      ensures Progress(evaluate, root, old(Graph()), IdsOf(old(nodes)), Graph(), IdsOf(nodes), settled, n, 0)
      ensures pending == base + EdgesOf(batch, n)
      ensures Leads(r, m, m') && AtTurn(m') && m'.graph == Graph() && m'.batch == m.batch + 1
      ensures m'.penalised == m.penalised && |m'.calls| == call + 1
    {
      var priors, values;
      ghost var observed;
      priors, values, observed := BlockingInfer(client, call, batch);
      ghost var c := Call(batch, observed, priors, values);
      ghost var asked := m.(answered := true, settled := 0, calls := m.calls + [c]);
      AskFollows(r, m, asked);
      ghost var graphs;
      n, settled, graphs := SettleBatch(root, start, batch, priors, values, evaluate, base);
      SettlesLead(r, asked, c, batch, graphs, n);
      ghost var done := asked.(graph := Graph(), settled := n);
      m' := done.(batch := done.batch + 1, selected := 0, waiting := [], answered := false, settled := 0);
      TurnFollows(r, done, m');
      LeadsBetween(r, m, asked, done, m');
    }

    /** One batch of `run`: select, infer, expand and settle. `call` numbers the client's calls. */
    method RunBatch(root: NodeId, env: S, client: Client<S>, call: nat, cPuct: real,
                    evaluate: S -> real, forced: bool, ghost r: Rules<S>, ghost m: Moment<S>)
        returns (call': nat, ghost settled: multiset<Edge>, ghost count: nat, ghost repeats: nat,
                 ghost leaked: multiset<Edge>, ghost unanswered: nat, ghost m': Moment<S>)
      requires Valid() && game.hash(env) == root && root in table && !game.done(env)
      requires Governs(r, root, env, cPuct, forced, evaluate) && r.client == client
      requires AtTurn(m) && m.graph == Graph() && |m.calls| == call
      modifies this`nodes, this`table, this`pending
      ensures Valid()
      ensures Progress(evaluate, root, old(Graph()), IdsOf(old(nodes)), Graph(), IdsOf(nodes), settled, count, repeats)
      ensures count + unanswered == if old(Graph())[root].valid == [] then 0 else batchSize
      ensures pending == old(pending) + leaked && (leaked == multiset{} <==> unanswered == 0)
      ensures AnswersAll(client) ==> unanswered == 0
      ensures Leads(r, m, m') && AtTurn(m') && m'.graph == Graph() && m'.batch == m.batch + 1 && |m'.calls| == call'
      ensures |m'.penalised| == |m.penalised| + repeats
    {
      ghost var ga, idsa := Graph(), IdsOf(nodes);
      ghost var full;
      var batch;
      batch, settled, count, repeats, full := CollectBatch(root, env, cPuct, forced, evaluate, r, m);
      call', leaked, unanswered := call, multiset{}, 0;
      if batch == [] {
        AddThenRemove(old(pending), multiset{});
        m' := full.(batch := full.batch + 1, selected := 0, waiting := [], answered := false, settled := 0);
        TurnFollows(r, full, m');
        LeadsOn(r, m, full, m');
        return;
      }
      ghost var g1, ids1 := Graph(), IdsOf(nodes);
      var n;
      ghost var s;
      n, s, m' := AnswerBatch(root, env, batch, client, call, evaluate, old(pending), r, full);
      call' := call + 1;
      LeadsTrans(r, m, full, m');
      ProgressChain(evaluate, root, ga, idsa, g1, ids1, Graph(), IdsOf(nodes), settled, count, repeats, s, n, 0);
      settled, count := settled + s, count + n;
      leaked, unanswered := EdgesOf(batch, n), |batch| - n;
      EdgesOfWaiting(game, Graph(), root, env, batch, n);
    }

    /** The root's node, created from the client's first answer or the terminal evaluator when it is missing. */
    method EnsureRoot(env: S, client: Client<S>, evaluate: S -> real, ghost r: Rules<S>)
        returns (root: NodeId, call: nat, ghost m: Moment<S>)
      requires Valid()
      requires game.hash(env) in table || game.done(env) || (client(0, [env]).0 != [] && client(0, [env]).1 != [])
      requires r.game == game && r.evaluate == evaluate && r.client == client && r.root == game.hash(env) && r.env == env
      modifies this`nodes, this`table, this`rootId
      ensures Valid() && pending == old(pending) && root == game.hash(env) && root in table && rootId == Some(root)
      ensures Progress(evaluate, root, old(Graph()), IdsOf(old(nodes)), Graph(), IdsOf(nodes), multiset{}, 0, 0)
      ensures Starts(r, old(Graph()), m) && m.graph == Graph() && |m.calls| == call
    {
      root, call := game.hash(env), 0;
      rootId := Some(root);
      m := Moment(Graph(), 0, 0, [], false, 0, [], multiset{});
      if NodeExists(root) {
        ProgressNone(evaluate, root, Graph(), IdsOf(nodes));
        return;
      }
      var priors: Priors, value := map[], 0.0;
      if game.done(env) {
        value := evaluate(env);
      } else {
        var answer := client(call, [env]);
        call := call + 1;
        priors, value := answer.0[0], answer.1[0];
        m := m.(calls := [Call([], [env], answer.0, answer.1)]);
      }
      ghost var g, ids := Graph(), IdsOf(nodes);
      ghost var made;
      root, made := EnsureNode(env, priors, value);
      m := m.(graph := Graph());
      RootStarts(r, g, m, priors, value);
      ProgressCreate(game, evaluate, g, ids, env, priors, value, made, pending);
    }

    /** The source's ceiling division; with no steps and no batch it underflows. */
    function NumBatches(numSteps: nat): nat
      requires numSteps + batchSize > 0
    {
      (numSteps + batchSize - 1) / (if batchSize > 1 then batchSize else 1)
    }

    /** The playouts a run makes: whole batches, from a non-terminal state with a valid action. */
    function Playouts(env: S, numSteps: nat): nat
      requires numSteps + batchSize > 0
    {
      if game.done(env) || game.valid(env) == [] then 0 else NumBatches(numSteps) * batchSize
    }

    /** Rounded up to whole batches: enough for the steps asked for, and less than one batch more. */
    lemma PlayoutsRoundUp(env: S, numSteps: nat)
      requires batchSize > 0 && !game.done(env) && game.valid(env) != []
      ensures numSteps <= Playouts(env, numSteps) < numSteps + batchSize
    {
      var q := (numSteps + batchSize - 1) / batchSize;
      assert q * batchSize + (numSteps + batchSize - 1) % batchSize == numSteps + batchSize - 1;
    }

    lemma OneMoreBatch(i: nat, size: nat, due: nat) returns (more: nat)
      requires due == i * size
      ensures more == due + size == (i + 1) * size
    {
      more := due + size;
    }

    method RunBatches(root: NodeId, env: S, client: Client<S>, firstCall: nat, numBatches: nat, cPuct: real, evaluate: S -> real,
                      forced: bool, ghost r: Rules<S>, ghost m: Moment<S>)
        returns (ghost settled: multiset<Edge>, ghost count: nat, ghost repeats: nat, ghost leaked: multiset<Edge>,
                 ghost unanswered: nat, ghost m': Moment<S>)
      requires Valid() && game.hash(env) == root && root in table && !game.done(env)
      requires Governs(r, root, env, cPuct, forced, evaluate) && r.client == client
      requires AtTurn(m) && m.graph == Graph() && |m.calls| == firstCall
      modifies this`nodes, this`table, this`pending
      ensures Valid()
      ensures Progress(evaluate, root, old(Graph()), IdsOf(old(nodes)), Graph(), IdsOf(nodes), settled, count, repeats)
      ensures count + unanswered == if game.valid(env) == [] then 0 else numBatches * batchSize
      ensures pending == old(pending) + leaked && (leaked == multiset{} <==> unanswered == 0)
      ensures AnswersAll(client) ==> unanswered == 0
      ensures Leads(r, m, m') && AtTurn(m') && m'.graph == Graph() && m'.batch == m.batch + numBatches
      ensures |m'.penalised| == |m.penalised| + repeats
    {
      settled, count, repeats, leaked, unanswered, m' := multiset{}, 0, 0, multiset{}, 0, m;
      ghost var g0, ids0 := Graph(), IdsOf(nodes);
      var call := firstCall;
      ghost var due := 0;
      ProgressNone(evaluate, root, g0, ids0);
      LeadsHere(r, m);
      AddThenRemove(pending, multiset{});
      for i := 0 to numBatches
        invariant Valid() && root in table
        invariant Progress(evaluate, root, g0, ids0, Graph(), IdsOf(nodes), settled, count, repeats)
        invariant due == i * batchSize && count + unanswered == if game.valid(env) == [] then 0 else due
        invariant pending == old(pending) + leaked && (leaked == multiset{} <==> unanswered == 0)
        invariant AnswersAll(client) ==> unanswered == 0
        invariant Leads(r, m, m') && AtTurn(m') && m'.graph == Graph() && m'.batch == m.batch + i && |m'.calls| == call
        invariant |m'.penalised| == |m.penalised| + repeats
      {
        ghost var g1, ids1, m1 := Graph(), IdsOf(nodes), m';
        StoredActions(game, g1, env);
        ghost var s, c, k, l, u;
        call, s, c, k, l, u, m' := RunBatch(root, env, client, call, cPuct, evaluate, forced, r, m1);
        LeadsTrans(r, m, m1, m');
        ProgressChain(evaluate, root, g0, ids0, g1, ids1, Graph(), IdsOf(nodes), settled, count, repeats, s, c, k);
        Reassociate(old(pending), leaked, l);
        settled, count, repeats, leaked, unanswered := settled + s, count + c, repeats + k, leaked + l, unanswered + u;
        due := OneMoreBatch(i, batchSize, due);
      }
    }

    /** The batches of `run` for a start that is not terminal. */
    method RunOn(root: NodeId, env: S, client: Client<S>, call: nat, numSteps: nat, cPuct: real, evaluate: S -> real, forced: bool,
                 ghost r: Rules<S>, ghost g0: Graph, ghost ids0: seq<NodeId>, ghost first: Moment<S>)
        returns (ghost settled: multiset<Edge>, ghost count: nat, ghost repeats: nat, ghost leaked: multiset<Edge>,
                 ghost unanswered: nat, ghost last: Moment<S>)
      requires Valid() && numSteps + batchSize > 0 && root in table && !game.done(env)
      requires Governs(r, root, env, cPuct, forced, evaluate) && r.client == client
      requires Starts(r, g0, first) && first.graph == Graph() && |first.calls| == call
      requires Progress(evaluate, root, g0, ids0, Graph(), IdsOf(nodes), multiset{}, 0, 0)
      modifies this`nodes, this`table, this`pending
      ensures Valid()
      ensures Progress(evaluate, root, g0, ids0, Graph(), IdsOf(nodes), settled, count, repeats)
      ensures count + unanswered == Playouts(env, numSteps)
      ensures pending == old(pending) + leaked && (leaked == multiset{} <==> unanswered == 0)
      ensures AnswersAll(client) ==> unanswered == 0
      ensures Searched(r, g0, first, last, NumBatches(numSteps))
      ensures last.graph == Graph() && |last.penalised| == repeats
    {
      ghost var g1, ids1 := Graph(), IdsOf(nodes);
      settled, count, repeats, leaked, unanswered, last :=
        RunBatches(root, env, client, call, NumBatches(numSteps), cPuct, evaluate, forced, r, first);
      ProgressChain(evaluate, root, g0, ids0, g1, ids1, Graph(), IdsOf(nodes), multiset{}, 0, 0, settled, count, repeats);
      AddThenRemove(settled, multiset{});
    }

    /** The search of `run`, up to the clearing of the root noise. */
    method RunFrom(env: S, client: Client<S>, numSteps: nat, cPuct: real, evaluate: S -> real, forced: bool, ghost r: Rules<S>)
        returns (root: NodeId, ghost settled: multiset<Edge>, ghost count: nat, ghost repeats: nat, ghost leaked: multiset<Edge>,
                 ghost unanswered: nat, ghost first: Moment<S>, ghost last: Moment<S>)
      requires Valid() && numSteps + batchSize > 0
      requires game.hash(env) in table || game.done(env) || (client(0, [env]).0 != [] && client(0, [env]).1 != [])
      requires Governs(r, game.hash(env), env, cPuct, forced, evaluate) && r.client == client
      modifies this`nodes, this`table, this`pending, this`rootId
      ensures Valid() && rootId == Some(root) && root == game.hash(env) && root in table
      ensures Progress(evaluate, root, old(Graph()), IdsOf(old(nodes)), Graph(), IdsOf(nodes), settled, count, repeats)
      ensures count + unanswered == Playouts(env, numSteps)
      ensures pending == old(pending) + leaked && (leaked == multiset{} <==> unanswered == 0)
      ensures AnswersAll(client) ==> unanswered == 0
      ensures Searched(r, old(Graph()), first, last, if game.done(env) then 0 else NumBatches(numSteps))
      ensures last.graph == Graph() && |last.penalised| == repeats
    {
      ghost var g0, ids0 := Graph(), IdsOf(nodes);
      var call;
      root, call, first := EnsureRoot(env, client, evaluate, r);
      settled, count, repeats, leaked, unanswered, last := multiset{}, 0, 0, multiset{}, 0, first;
      if game.done(env) {
        LeadsHere(r, first);
        AddThenRemove(pending, multiset{});
      } else {
        settled, count, repeats, leaked, unanswered, last :=
          RunOn(root, env, client, call, numSteps, cPuct, evaluate, forced, r, g0, ids0, first);
      }
    }

    method ClearNoise()
      requires Valid()
      modifies this`noise, this`noiseEps
      ensures Valid() && noise == None && noiseEps == 0.0
    {
      noise, noiseEps := None, 0.0;
    }

    /** `run`: every playout of whole batches is settled, or its client answer is missing and its edges stay pending. It goes
        step by step as `Searched` says, so every node it stores holds the evaluator's value or the first answer about its
        state (`Learned`), every call is the client's answer to the states of exactly the waiting leaves (`CallOk`), and a
        penalty drops by one share for each repeat its edge ends (`Dropped`). A terminal start returns early and keeps the
        root noise. */
    method Run(env: S, client: Client<S>, numSteps: nat, cPuct: real, evaluate: S -> real, forced: bool)
        returns (result: Node, ghost settled: multiset<Edge>, ghost count: nat, ghost repeats: nat, ghost leaked: multiset<Edge>,
                 ghost unanswered: nat, ghost r: Rules<S>, ghost first: Moment<S>, ghost last: Moment<S>)
      requires Valid() && numSteps + batchSize > 0
      requires game.hash(env) in table || game.done(env) || (client(0, [env]).0 != [] && client(0, [env]).1 != [])
      modifies this`nodes, this`table, this`pending, this`rootId, this`noise, this`noiseEps
      ensures Valid() && rootId == Some(game.hash(env)) && game.hash(env) in Graph() && result == Graph()[game.hash(env)]
      ensures if game.done(env) then noise == old(noise) && noiseEps == old(noiseEps) else noise == None && noiseEps == 0.0
      ensures Progress(evaluate, game.hash(env), old(Graph()), IdsOf(old(nodes)), Graph(), IdsOf(nodes), settled, count, repeats)
      ensures count + unanswered == Playouts(env, numSteps)
      ensures pending == old(pending) + leaked && (leaked == multiset{} <==> unanswered == 0)
      ensures AnswersAll(client) ==> unanswered == 0
      ensures r == Rules(game, old(Knobs(cPuct, forced)), evaluate, client, game.hash(env), env, batchSize)
      ensures Searched(r, old(Graph()), first, last, if game.done(env) then 0 else NumBatches(numSteps))
      ensures last.graph == Graph() && |last.penalised| == repeats
      ensures Learned(game, evaluate, last.calls, old(Graph()), Graph())
      ensures forall k: nat :: CallOk(r, last.calls, k)
      ensures Dropped(old(Graph()), Graph(), last.penalised)
    {
      var root;
      ghost var g0 := Graph();
      r := Rules(game, Knobs(cPuct, forced), evaluate, client, game.hash(env), env, batchSize);
      root, settled, count, repeats, leaked, unanswered, first, last :=
        RunFrom(env, client, numSteps, cPuct, evaluate, forced, r);
      SearchedMeans(r, g0, first, last, last.batch);
      if !game.done(env) {
        ClearNoise();
      }
      result := GetNode(root).value;
    }

    // ----- advancing the root -----

    /** Pushes the children not yet visited. */
    method PushChildren(n: Node, reachable: set<NodeId>, queue: seq<NodeId>) returns (queue': seq<NodeId>)
      ensures queue <= queue'
      ensures forall a: Act :: n.Child(a).Some? ==> n.Child(a).value in reachable || n.Child(a).value in queue'
      ensures forall id :: id in queue' ==> id in queue || HasChild(n, id)
    {
      queue' := queue;
      for a := 0 to |n.children|
        invariant queue <= queue'
        invariant forall b: Act :: b < a && n.Child(b).Some? ==> n.Child(b).value in reachable || n.Child(b).value in queue'
        invariant forall id :: id in queue' ==> id in queue || HasChild(n, id)
      {
        if n.children[a].Some? && n.children[a].value !in reachable {
          assert n.Child(a) == Some(n.children[a].value);
          queue' := queue' + [n.children[a].value];
        }
      }
    }

    ghost predicate Frontier(g: Graph, reachable: set<NodeId>, queue: seq<NodeId>, id: NodeId) {
      id in reachable && id in g ==>
        forall a: Act :: g[id].Child(a).Some? ==> g[id].Child(a).value in reachable || g[id].Child(a).value in queue
    }

    /** The breadth-first search: exactly the ids reachable from `start`, on any cyclic graph. */
    method Reach(start: NodeId) returns (reachable: set<NodeId>)
      requires Indexed(nodes, table) && Coherent(game, Graph()) && start in table
      ensures reachable <= Graph().Keys && Closed(Graph(), reachable)
      ensures forall id :: id in reachable <==> Reachable(Graph(), start, id)
    {
      ghost var g := Graph();
      reachable := {};
      var queue := [start];
      ReachableStart(g, start);
      while queue != []
        invariant start in reachable || start in queue
        invariant forall id :: id in queue ==> id in g && Reachable(g, start, id)
        invariant forall id :: id in reachable ==> id in g && Reachable(g, start, id)
        invariant forall id :: Frontier(g, reachable, queue, id)
        decreases g.Keys - reachable, |queue|
      {
        ghost var before := queue;
        var id := queue[0];
        queue := queue[1..];
        forall k ensures k != id ==> (k in before <==> k in queue) {
        }
        if id in reachable {
          forall k ensures Frontier(g, reachable, queue, k) {
            assert Frontier(g, reachable, before, k);
          }
        } else {
          ghost var visited := reachable;
          reachable := reachable + {id};
          var n := GetNode(id);
          if n.Some? {
            ghost var popped := queue;
            queue := PushChildren(n.value, reachable, queue);
            forall k | k in queue ensures k in g && Reachable(g, start, k) {
              if k !in popped {
                ReachableChild(g, start, id, k);
              }
            }
            forall k ensures Frontier(g, reachable, queue, k) {
              assert Frontier(g, visited, before, k);
            }
          }
        }
      }
      forall id ensures id in reachable ==> ChildrenWithin(g, id, reachable) {
        assert Frontier(g, reachable, queue, id);
      }
      forall id | Reachable(g, start, id) ensures id in reachable {
        ClosedHoldsReachable(g, reachable, start, id);
      }
    }

    lemma ReachableChild(g: Graph, start: NodeId, m: NodeId, child: NodeId)
      requires Coherent(game, g) && Reachable(g, start, m) && m in g && HasChild(g[m], child)
      ensures child in g && Reachable(g, start, child)
    {
      assert Steps(g, m, child) && NodeCoherent(game, g, m);
      ReachableStep(g, start, m, child);
    }

    /** Rebuilds the arena and the table from the kept nodes, in their original order. */
    method Prune(keep: set<NodeId>)
      requires Indexed(nodes, table)
      modifies this`nodes, this`table
      ensures Indexed(nodes, table) && nodes == KeptNodes(old(nodes), keep)
      ensures Graph() == Restricted(old(Graph()), keep)
    {
      var kept: seq<Node>, keptTable: Table := [], map[];
      for i := 0 to |nodes|
        invariant nodes == old(nodes) && table == old(table)
        invariant kept == KeptNodes(nodes[..i], keep) && Indexed(kept, keptTable)
        invariant forall id :: id in keptTable <==> id in table && table[id] < i && id in keep
        invariant GraphOf(kept, keptTable) == map id | id in keptTable :: Graph()[id]
      {
        KeptStep(nodes, table, keep, i, kept, keptTable);
        var n := nodes[i];
        if n.id in keep {
          var newIdx := |kept|;
          keptTable := keptTable[n.id := newIdx];
          kept := kept + [n];
        }
      }
      assert nodes[..|nodes|] == nodes;
      forall id | id in table ensures table[id] < |nodes| {
        assert EntryOk(nodes, table, id);
      }
      nodes, table := kept, keptTable;
    }

    /** From a stored root with a child in this action's slot, the next root is that child: the hash of every state the action
        leads to from a state of the root. Otherwise there is none. */
    ghost predicate MovesTo(g: Graph, root: Option<NodeId>, action: Act, next: Option<NodeId>) {
      if root.Some? && root.value in g && action < |g[root.value].children| && g[root.value].children[action].Some? then
        && next == g[root.value].children[action]
        && forall s: S :: game.hash(s) == root.value ==> next == Some(game.hash(game.step(s, action)))
      else next == None
    }

    /** Makes a known child the root and drops everything it cannot reach. */
    method AdvanceTo(child: NodeId)
      requires Valid() && child in table
      modifies this`nodes, this`table, this`rootId, this`pending
      ensures Valid() && rootId == Some(child) && child in Graph()
      ensures nodes == KeptNodes(old(nodes), Graph().Keys) && Graph() == Restricted(old(Graph()), Graph().Keys)
      ensures forall id :: id in Graph() <==> Reachable(old(Graph()), child, id)
      ensures pending == RestrictedEdges(old(pending), Graph().Keys)
    {
      ghost var g := Graph();
      rootId := Some(child);
      var reachable := Reach(child);
      ReachableStart(g, child);
      RestrictedKeeps(game, g, reachable, pending);
      Prune(reachable);
      pending := RestrictedEdges(pending, reachable);
      assert Graph().Keys == reachable;
    }

    /** `advance_root`: to a known child it keeps exactly the nodes reachable from that child; otherwise it
        forgets the root and keeps the tree. */
    method AdvanceRoot(action: Act)
      requires Valid()
      modifies this`nodes, this`table, this`rootId, this`pending
      ensures Valid() && MovesTo(old(Graph()), old(rootId), action, rootId)
      ensures rootId == None ==> nodes == old(nodes) && table == old(table) && pending == old(pending)
      ensures rootId.Some? ==>
        && rootId.value in Graph()
        && nodes == KeptNodes(old(nodes), Graph().Keys) && Graph() == Restricted(old(Graph()), Graph().Keys)
        && (forall id :: id in Graph() <==> Reachable(old(Graph()), rootId.value, id))
        && pending == RestrictedEdges(old(pending), Graph().Keys)
    {
      if rootId.None? { return; }
      var oldRoot := GetNode(rootId.value);
      if oldRoot.None? {
        rootId := None;
        return;
      }
      var child := oldRoot.value.Child(action);
      if child.Some? {
        ghost var g, root := Graph(), rootId.value;
        assert NodeCoherent(game, g, root);
        forall s: S | game.hash(s) == root ensures child == Some(game.hash(game.step(s, action))) {
          ChildHash(game, g, s, root, action);
        }
        AdvanceTo(child.value);
      } else {
        rootId := None;
      }
    }

    // ----- whole sessions -----

    /** What holds between any two calls of a session: nothing pending, no virtual loss, every count settled,
        every value at most 1. */
    ghost predicate AtRest()
      reads this
    {
      && Valid() && pending == multiset{}
      && (forall id :: id in Graph() ==> Sum(Graph()[id].losses) == 0 && SettledNode(Graph()[id]))
      && UpperBounded(Graph(), None)
    }

    lemma RestsWhenNothingPends()
      requires Valid() && pending == multiset{} && UpperBounded(Graph(), None)
      ensures AtRest()
    {
      ClearIffSettled(Graph(), pending);
      AllSettled(Graph(), pending);
    }

    /** A search with these arguments, step by step, with some settings of the root. */
    ghost predicate SearchedWith(r: Rules<S>, env: S, forced: bool, numSteps: nat, client: Client<S>, cPuct: real,
                                 evaluate: S -> real, g: Graph, g': Graph)
      requires numSteps + batchSize > 0
    {
      && r == Rules(game, r.t, evaluate, client, game.hash(env), env, batchSize)
      && r.t.cPuct == cPuct && r.t.forced == forced && r.t.sqrt == sqrt && r.t.pow == pow
      && Performs(r, g, g', if game.done(env) then 0 else NumBatches(numSteps))
    }

    /** What a command does to the graph and the root: a search makes its playouts from its start, step by step, and forgets
        nothing; a move of the root goes to the child and keeps exactly what that child reaches, or forgets the root and keeps
        the graph. */
    ghost predicate Effect(c: Command<S>, client: Client<S>, cPuct: real, evaluate: S -> real, g: Graph, root: Option<NodeId>,
                           g': Graph, root': Option<NodeId>) {
      match c
      case RunSearch(env, numSteps, forced) =>
        && numSteps + batchSize > 0 && root' == Some(game.hash(env)) && game.hash(env) in g' && Evolves(g, g')
        && TotalVisits(g', game.hash(env)) == TotalVisits(g, game.hash(env)) + Playouts(env, numSteps)
        && exists r :: SearchedWith(r, env, forced, numSteps, client, cPuct, evaluate, g, g')
      case Advance(action) =>
        && MovesTo(g, root, action, root')
        && if root'.None? then g' == g
           else root'.value in g' && g' == Restricted(g, g'.Keys) && forall id :: id in g' <==> Reachable(g, root'.value, id)
    }

    method SearchCommand(env: S, client: Client<S>, numSteps: nat, cPuct: real,
                         evaluate: S -> real, forced: bool)
      requires AtRest() && numSteps + batchSize > 0 && AnswersAll(client) && TerminalsAtMostOne(evaluate)
      modifies this`nodes, this`table, this`pending, this`rootId, this`noise, this`noiseEps
      ensures AtRest()
      ensures Effect(RunSearch(env, numSteps, forced), client, cPuct, evaluate, old(Graph()), old(rootId), Graph(), rootId)
    {
      assert AnswersCall(client, 0, [env]);
      var result;
      ghost var settled, count, repeats, leaked, unanswered, r, first, last;
      result, settled, count, repeats, leaked, unanswered, r, first, last :=
        Run(env, client, numSteps, cPuct, evaluate, forced);
      AddThenRemove(old(pending), multiset{});
      RestsWhenNothingPends();
      assert Performs(r, old(Graph()), Graph(), if game.done(env) then 0 else NumBatches(numSteps));
      assert SearchedWith(r, env, forced, numSteps, client, cPuct, evaluate, old(Graph()), Graph());
    }

    method AdvanceCommand(action: Act, ghost client: Client<S>, ghost cPuct: real, ghost evaluate: S -> real)
      requires AtRest()
      modifies this`nodes, this`table, this`rootId, this`pending
      ensures AtRest() && Effect(Advance(action), client, cPuct, evaluate, old(Graph()), old(rootId), Graph(), rootId)
    {
      ghost var g := Graph();
      AdvanceRoot(action);
      RestrictedBounds(g, Graph().Keys);
      RestsWhenNothingPends();
    }

    /** Command `i` of a session leads from its state before to its state after. */
    ghost predicate Obeys(commands: seq<Command<S>>, client: Client<S>, cPuct: real, evaluate: S -> real,
                          states: seq<(Graph, Option<NodeId>)>, i: nat) {
      i + 1 < |states| ==>
        && i < |commands|
        && Effect(commands[i], client, cPuct, evaluate, states[i].0, states[i].1, states[i + 1].0, states[i + 1].1)
    }

    /** Any sequence of searches and root advances, with a client that answers every observation: each has its effect, in order,
        and the end is at rest. */
    method Session(commands: seq<Command<S>>, client: Client<S>, cPuct: real, evaluate: S -> real)
        returns (ghost states: seq<(Graph, Option<NodeId>)>)
      requires AtRest() && AnswersAll(client) && TerminalsAtMostOne(evaluate)
      requires forall i :: 0 <= i < |commands| && commands[i].RunSearch? ==> commands[i].numSteps + batchSize > 0
      modifies this`nodes, this`table, this`pending, this`rootId, this`noise, this`noiseEps
      ensures AtRest()
      ensures |states| == |commands| + 1 && states[0] == (old(Graph()), old(rootId)) && states[|commands|] == (Graph(), rootId)
      ensures forall i: nat :: Obeys(commands, client, cPuct, evaluate, states, i)
    {
      states := [(Graph(), rootId)];
      for i := 0 to |commands|
        invariant AtRest()
        invariant |states| == i + 1 && states[0] == (old(Graph()), old(rootId)) && states[i] == (Graph(), rootId)
        invariant forall k: nat :: Obeys(commands, client, cPuct, evaluate, states, k)
      {
        ghost var before := states;
        match commands[i] {
          case RunSearch(env, numSteps, forced) => SearchCommand(env, client, numSteps, cPuct, evaluate, forced);
          case Advance(action) => AdvanceCommand(action, client, cPuct, evaluate);
        }
        states := states + [(Graph(), rootId)];
        forall k: nat ensures Obeys(commands, client, cPuct, evaluate, states, k) {
          assert Obeys(commands, client, cPuct, evaluate, before, k);
        }
      }
    }

    // ----- the training target -----

    method PolicyTarget(cPuct: real) returns (target: Option<Priors>)
      requires Valid()
      ensures target == if rootId.Some? && rootId.value in Graph()
                        then (assert NodeCoherent(game, Graph(), rootId.value);
                              TargetOf(Knobs(cPuct, false), Graph(), Graph()[rootId.value]))
                        else None
    {
      if rootId.None? { return None; }
      var n := GetNode(rootId.value);
      if n.None? { return None; }
      assert NodeCoherent(game, Graph(), rootId.value);
      target := ComputeTarget(Knobs(cPuct, false), Graph(), n.value);
    }
  }
}
