/**
 * `run` step by step: a search is a sequence of moments, each the next selection of the batch, the
 * call to the client, the settling of the next answer, or the turn to the next batch
 * (mcts-core/src/mcts.rs). What such a sequence leaves in the nodes is read off it here.
 */
module SearchTrace {
  import opened Wrappers
  import opened Sums
  import opened Environment
  import opened SearchNode
  import opened SearchGraph
  import opened Backpropagation
  import opened Puct
  import opened Selection
  import opened Expansion
  import opened Accounting

  /** The arguments of a search that do not change while it runs. */
  datatype Rules<!S> = Rules(game: Game<S>, t: Tuning, evaluate: S -> real, client: Client<S>,
                             root: NodeId, env: S, batchSize: nat)

  /** One call of the client: the leaves it is about, the states sent, and what came back. */
  datatype Call<S> = Call(leaves: seq<Waiting<S>>, observed: seq<S>, priors: seq<Priors>, values: seq<real>)

  /**
   * The state of a search between two steps: `answered` says that the last call is this batch's,
   * `settled` how many of its answers are backed up, `penalised` which edges ended a repeat so far.
   */
  datatype Moment<S> = Moment(graph: Graph, batch: nat, selected: nat, waiting: seq<Waiting<S>>, answered: bool,
                              settled: nat, calls: seq<Call<S>>, penalised: multiset<Edge>)

  function Last(path: Path): Edge
    requires path != []
  {
    path[|path| - 1]
  }

  // ----- the steps -----

  ghost predicate Backed<S(!new)>(game: Game<S>, g: Graph, mid: Graph, g': Graph, path: Path, s: S, priors: Priors, value: real) {
    path != [] && ExpandsTo(game, g, mid, Last(path), s, priors, value) && g' == Backprop(mid, path, false)
  }

  /** The path's end is expanded with an answer and the path is backed up. */
  ghost predicate ExpandedAndBacked<S(!new)>(game: Game<S>, g: Graph, g': Graph, path: Path, s: S, priors: Priors, value: real) {
    exists mid :: Backed(game, g, mid, g', path, s, priors, value)
  }

  /** What one selection does, having walked `w`, to the graph and to the waiting leaves. */
  ghost predicate PlaysOut<S(!new)>(r: Rules<S>, w: Walked<S>, g: Graph, g': Graph, more: seq<Waiting<S>>,
                                    repeated: multiset<Edge>) {
    && Ready(r.game, r.t, g, r.root, r.env) && w == Walk(r.game, r.t, g, r.root, r.root, r.env, [])
    && if w.path == [] then g' == w.graph && more == [] && repeated == multiset{}
       else if w.repeat then
         g' == Backprop(w.graph, w.path, true) && more == [] && repeated == multiset{Last(w.path)}
       else if r.game.done(w.final) then
         && ExpandedAndBacked(r.game, w.graph, g', w.path, w.final, map[], r.evaluate(w.final))
         && more == [] && repeated == multiset{}
       else
         && g' == w.graph && repeated == multiset{}
         && more == [Waiting(w.path, Last(w.path).0, Last(w.path).1, w.final)]
  }

  ghost predicate Plays<S(!new)>(r: Rules<S>, g: Graph, g': Graph, more: seq<Waiting<S>>, repeated: multiset<Edge>) {
    exists w :: PlaysOut(r, w, g, g', more, repeated)
  }

  ghost predicate Selects<S(!new)>(r: Rules<S>, m: Moment<S>, m': Moment<S>) {
    && m.selected < r.batchSize && !m.answered
    && |m.waiting| <= |m'.waiting| && m'.waiting[..|m.waiting|] == m.waiting
    && m.penalised <= m'.penalised
    && Plays(r, m.graph, m'.graph, m'.waiting[|m.waiting|..], m'.penalised - m.penalised)
    && m' == m.(graph := m'.graph, selected := m.selected + 1, waiting := m'.waiting, penalised := m'.penalised)
  }

  /** The call sends exactly the waiting leaves' states, in order, and holds the client's answer to them. */
  ghost predicate Asked<S(!new)>(r: Rules<S>, c: Call<S>, number: nat) {
    && |c.observed| == |c.leaves|
    && (forall i :: 0 <= i < |c.leaves| ==> c.observed[i] == c.leaves[i].env)
    && r.client(number, c.observed) == (c.priors, c.values)
  }

  ghost predicate Asks<S(!new)>(r: Rules<S>, m: Moment<S>, m': Moment<S>) {
    && m.selected == r.batchSize && !m.answered && m.waiting != []
    && |m'.calls| == |m.calls| + 1 && m'.calls[..|m.calls|] == m.calls
    && m'.calls[|m.calls|].leaves == m.waiting && Asked(r, m'.calls[|m.calls|], |m.calls|)
    && m' == m.(answered := true, settled := 0, calls := m'.calls)
  }

  /** Answer `i` of a call: there is a state, a prior map and a value. */
  predicate HasAnswer<S>(c: Call<S>, i: nat) {
    i < |c.observed| && i < |c.priors| && i < |c.values|
  }

  ghost predicate Settles<S(!new)>(r: Rules<S>, m: Moment<S>, m': Moment<S>) {
    && m.answered && m.calls != []
    && var c := m.calls[|m.calls| - 1];
       && HasAnswer(c, m.settled) && m.settled < |c.leaves|
       && ExpandedAndBacked(r.game, m.graph, m'.graph, c.leaves[m.settled].path, c.observed[m.settled],
                            c.priors[m.settled], c.values[m.settled])
       && m' == m.(graph := m'.graph, settled := m.settled + 1)
  }

  /** The batch is over: nothing waited, or every answer there is has been settled. */
  ghost predicate Turns<S(!new)>(r: Rules<S>, m: Moment<S>, m': Moment<S>) {
    && m.selected == r.batchSize
    && (if m.answered then m.calls != [] && !HasAnswer(m.calls[|m.calls| - 1], m.settled) else m.waiting == [])
    && m' == m.(batch := m.batch + 1, selected := 0, waiting := [], answered := false, settled := 0)
  }

  ghost predicate Follows<S(!new)>(r: Rules<S>, m: Moment<S>, m': Moment<S>) {
    && Evolves(m.graph, m'.graph)
    && (Selects(r, m, m') || Asks(r, m, m') || Settles(r, m, m') || Turns(r, m, m'))
  }

  ghost predicate StepsAt<S(!new)>(r: Rules<S>, trace: seq<Moment<S>>, i: nat) {
    i + 1 < |trace| ==> Follows(r, trace[i], trace[i + 1])
  }

  ghost predicate Unfolds<S(!new)>(r: Rules<S>, trace: seq<Moment<S>>) {
    trace != [] && forall i: nat :: StepsAt(r, trace, i)
  }

  ghost predicate Connects<S(!new)>(r: Rules<S>, trace: seq<Moment<S>>, m: Moment<S>, m': Moment<S>) {
    Unfolds(r, trace) && trace[0] == m && trace[|trace| - 1] == m'
  }

  /** Some sequence of steps leads from one moment to the other. */
  ghost predicate Leads<S(!new)>(r: Rules<S>, m: Moment<S>, m': Moment<S>) {
    exists trace :: Connects(r, trace, m, m')
  }

  lemma LeadsHere<S(!new)>(r: Rules<S>, m: Moment<S>)
    ensures Leads(r, m, m)
  {
    forall i: nat ensures StepsAt(r, [m], i) {
    }
    assert Connects(r, [m], m, m);
  }

  lemma LeadsOn<S(!new)>(r: Rules<S>, m: Moment<S>, m1: Moment<S>, m2: Moment<S>)
    requires Leads(r, m, m1) && Follows(r, m1, m2)
    ensures Leads(r, m, m2)
  {
    var trace :| Connects(r, trace, m, m1);
    var longer := trace + [m2];
    forall i: nat ensures StepsAt(r, longer, i) {
      assert StepsAt(r, trace, i);
    }
    assert Connects(r, longer, m, m2);
  }

  lemma {:induction false} LeadsAlong<S(!new)>(r: Rules<S>, trace: seq<Moment<S>>, m: Moment<S>, m1: Moment<S>, m2: Moment<S>)
    requires Leads(r, m, m1) && Connects(r, trace, m1, m2)
    ensures Leads(r, m, m2)
    decreases |trace|
  {
    if |trace| > 1 {
      var front := trace[..|trace| - 1];
      forall i: nat ensures StepsAt(r, front, i) {
        assert StepsAt(r, trace, i);
      }
      assert Connects(r, front, m1, front[|front| - 1]);
      LeadsAlong(r, front, m, m1, front[|front| - 1]);
      assert StepsAt(r, trace, |trace| - 2);
      LeadsOn(r, m, front[|front| - 1], m2);
    }
  }

  lemma LeadsTrans<S(!new)>(r: Rules<S>, m: Moment<S>, m1: Moment<S>, m2: Moment<S>)
    requires Leads(r, m, m1) && Leads(r, m1, m2)
    ensures Leads(r, m, m2)
  {
    var trace :| Connects(r, trace, m1, m2);
    LeadsAlong(r, trace, m, m1, m2);
  }

  // ----- what a node was made from -----

  /** A stored prior is the client's over the client's total on the valid actions; uniform when that total is zero. */
  ghost predicate PriorFrom<S(!new)>(game: Game<S>, n: Node, s: S, priors: Priors, a: Act) {
    var valid, total := game.valid(s), MassOf(priors, game.valid(s));
    && (a in n.valid <==> a in valid && (total == 0.0 || a in priors))
    && (a < |n.priors| && a !in valid ==> n.priors[a] == 0.0)
    && (a < |n.priors| && a in valid && total == 0.0 ==> n.priors[a] == 1.0 / |valid| as real)
    && (a < |n.priors| && a in valid && total != 0.0 && a in priors ==> n.priors[a] == priors[a] / total)
    && (a < |n.priors| && a in valid && total != 0.0 && a !in priors ==> n.priors[a] == 0.0)
  }

  /** A non-terminal node holds this answer to this state: the value cut to [-1, 1], the priors as shares. */
  ghost predicate Judged<S(!new)>(game: Game<S>, n: Node, s: S, priors: Priors, value: real) {
    && n.id == game.hash(s) && !game.done(s) && !n.terminal
    && n.numActions == |n.priors| == game.numActions(s)
    && n.estimate == (if value < -1.0 then -1.0 else if value > 1.0 then 1.0 else value)
    && forall a: Act :: PriorFrom(game, n, s, priors, a)
  }

  ghost predicate TerminalOf<S(!new)>(game: Game<S>, evaluate: S -> real, n: Node, s: S) {
    n.id == game.hash(s) && game.done(s) && n.terminal && n.valid == [] && n.estimate == evaluate(s)
  }

  predicate Answered<S>(calls: seq<Call<S>>, k: nat, i: nat) {
    k < |calls| && HasAnswer(calls[k], i)
  }

  /** Answer `i` of call `k` is not about the state with hash `id`. */
  predicate Elsewhere<S>(game: Game<S>, calls: seq<Call<S>>, id: NodeId, k: nat, i: nat) {
    Answered(calls, k, i) ==> game.hash(calls[k].observed[i]) != id
  }

  /** Answer `i` of call `k` is the first one about the state with hash `id`. */
  ghost predicate FirstAbout<S(!new)>(game: Game<S>, calls: seq<Call<S>>, id: NodeId, k: nat, i: nat) {
    && Answered(calls, k, i) && game.hash(calls[k].observed[i]) == id
    && forall k': nat, i': nat :: k' < k || (k' == k && i' < i) ==> Elsewhere(game, calls, id, k', i')
  }

  ghost predicate AnsweredBy<S(!new)>(game: Game<S>, calls: seq<Call<S>>, n: Node, k: nat, i: nat) {
    && FirstAbout(game, calls, n.id, k, i)
    && Judged(game, n, calls[k].observed[i], calls[k].priors[i], calls[k].values[i])
  }

  /** A node comes from the terminal evaluator, or from the first answer about its state. */
  ghost predicate Known<S(!new)>(game: Game<S>, evaluate: S -> real, calls: seq<Call<S>>, n: Node) {
    if n.terminal then exists s :: TerminalOf(game, evaluate, n, s)
    else exists k: nat, i: nat :: AnsweredBy(game, calls, n, k, i)
  }

  ghost predicate KnownIn<S(!new)>(game: Game<S>, evaluate: S -> real, calls: seq<Call<S>>, g0: Graph, g: Graph, id: NodeId) {
    id in g && id !in g0 ==> Known(game, evaluate, calls, g[id])
  }

  /** Every node stored since `g0` is known. */
  ghost predicate Learned<S(!new)>(game: Game<S>, evaluate: S -> real, calls: seq<Call<S>>, g0: Graph, g: Graph) {
    forall id :: KnownIn(game, evaluate, calls, g0, g, id)
  }

  /** Answers already used: all of the earlier calls, the settled ones of the current call. */
  predicate Used<S>(m: Moment<S>, k: nat, i: nat) {
    Answered(m.calls, k, i) && (m.answered && k == |m.calls| - 1 ==> i < m.settled)
  }

  predicate UsedStored<S>(game: Game<S>, m: Moment<S>, k: nat, i: nat) {
    Used(m, k, i) ==> game.hash(m.calls[k].observed[i]) in m.graph
  }

  ghost predicate LearnedAt<S(!new)>(r: Rules<S>, g0: Graph, m: Moment<S>) {
    && Learned(r.game, r.evaluate, m.calls, g0, m.graph)
    && forall k: nat, i: nat :: UsedStored(r.game, m, k, i)
  }

  lemma DivisionIsShare(x: real, total: real)
    requires total != 0.0
    ensures x / total == Share(x, total)
  {
  }

  lemma CreatedPrior<S(!new)>(game: Game<S>, s: S, priors: Priors, value: real, n: Node, a: Act)
    requires Lawful(game) && !game.done(s) && Created(game, s, Normalized(priors, game.valid(s)), value, n)
    ensures PriorFrom(game, n, s, priors, a)
  {
    var valid, total := game.valid(s), MassOf(priors, game.valid(s));
    var normalized := Normalized(priors, valid);
    assert a in n.valid <==> a in normalized;
    if a in valid {
      assert a < game.numActions(s);
    }
  }

  /** A created node holds its answer, number by number. */
  lemma CreatedJudged<S(!new)>(game: Game<S>, s: S, priors: Priors, value: real, n: Node)
    requires Lawful(game) && Created(game, s, Normalized(priors, game.valid(s)), value, n)
    ensures if game.done(s) then n.id == game.hash(s) && n.terminal && n.valid == [] && n.estimate == value
            else Judged(game, n, s, priors, value)
  {
    if !game.done(s) {
      forall a: Act ensures PriorFrom(game, n, s, priors, a) {
        CreatedPrior(game, s, priors, value, n, a);
      }
    }
  }

  // ----- what every step keeps -----

  /** Same links as far as they were set, same identity: what `Known` reads. */
  lemma KnownPersists<S(!new)>(game: Game<S>, evaluate: S -> real, calls: seq<Call<S>>, n: Node, n': Node)
    requires Known(game, evaluate, calls, n) && SameShape(n, n')
    ensures Known(game, evaluate, calls, n')
  {
    if n.terminal {
      var s :| TerminalOf(game, evaluate, n, s);
      assert TerminalOf(game, evaluate, n', s);
    } else {
      var k: nat, i: nat :| AnsweredBy(game, calls, n, k, i);
      forall a: Act ensures PriorFrom(game, n', calls[k].observed[i], calls[k].priors[i], a) {
        assert PriorFrom(game, n, calls[k].observed[i], calls[k].priors[i], a);
      }
      assert AnsweredBy(game, calls, n', k, i);
    }
  }

  /** A further call changes nothing about the first answer. */
  lemma KnownStill<S(!new)>(game: Game<S>, evaluate: S -> real, calls: seq<Call<S>>, more: seq<Call<S>>, n: Node)
    requires Known(game, evaluate, calls, n)
    ensures Known(game, evaluate, calls + more, n)
  {
    if !n.terminal {
      var k: nat, i: nat :| AnsweredBy(game, calls, n, k, i);
      assert (calls + more)[k] == calls[k];
      forall k': nat, i': nat | k' < k || (k' == k && i' < i) ensures Elsewhere(game, calls + more, n.id, k', i') {
        assert Elsewhere(game, calls, n.id, k', i');
      }
      assert AnsweredBy(game, calls + more, n, k, i);
    }
  }

  lemma UsedPersists<S(!new)>(game: Game<S>, m: Moment<S>, m': Moment<S>, k: nat, i: nat)
    requires Evolves(m.graph, m'.graph) && UsedStored(game, m, k, i)
    requires Used(m', k, i) ==> Used(m, k, i) && m'.calls[k] == m.calls[k]
    ensures UsedStored(game, m', k, i)
  {
    if Used(m', k, i) {
      assert EvolvesAt(m.graph, m'.graph, game.hash(m.calls[k].observed[i]));
    }
  }

  /** Steps that store no new node keep what is known. */
  lemma QuietLearns<S(!new)>(r: Rules<S>, g0: Graph, m: Moment<S>, m': Moment<S>)
    requires LearnedAt(r, g0, m) && Evolves(m.graph, m'.graph) && m'.graph.Keys == m.graph.Keys
    requires |m.calls| <= |m'.calls| && m'.calls[..|m.calls|] == m.calls
    requires forall k: nat, i: nat :: Used(m', k, i) ==> Used(m, k, i)
    ensures LearnedAt(r, g0, m')
  {
    forall id ensures KnownIn(r.game, r.evaluate, m'.calls, g0, m'.graph, id) {
      assert KnownIn(r.game, r.evaluate, m.calls, g0, m.graph, id);
      if id in m'.graph && id !in g0 {
        assert EvolvesAt(m.graph, m'.graph, id);
        KnownPersists(r.game, r.evaluate, m.calls, m.graph[id], m'.graph[id]);
        KnownStill(r.game, r.evaluate, m.calls, m'.calls[|m.calls|..], m'.graph[id]);
        assert m.calls + m'.calls[|m.calls|..] == m'.calls;
      }
    }
    forall k: nat, i: nat ensures UsedStored(r.game, m', k, i) {
      assert UsedStored(r.game, m, k, i);
      UsedPersists(r.game, m, m', k, i);
    }
  }

  /** The part of a node that is fixed when it is created. */
  ghost predicate SameJudgement(n: Node, n': Node) {
    && n'.id == n.id && n'.numActions == n.numActions && n'.valid == n.valid && n'.priors == n.priors
    && n'.estimate == n.estimate && n'.terminal == n.terminal
  }

  ghost predicate JudgementKept(g: Graph, g': Graph, id: NodeId) {
    id in g ==> id in g' && SameJudgement(g[id], g'[id])
  }

  ghost predicate JudgementsKept(g: Graph, g': Graph) {
    g'.Keys == g.Keys && forall id :: JudgementKept(g, g', id)
  }

  lemma JudgementsKeptChain(g: Graph, g1: Graph, g2: Graph)
    requires JudgementsKept(g, g1) && JudgementsKept(g1, g2)
    ensures JudgementsKept(g, g2)
  {
    forall id ensures JudgementKept(g, g2, id) {
      assert JudgementKept(g, g1, id) && JudgementKept(g1, g2, id);
    }
  }

  lemma {:induction false} VisitPathJudgements(g: Graph, path: Path)
    ensures JudgementsKept(g, VisitPath(g, path))
    decreases |path|
  {
    if path != [] {
      var e, rest := path[|path| - 1], path[..|path| - 1];
      VisitPathJudgements(VisitEdge(g, e), rest);
      assert JudgementsKept(g, AddEdgeVisit(g, e));
      assert JudgementsKept(AddEdgeVisit(g, e), VisitEdge(g, e));
      JudgementsKeptChain(g, AddEdgeVisit(g, e), VisitEdge(g, e));
      JudgementsKeptChain(g, VisitEdge(g, e), VisitPath(g, path));
    }
  }

  lemma BackpropJudgements(g: Graph, path: Path, repeat: bool)
    ensures JudgementsKept(g, Backprop(g, path, repeat))
  {
    var h, u := RevertPath(g, path), Unsettled(g, path, repeat);
    RevertPathOnlyLosses(g, path);
    forall id ensures JudgementKept(g, h, id) {
      assert KeepsButLosses(g, h, id);
    }
    assert JudgementsKept(h, u);
    VisitPathJudgements(u, path);
    JudgementsKeptChain(g, h, u);
    JudgementsKeptChain(g, u, Backprop(g, path, repeat));
  }

  ghost predicate SamePenalties(g: Graph, g': Graph, id: NodeId) {
    id in g ==> id in g' && g'[id].penalties == g[id].penalties && g'[id].valid == g[id].valid
  }

  ghost predicate PenaltiesKept(g: Graph, g': Graph) {
    g'.Keys == g.Keys && forall id :: SamePenalties(g, g', id)
  }

  lemma PenaltiesKeptChain(g: Graph, g1: Graph, g2: Graph)
    requires PenaltiesKept(g, g1) && PenaltiesKept(g1, g2)
    ensures PenaltiesKept(g, g2)
  {
    forall id ensures SamePenalties(g, g2, id) {
      assert SamePenalties(g, g1, id) && SamePenalties(g1, g2, id);
    }
  }

  lemma {:induction false} VisitPathPenalties(g: Graph, path: Path)
    ensures PenaltiesKept(g, VisitPath(g, path))
    decreases |path|
  {
    if path != [] {
      var e, rest := path[|path| - 1], path[..|path| - 1];
      VisitPathPenalties(VisitEdge(g, e), rest);
      assert PenaltiesKept(g, AddEdgeVisit(g, e));
      assert PenaltiesKept(AddEdgeVisit(g, e), VisitEdge(g, e));
      PenaltiesKeptChain(g, AddEdgeVisit(g, e), VisitEdge(g, e));
      PenaltiesKeptChain(g, VisitEdge(g, e), VisitPath(g, path));
    }
  }

  lemma OnlyLossesPenalties(g: Graph, g': Graph)
    requires OnlyLosses(g, g')
    ensures PenaltiesKept(g, g')
  {
    forall id ensures SamePenalties(g, g', id) {
      assert KeepsButLosses(g, g', id);
    }
  }

  /** Only a repeat changes a penalty, and only its last edge's, by one share of the node's actions. */
  lemma BackpropPenalties(g: Graph, path: Path, repeat: bool)
    ensures Backprop(g, path, repeat).Keys == g.Keys
    ensures path == [] || !repeat ==> PenaltiesKept(g, Backprop(g, path, repeat))
    ensures path != [] && repeat && Last(path).0 in g && g[Last(path).0].valid != [] ==>
              PenaltiesKept(g[Last(path).0 := g[Last(path).0].ApplyPenalty(Last(path).1)], Backprop(g, path, repeat))
  {
    var h, u := RevertPath(g, path), Unsettled(g, path, repeat);
    RevertPathOnlyLosses(g, path);
    OnlyLossesPenalties(g, h);
    VisitPathPenalties(u, path);
    if path != [] && repeat && Last(path).0 in g && g[Last(path).0].valid != [] {
      var e := Last(path);
      assert SamePenalties(g, h, e.0);
      var p := g[e.0 := g[e.0].ApplyPenalty(e.1)];
      forall id ensures SamePenalties(p, u, id) {
        assert SamePenalties(g, h, id);
      }
      PenaltiesKeptChain(p, u, Backprop(g, path, repeat));
    } else {
      assert u.Keys == h.Keys;
      if path == [] || !repeat { PenaltiesKeptChain(g, h, Backprop(g, path, repeat)); }
    }
  }

  // ----- storing a node -----

  /** The node stored for an answer, before and after its path is backed up. */
  ghost predicate Holds<S(!new)>(game: Game<S>, n: Node, s: S, priors: Priors, value: real) {
    if game.done(s) then n.id == game.hash(s) && n.terminal && n.valid == [] && n.estimate == value
    else Judged(game, n, s, priors, value)
  }

  lemma HoldsPersists<S(!new)>(game: Game<S>, n: Node, n': Node, s: S, priors: Priors, value: real)
    requires Holds(game, n, s, priors, value) && SameJudgement(n, n')
    ensures Holds(game, n', s, priors, value)
  {
    if !game.done(s) {
      forall a: Act ensures PriorFrom(game, n', s, priors, a) {
        assert PriorFrom(game, n, s, priors, a);
      }
    }
  }

  lemma ExpansionStores<S(!new)>(game: Game<S>, g: Graph, mid: Graph, e: Edge, s: S, priors: Priors, value: real)
    requires Lawful(game) && ExpandsTo(game, g, mid, e, s, priors, value)
    ensures mid.Keys == g.Keys + {game.hash(s)}
    ensures game.hash(s) !in g ==> Holds(game, mid[game.hash(s)], s, priors, value)
  {
    var n :| AnswerAt(game, g, mid, e, s, priors, value, n);
    var id := game.hash(s);
    if id !in g {
      CreatedJudged(game, s, priors, value, n);
      assert SameJudgement(n, mid[id]);
      HoldsPersists(game, n, mid[id], s, priors, value);
    }
  }

  /** A missing leaf is stored with its answer, and no other node is. */
  lemma ExpandedStores<S(!new)>(game: Game<S>, g: Graph, g': Graph, path: Path, s: S, priors: Priors, value: real)
    requires Lawful(game) && ExpandedAndBacked(game, g, g', path, s, priors, value)
    ensures g'.Keys == g.Keys + {game.hash(s)}
    ensures game.hash(s) !in g ==> Holds(game, g'[game.hash(s)], s, priors, value)
  {
    var mid :| Backed(game, g, mid, g', path, s, priors, value);
    var id := game.hash(s);
    ExpansionStores(game, g, mid, Last(path), s, priors, value);
    BackpropJudgements(mid, path, false);
    assert JudgementKept(mid, g', id);
    if id !in g {
      HoldsPersists(game, mid[id], g'[id], s, priors, value);
    }
  }

  /** A step that stores one known node keeps the rest known. */
  lemma StoreLearns<S(!new)>(r: Rules<S>, g0: Graph, m: Moment<S>, m': Moment<S>, id: NodeId)
    requires Learned(r.game, r.evaluate, m.calls, g0, m.graph) && Evolves(m.graph, m'.graph) && m'.calls == m.calls
    requires m'.graph.Keys == m.graph.Keys + {id}
    requires id !in m.graph ==> Known(r.game, r.evaluate, m.calls, m'.graph[id])
    ensures Learned(r.game, r.evaluate, m'.calls, g0, m'.graph)
  {
    forall k ensures KnownIn(r.game, r.evaluate, m'.calls, g0, m'.graph, k) {
      assert KnownIn(r.game, r.evaluate, m.calls, g0, m.graph, k);
      if k in m.graph && k !in g0 {
        assert EvolvesAt(m.graph, m'.graph, k);
        KnownPersists(r.game, r.evaluate, m.calls, m.graph[k], m'.graph[k]);
      }
    }
  }

  lemma WalkedKeys<S(!new)>(r: Rules<S>, g: Graph)
    requires Ready(r.game, r.t, g, r.root, r.env)
    ensures var w := Walk(r.game, r.t, g, r.root, r.root, r.env, []);
      && w.graph.Keys == g.Keys && OnlyLosses(g, w.graph) && Route(r.game, w.graph, r.env, w.path)
      && w.final == StepAlong(r.game, r.env, w.path)
  {
    WalkRoute(r.game, r.t, g, r.root, r.root, r.env, [], r.env);
  }

  lemma SelectLearns<S(!new)>(r: Rules<S>, g0: Graph, m: Moment<S>, m': Moment<S>)
    requires LearnedAt(r, g0, m) && Selects(r, m, m') && Evolves(m.graph, m'.graph)
    ensures LearnedAt(r, g0, m')
  {
    var w :| PlaysOut(r, w, m.graph, m'.graph, m'.waiting[|m.waiting|..], m'.penalised - m.penalised);
    WalkedKeys(r, m.graph);
    if w.path != [] && !w.repeat && r.game.done(w.final) {
      ExpandedStores(r.game, w.graph, m'.graph, w.path, w.final, map[], r.evaluate(w.final));
      var id := r.game.hash(w.final);
      if id !in m.graph {
        assert TerminalOf(r.game, r.evaluate, m'.graph[id], w.final);
      }
      StoreLearns(r, g0, m, m', id);
      forall k: nat, i: nat ensures UsedStored(r.game, m', k, i) {
        assert UsedStored(r.game, m, k, i);
        UsedPersists(r.game, m, m', k, i);
      }
    } else {
      if w.repeat { BackpropPenalties(w.graph, w.path, true); }
      QuietLearns(r, g0, m, m');
    }
  }

  lemma SettleLearns<S(!new)>(r: Rules<S>, g0: Graph, m: Moment<S>, m': Moment<S>)
    requires Lawful(r.game) && LearnedAt(r, g0, m) && Settles(r, m, m') && Evolves(m.graph, m'.graph)
    requires !r.game.done(m.calls[|m.calls| - 1].observed[m.settled])
    ensures LearnedAt(r, g0, m')
  {
    var k, i := |m.calls| - 1, m.settled;
    var c := m.calls[k];
    var s := c.observed[i];
    ExpandedStores(r.game, m.graph, m'.graph, c.leaves[i].path, s, c.priors[i], c.values[i]);
    var id := r.game.hash(s);
    if id !in m.graph {
      forall k': nat, i': nat | k' < k || (k' == k && i' < i) ensures Elsewhere(r.game, m.calls, id, k', i') {
        assert UsedStored(r.game, m, k', i');
      }
      assert AnsweredBy(r.game, m.calls, m'.graph[id], k, i);
    }
    StoreLearns(r, g0, m, m', id);
    forall k': nat, i': nat ensures UsedStored(r.game, m', k', i') {
      assert UsedStored(r.game, m, k', i');
      if !(k' == k && i' == i) { UsedPersists(r.game, m, m', k', i'); }
    }
  }

  // ----- calls -----

  /** A waiting leaf is a state the search really reached: its path played from the start, and not terminal. */
  ghost predicate Reached<S(!new)>(r: Rules<S>, p: Waiting<S>) {
    && p.path != [] && p.path[0].0 == r.root && Last(p.path) == (p.parent, p.action)
    && p.env == StepAlong(r.game, r.env, p.path) && !r.game.done(p.env)
  }

  ghost predicate AllReached<S(!new)>(r: Rules<S>, leaves: seq<Waiting<S>>) {
    forall i :: 0 <= i < |leaves| ==> Reached(r, leaves[i])
  }

  /** The root's own call sends the start; any other sends its leaves, one state each, in order. */
  ghost predicate RootCall<S(!new)>(r: Rules<S>, c: Call<S>) {
    c.leaves == [] && c.observed == [r.env] && r.client(0, c.observed) == (c.priors, c.values) && !r.game.done(r.env)
  }

  ghost predicate BatchCall<S(!new)>(r: Rules<S>, c: Call<S>, number: nat) {
    Asked(r, c, number) && c.leaves != [] && |c.leaves| <= r.batchSize && AllReached(r, c.leaves)
  }

  ghost predicate CallOk<S(!new)>(r: Rules<S>, calls: seq<Call<S>>, k: nat) {
    k < |calls| ==> BatchCall(r, calls[k], k) || (k == 0 && RootCall(r, calls[k]))
  }

  ghost predicate CallsOk<S(!new)>(r: Rules<S>, m: Moment<S>) {
    && AllReached(r, m.waiting) && |m.waiting| <= m.selected <= r.batchSize
    && forall k: nat :: CallOk(r, m.calls, k)
  }

  lemma ObservedLives<S(!new)>(r: Rules<S>, calls: seq<Call<S>>, k: nat, i: nat)
    requires CallOk(r, calls, k) && Answered(calls, k, i)
    ensures !r.game.done(calls[k].observed[i])
  {
    if BatchCall(r, calls[k], k) {
      assert Reached(r, calls[k].leaves[i]);
    }
  }

  lemma SelectReaches<S(!new)>(r: Rules<S>, m: Moment<S>, m': Moment<S>)
    requires CallsOk(r, m) && Selects(r, m, m')
    ensures CallsOk(r, m')
  {
    var w :| PlaysOut(r, w, m.graph, m'.graph, m'.waiting[|m.waiting|..], m'.penalised - m.penalised);
    WalkedKeys(r, m.graph);
    forall i | 0 <= i < |m'.waiting| ensures Reached(r, m'.waiting[i]) {
      if i < |m.waiting| {
        assert Reached(r, m.waiting[i]) && m'.waiting[i] == m.waiting[i];
      } else {
        assert m'.waiting[i] == m'.waiting[|m.waiting|..][i - |m.waiting|];
        assert w.path[..0] == [];
        assert r.game.hash(StepAlong(r.game, r.env, w.path[..0])) == w.path[0].0;
      }
    }
    forall k: nat ensures CallOk(r, m'.calls, k) {
      assert CallOk(r, m.calls, k);
    }
  }

  lemma CallsFollow<S(!new)>(r: Rules<S>, m: Moment<S>, m': Moment<S>)
    requires CallsOk(r, m) && Follows(r, m, m')
    ensures CallsOk(r, m')
  {
    if Selects(r, m, m') {
      SelectReaches(r, m, m');
    } else {
      forall k: nat ensures CallOk(r, m'.calls, k) {
        assert CallOk(r, m.calls, k);
        if k < |m.calls| { assert m'.calls[k] == m'.calls[..|m.calls|][k] == m.calls[k]; }
      }
    }
  }

  lemma FollowLearns<S(!new)>(r: Rules<S>, g0: Graph, m: Moment<S>, m': Moment<S>)
    requires Lawful(r.game) && LearnedAt(r, g0, m) && CallsOk(r, m) && Follows(r, m, m')
    ensures LearnedAt(r, g0, m')
  {
    if Selects(r, m, m') {
      SelectLearns(r, g0, m, m');
    } else if Settles(r, m, m') {
      ObservedLives(r, m.calls, |m.calls| - 1, m.settled) by { assert CallOk(r, m.calls, |m.calls| - 1); }
      SettleLearns(r, g0, m, m');
    } else {
      forall k: nat, i: nat | Used(m', k, i) ensures Used(m, k, i) {
        if Asks(r, m, m') { assert k < |m.calls| ==> m'.calls[k] == m'.calls[..|m.calls|][k]; }
      }
      QuietLearns(r, g0, m, m');
    }
  }

  // ----- penalties -----

  /** `k` shares of a node's actions. */
  function Shares(k: nat, actions: nat): real {
    if actions == 0 then 0.0 else k as real / actions as real
  }

  function BasePenalty(g: Graph, e: Edge): real {
    if e.0 in g then PenaltyAt(g[e.0], e.1) else 0.0
  }

  ghost predicate DroppedAt(g0: Graph, g: Graph, penalised: multiset<Edge>, e: Edge) {
    && (e in penalised ==> e.0 in g)
    && (e.0 in g ==> PenaltyAt(g[e.0], e.1) == BasePenalty(g0, e) - Shares(penalised[e], |g[e.0].valid|))
  }

  /** Each edge's penalty has dropped by one share of its node's actions per repeat it ended. */
  ghost predicate Dropped(g0: Graph, g: Graph, penalised: multiset<Edge>) {
    forall e :: DroppedAt(g0, g, penalised, e)
  }

  lemma DroppedKept(g0: Graph, g: Graph, g': Graph, penalised: multiset<Edge>)
    requires Dropped(g0, g, penalised) && PenaltiesKept(g, g')
    ensures Dropped(g0, g', penalised)
  {
    forall e ensures DroppedAt(g0, g', penalised, e) {
      assert DroppedAt(g0, g, penalised, e) && SamePenalties(g, g', e.0);
    }
  }

  lemma OneShareMore(k: nat, actions: nat)
    requires actions > 0
    ensures Shares(k + 1, actions) == Shares(k, actions) + 1.0 / actions as real
  {
  }

  lemma DroppedOnce(g0: Graph, g: Graph, e: Edge, penalised: multiset<Edge>)
    requires Dropped(g0, g, penalised) && e.0 in g && g[e.0].valid != [] && e.1 < |g[e.0].penalties|
    ensures Dropped(g0, g[e.0 := g[e.0].ApplyPenalty(e.1)], penalised + multiset{e})
  {
    var g', more := g[e.0 := g[e.0].ApplyPenalty(e.1)], penalised + multiset{e};
    OneShareMore(penalised[e], |g[e.0].valid|);
    forall k ensures DroppedAt(g0, g', more, k) {
      assert DroppedAt(g0, g, penalised, k);
    }
  }

  lemma NoShares(actions: nat)
    ensures Shares(0, actions) == 0.0
  {
  }

  /** Expanding stores penalties of zero and changes none. */
  lemma ExpandDrops<S(!new)>(game: Game<S>, g0: Graph, g: Graph, mid: Graph, e: Edge, s: S, priors: Priors, value: real,
                             penalised: multiset<Edge>)
    requires Dropped(g0, g, penalised) && Evolves(g0, g) && ExpandsTo(game, g, mid, e, s, priors, value)
    ensures Dropped(g0, mid, penalised)
  {
    var n :| AnswerAt(game, g, mid, e, s, priors, value, n);
    var id := game.hash(s);
    var stored := WithNode(g, id, n);
    if id !in g {
      CreatedValue(game, s, Normalized(priors, game.valid(s)), value, n);
    }
    forall k ensures DroppedAt(g0, stored, penalised, k) {
      assert DroppedAt(g0, g, penalised, k) && EvolvesAt(g0, g, k.0);
      if k.0 in stored { NoShares(|stored[k.0].valid|); }
    }
    assert PenaltiesKept(stored, mid);
    DroppedKept(g0, stored, mid, penalised);
  }

  lemma BackedDrops<S(!new)>(game: Game<S>, g0: Graph, g: Graph, g': Graph, path: Path, s: S, priors: Priors, value: real,
                             penalised: multiset<Edge>)
    requires Dropped(g0, g, penalised) && Evolves(g0, g) && ExpandedAndBacked(game, g, g', path, s, priors, value)
    ensures Dropped(g0, g', penalised)
  {
    var mid :| Backed(game, g, mid, g', path, s, priors, value);
    ExpandDrops(game, g0, g, mid, Last(path), s, priors, value, penalised);
    BackpropPenalties(mid, path, false);
    DroppedKept(g0, mid, g', penalised);
  }

  lemma RepeatDrops(g0: Graph, g: Graph, path: Path, penalised: multiset<Edge>)
    requires Dropped(g0, g, penalised) && path != [] && Stored(g, Last(path)) && g[Last(path).0].Dense()
    ensures Dropped(g0, Backprop(g, path, true), penalised + multiset{Last(path)})
  {
    var e := Last(path);
    BackpropPenalties(g, path, true);
    DroppedOnce(g0, g, e, penalised);
    DroppedKept(g0, g[e.0 := g[e.0].ApplyPenalty(e.1)], Backprop(g, path, true), penalised + multiset{e});
  }

  lemma PlayDrops<S(!new)>(r: Rules<S>, g0: Graph, g: Graph, g': Graph, more: seq<Waiting<S>>, repeated: multiset<Edge>,
                           penalised: multiset<Edge>)
    requires Dropped(g0, g, penalised) && Evolves(g0, g) && Plays(r, g, g', more, repeated)
    ensures Dropped(g0, g', penalised + repeated) && |repeated| <= 1
  {
    var w :| PlaysOut(r, w, g, g', more, repeated);
    WalkedKeys(r, g);
    OnlyLossesPenalties(g, w.graph);
    DroppedKept(g0, g, w.graph, penalised);
    OnlyLossesEvolves(g, w.graph);
    EvolvesChain(g0, g, w.graph);
    assert penalised + multiset{} == penalised;
    if w.path != [] {
      if w.repeat {
        assert Stored(w.graph, Last(w.path)) && NodeCoherent(r.game, w.graph, Last(w.path).0) by {
          WalkRoute(r.game, r.t, g, r.root, r.root, r.env, [], r.env);
        }
        RepeatDrops(g0, w.graph, w.path, penalised);
      } else if r.game.done(w.final) {
        BackedDrops(r.game, g0, w.graph, g', w.path, w.final, map[], r.evaluate(w.final), penalised);
      }
    }
  }

  lemma FollowDrops<S(!new)>(r: Rules<S>, g0: Graph, m: Moment<S>, m': Moment<S>)
    requires Dropped(g0, m.graph, m.penalised) && Evolves(g0, m.graph) && Follows(r, m, m')
    ensures Dropped(g0, m'.graph, m'.penalised)
  {
    if Selects(r, m, m') {
      PlayDrops(r, g0, m.graph, m'.graph, m'.waiting[|m.waiting|..], m'.penalised - m.penalised, m.penalised);
      assert m.penalised + (m'.penalised - m.penalised) == m'.penalised;
    } else if Settles(r, m, m') {
      var c := m.calls[|m.calls| - 1];
      BackedDrops(r.game, g0, m.graph, m'.graph, c.leaves[m.settled].path, c.observed[m.settled], c.priors[m.settled],
                  c.values[m.settled], m.penalised);
    }
  }

  // ----- whole searches -----

  /** What holds at every moment of a search that began with graph `g0`. */
  ghost predicate Sound<S(!new)>(r: Rules<S>, g0: Graph, m: Moment<S>) {
    && Lawful(r.game) && Evolves(g0, m.graph)
    && LearnedAt(r, g0, m) && CallsOk(r, m) && Dropped(g0, m.graph, m.penalised)
  }

  lemma FollowSound<S(!new)>(r: Rules<S>, g0: Graph, m: Moment<S>, m': Moment<S>)
    requires Sound(r, g0, m) && Follows(r, m, m')
    ensures Sound(r, g0, m')
  {
    FollowLearns(r, g0, m, m');
    CallsFollow(r, m, m');
    FollowDrops(r, g0, m, m');
    EvolvesChain(g0, m.graph, m'.graph);
  }

  lemma {:induction false} TraceSound<S(!new)>(r: Rules<S>, g0: Graph, trace: seq<Moment<S>>, i: nat)
    requires Unfolds(r, trace) && i < |trace| && Sound(r, g0, trace[0])
    ensures Sound(r, g0, trace[i])
  {
    if i > 0 {
      TraceSound(r, g0, trace, i - 1);
      assert StepsAt(r, trace, i - 1);
      FollowSound(r, g0, trace[i - 1], trace[i]);
    }
  }

  /** In every search each stored node is the terminal evaluator's or its first answer's, each call is the client's
      answer to exactly the reached leaves, and each penalty counts the repeats it ended. */
  lemma SearchSound<S(!new)>(r: Rules<S>, g0: Graph, m: Moment<S>, m': Moment<S>)
    requires Leads(r, m, m') && Sound(r, g0, m)
    ensures Sound(r, g0, m')
  {
    var trace :| Connects(r, trace, m, m');
    TraceSound(r, g0, trace, |trace| - 1);
  }

  // ----- the root -----

  /** The root's node when it was missing: the terminal evaluator's value, or the answer to the first call. */
  ghost predicate RootMade<S(!new)>(r: Rules<S>, calls: seq<Call<S>>, n: Node) {
    if r.game.done(r.env) then calls == [] && TerminalOf(r.game, r.evaluate, n, r.env)
    else
      && |calls| == 1 && RootCall(r, calls[0]) && HasAnswer(calls[0], 0)
      && Judged(r.game, n, r.env, calls[0].priors[0], calls[0].values[0])
  }

  /** The moment before the first batch of a search that found graph `g0`. */
  ghost predicate Starts<S(!new)>(r: Rules<S>, g0: Graph, m: Moment<S>) {
    && m.batch == 0 && AtTurn(m) && m.penalised == multiset{} && r.root == r.game.hash(r.env)
    && if r.root in g0 then m.graph == g0 && m.calls == []
       else
         && r.root in m.graph && m.graph == g0[r.root := m.graph[r.root]] && RootMade(r, m.calls, m.graph[r.root])
         && forall a: Act :: PenaltyAt(m.graph[r.root], a) == 0.0
  }

  lemma RootStarts<S(!new)>(r: Rules<S>, g0: Graph, m: Moment<S>, priors: Priors, value: real)
    requires Lawful(r.game) && m.batch == 0 && AtTurn(m) && m.penalised == multiset{} && r.root == r.game.hash(r.env)
    requires r.root !in g0 && r.root in m.graph && m.graph == g0[r.root := m.graph[r.root]]
    requires Created(r.game, r.env, Normalized(priors, r.game.valid(r.env)), value, m.graph[r.root])
    requires if r.game.done(r.env) then m.calls == [] && value == r.evaluate(r.env)
             else
               && |m.calls| == 1 && RootCall(r, m.calls[0]) && HasAnswer(m.calls[0], 0)
               && m.calls[0].priors[0] == priors && m.calls[0].values[0] == value
    ensures Starts(r, g0, m)
  {
    CreatedJudged(r.game, r.env, priors, value, m.graph[r.root]);
    CreatedValue(r.game, r.env, Normalized(priors, r.game.valid(r.env)), value, m.graph[r.root]);
  }

  lemma StartLearned<S(!new)>(r: Rules<S>, g0: Graph, m: Moment<S>)
    requires Starts(r, g0, m)
    ensures LearnedAt(r, g0, m)
  {
    forall id ensures KnownIn(r.game, r.evaluate, m.calls, g0, m.graph, id) {
      if id in m.graph && id !in g0 {
        if r.game.done(r.env) {
          assert TerminalOf(r.game, r.evaluate, m.graph[id], r.env);
        } else {
          assert AnsweredBy(r.game, m.calls, m.graph[id], 0, 0);
        }
      }
    }
  }

  /** The invariant of a search holds before its first batch. */
  lemma StartSound<S(!new)>(r: Rules<S>, g0: Graph, m: Moment<S>)
    requires Lawful(r.game) && Starts(r, g0, m)
    ensures Sound(r, g0, m)
  {
    StartLearned(r, g0, m);
    forall id ensures EvolvesAt(g0, m.graph, id) {
    }
    forall k: nat ensures CallOk(r, m.calls, k) {
    }
    forall e ensures DroppedAt(g0, m.graph, m.penalised, e) {
      if e.0 in m.graph { NoShares(|m.graph[e.0].valid|); }
    }
  }

  /** A whole search with these rules, from graph `g0` to `last`, over so many batches. */
  ghost predicate Searched<S(!new)>(r: Rules<S>, g0: Graph, first: Moment<S>, last: Moment<S>, batches: nat) {
    Starts(r, g0, first) && Leads(r, first, last) && AtTurn(last) && last.batch == batches
  }

  ghost predicate Performs<S(!new)>(r: Rules<S>, g0: Graph, g: Graph, batches: nat) {
    exists first, last :: Searched(r, g0, first, last, batches) && last.graph == g
  }

  /** The result of a search: every new node holds the evaluator's value or its first answer, every call was the client's
      answer to exactly the leaves reached, and every penalty counts the repeats its edge ended. */
  lemma SearchedMeans<S(!new)>(r: Rules<S>, g0: Graph, first: Moment<S>, last: Moment<S>, batches: nat)
    requires Lawful(r.game) && Searched(r, g0, first, last, batches)
    ensures Learned(r.game, r.evaluate, last.calls, g0, last.graph)
    ensures forall k: nat :: CallOk(r, last.calls, k)
    ensures Dropped(g0, last.graph, last.penalised)
  {
    StartSound(r, g0, first);
    SearchSound(r, g0, first, last);
  }

  // ----- for the methods -----

  /** Between two batches. */
  ghost predicate AtTurn<S(!new)>(m: Moment<S>) {
    m == Moment(m.graph, m.batch, 0, [], false, 0, m.calls, m.penalised)
  }

  /** The last call is `c`, about `batch`, and its first `i` answers are settled. */
  ghost predicate Answering<S(!new)>(m: Moment<S>, c: Call<S>, batch: seq<Waiting<S>>, i: nat) {
    && m.answered && m.settled == i && m.calls != [] && m.calls[|m.calls| - 1] == c
    && c.leaves == batch && |c.observed| == |batch|
    && forall j :: 0 <= j < |batch| ==> c.observed[j] == batch[j].env
  }

  /** Still selecting: nothing was asked or settled since. */
  predicate Selecting<S(==)>(m: Moment<S>, m': Moment<S>, waiting: seq<Waiting<S>>, selected: nat) {
    && m'.batch == m.batch && m'.calls == m.calls && !m'.answered && m'.settled == 0
    && m'.waiting == waiting && m'.selected == selected
  }

  /** One more selection of a batch. */
  lemma SelectOn<S(!new)>(r: Rules<S>, first: Moment<S>, m: Moment<S>, g': Graph, more: seq<Waiting<S>>, repeated: multiset<Edge>)
      returns (m': Moment<S>)
    requires Leads(r, first, m) && Selecting(first, m, m.waiting, m.selected) && m.selected < r.batchSize
    requires Evolves(m.graph, g') && Plays(r, m.graph, g', more, repeated)
    ensures Leads(r, first, m') && Selecting(first, m', m.waiting + more, m.selected + 1)
    ensures m'.graph == g' && |m'.penalised| == |m.penalised| + |repeated|
  {
    m' := m.(graph := g', waiting := m.waiting + more, selected := m.selected + 1, penalised := m.penalised + repeated);
    assert m'.penalised - m.penalised == repeated;
    assert m'.waiting[|m.waiting|..] == more;
    assert Selects(r, m, m');
    LeadsOn(r, first, m, m');
  }

  lemma AskFollows<S(!new)>(r: Rules<S>, m: Moment<S>, m': Moment<S>)
    requires m.selected == r.batchSize && !m.answered && m.waiting != []
    requires |m'.calls| == |m.calls| + 1 && m'.calls[..|m.calls|] == m.calls
    requires m'.calls[|m.calls|].leaves == m.waiting && Asked(r, m'.calls[|m.calls|], |m.calls|)
    requires m' == m.(answered := true, settled := 0, calls := m'.calls)
    ensures Follows(r, m, m')
  {
    assert Asks(r, m, m');
    forall id ensures EvolvesAt(m.graph, m'.graph, id) {
    }
  }

  /** The graph after answer `i` comes from the graph before it by that answer alone: leaf `i` is expanded with prior map
      `i` and value `i`, and its path is backed up. */
  ghost predicate AppliesAnswer<S(!new)>(game: Game<S>, graphs: seq<Graph>, batch: seq<Waiting<S>>, priors: seq<Priors>,
                                         values: seq<real>, i: nat) {
    i + 1 < |graphs| ==>
      && i < |batch| && i < |priors| && i < |values| && Evolves(graphs[i], graphs[i + 1])
      && ExpandedAndBacked(game, graphs[i], graphs[i + 1], batch[i].path, batch[i].env, priors[i], values[i])
  }

  /** The graphs between the answers of one batch, in order. */
  ghost predicate AppliesAnswers<S(!new)>(game: Game<S>, graphs: seq<Graph>, batch: seq<Waiting<S>>, priors: seq<Priors>,
                                          values: seq<real>) {
    graphs != [] && forall i: nat :: AppliesAnswer(game, graphs, batch, priors, values, i)
  }

  lemma AppliesNone<S(!new)>(game: Game<S>, g: Graph, batch: seq<Waiting<S>>, priors: seq<Priors>, values: seq<real>)
    ensures AppliesAnswers(game, [g], batch, priors, values)
  {
    forall i: nat ensures AppliesAnswer(game, [g], batch, priors, values, i) {
    }
  }

  lemma AppliesNext<S(!new)>(game: Game<S>, graphs: seq<Graph>, g: Graph, batch: seq<Waiting<S>>, priors: seq<Priors>,
                             values: seq<real>)
    requires AppliesAnswers(game, graphs, batch, priors, values)
    requires |graphs| <= |batch| && |graphs| <= |priors| && |graphs| <= |values|
    requires var i := |graphs| - 1;
      Evolves(graphs[i], g) && ExpandedAndBacked(game, graphs[i], g, batch[i].path, batch[i].env, priors[i], values[i])
    ensures AppliesAnswers(game, graphs + [g], batch, priors, values)
  {
    forall i: nat ensures AppliesAnswer(game, graphs + [g], batch, priors, values, i) {
      assert AppliesAnswer(game, graphs, batch, priors, values, i);
    }
  }

  lemma SettleFollows<S(!new)>(r: Rules<S>, m: Moment<S>, c: Call<S>, batch: seq<Waiting<S>>, graphs: seq<Graph>, i: nat)
    requires Answering(m, c, batch, i) && i + 1 < |graphs| && m.graph == graphs[i]
    requires AppliesAnswer(r.game, graphs, batch, c.priors, c.values, i)
    ensures Follows(r, m, m.(graph := graphs[i + 1], settled := i + 1))
  {
    assert Settles(r, m, m.(graph := graphs[i + 1], settled := i + 1));
  }

  /** Settling answers in order is a stretch of the search. */
  lemma {:induction false} SettlesLead<S(!new)>(r: Rules<S>, m: Moment<S>, c: Call<S>, batch: seq<Waiting<S>>, graphs: seq<Graph>,
                                                i: nat)
    requires Answering(m, c, batch, 0) && AppliesAnswers(r.game, graphs, batch, c.priors, c.values)
    requires i < |graphs| && m.graph == graphs[0]
    ensures Leads(r, m, m.(graph := graphs[i], settled := i))
  {
    if i == 0 {
      LeadsHere(r, m);
    } else {
      SettlesLead(r, m, c, batch, graphs, i - 1);
      var m1 := m.(graph := graphs[i - 1], settled := i - 1);
      assert AppliesAnswer(r.game, graphs, batch, c.priors, c.values, i - 1);
      SettleFollows(r, m1, c, batch, graphs, i - 1);
      LeadsOn(r, m, m1, m.(graph := graphs[i], settled := i));
    }
  }

  lemma TurnFollows<S(!new)>(r: Rules<S>, m: Moment<S>, m': Moment<S>)
    requires m.selected == r.batchSize
    requires if m.answered then m.calls != [] && !HasAnswer(m.calls[|m.calls| - 1], m.settled) else m.waiting == []
    requires m' == m.(batch := m.batch + 1, selected := 0, waiting := [], answered := false, settled := 0)
    ensures Follows(r, m, m')
  {
    assert Turns(r, m, m');
    forall id ensures EvolvesAt(m.graph, m'.graph, id) {
    }
  }

  lemma LeadsBetween<S(!new)>(r: Rules<S>, m: Moment<S>, m1: Moment<S>, m2: Moment<S>, m3: Moment<S>)
    requires Follows(r, m, m1) && Leads(r, m1, m2) && Follows(r, m2, m3)
    ensures Leads(r, m, m3)
  {
    LeadsHere(r, m);
    LeadsOn(r, m, m, m1);
    LeadsTrans(r, m, m1, m2);
    LeadsOn(r, m, m2, m3);
  }

  ghost predicate OtherPenalties(g: Graph, g': Graph, e: Edge, id: NodeId) {
    id in g && id != e.0 ==> id in g' && g'[id].penalties == g[id].penalties
  }

  /** Of all penalties only that of `e` has changed: it has dropped by one over its node's stored actions. */
  ghost predicate OnlyPenalty(g: Graph, g': Graph, e: Edge) {
    && e.0 in g && e.0 in g' && g[e.0].valid != [] && e.1 < |g[e.0].penalties|
    && g'[e.0].penalties == g[e.0].penalties[e.1 := g[e.0].penalties[e.1] - 1.0 / |g[e.0].valid| as real]
    && forall id :: OtherPenalties(g, g', e, id)
  }

  lemma RepeatPenalty<S(!new)>(game: Game<S>, g: Graph, path: Path)
    requires Coherent(game, g) && AllExpanded(g, path) && path != []
    ensures OnlyPenalty(g, Backprop(g, path, true), Last(path))
  {
    var e := Last(path);
    assert Expanded(g, e) && NodeCoherent(game, g, e.0);
    BackpropPenalties(g, path, true);
    var p, g' := g[e.0 := g[e.0].ApplyPenalty(e.1)], Backprop(g, path, true);
    assert SamePenalties(p, g', e.0);
    forall id ensures OtherPenalties(g, g', e, id) {
      assert SamePenalties(p, g', id);
    }
  }
}
