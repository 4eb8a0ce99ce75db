/**
 * The whole way of an observation: packed into a slot, batched with whatever other slots a handler
 * has popped, cut to that batch's largest grid, judged by the network, written into the slot and
 * read back by its client as a prior map and a value.
 */
module EndToEnd {
  import opened Wrappers
  import opened Batching
  import opened Protocol
  import opened ProtocolSafety
  import opened ProtocolResults
  import opened Slot
  import Responses

  type SlotRow = r: Row | r.Sized()
    witness Row(0, 0, 0, 0, seq(BOARD_MAX, _ => 0), seq(NUM_ACTIONS, _ => 0))

  /** A row of the network's output, and of a slot's output arrays. */
  datatype Output = Output(priors: seq<real>, value: real)

  type Network = AgentRow -> Output

  function PriorAt(o: Output, a: nat): real {
    if a < |o.priors| then o.priors[a] else 0.0
  }

  /** A network row as the slot keeps it: zeros after its columns. */
  function Stored(o: Output): Output {
    Output(seq(NUM_ACTIONS, a requires 0 <= a < NUM_ACTIONS => PriorAt(o, a)), o.value)
  }

  /** What `do_work` computes: every row of the batch cut at the batch's largest grid, always `layers` layers. */
  function Handler(net: Network, layers: nat): Agent<SlotRow, Output>
    requires layers <= LOOKAHEAD_MAX
  {
    Agent((all: seq<SlotRow>, i: nat) =>
            if i < |all| then Stored(net(AgentView(all[i], layers, MaxArea(all)))) else Output([], 0.0),
          Stored(Output([], 0.0)))
  }

  /** The row cut at its own grid. */
  function OwnView(r: Row, layers: nat): AgentRow
    requires r.Sized() && layers <= LOOKAHEAD_MAX
  {
    AgentView(r, layers, MaxArea([r]))
  }

  function Alone(net: Network, layers: nat): SlotRow -> Output
    requires layers <= LOOKAHEAD_MAX
  {
    (r: SlotRow) => Stored(net(OwnView(r, layers)))
  }

  /** The batch-wide cut is invisible to a network that ignores padding. */
  lemma HandlerIsRowWise(net: Network, layers: nat)
    requires PadBlind(net) && layers <= LOOKAHEAD_MAX
    ensures RowWise(Handler(net, layers).infer, Alone(net, layers))
  {
    var infer, f := Handler(net, layers).infer, Alone(net, layers);
    forall all: seq<SlotRow>, i: nat | i < |all| ensures infer(all, i) == f(all[i]) {
      BatchingIsTransparent(net, layers, all, i);
      assert infer(all, i) == Stored(net(AgentView(all[i], layers, MaxArea(all))));
      assert f(all[i]) == Stored(net(OwnView(all[i], layers)));
    }
  }

  function Packed(observations: seq<Observation>): seq<SlotRow> {
    seq(|observations|, i requires 0 <= i < |observations| => PackRow(observations[i]))
  }

  /** The accepted write of a network row leaves it in the slot as `Stored` says. */
  lemma WriteStores(p: Responses.Matrix, i: nat, o: Output, a: nat)
    requires p.Valid() && i < p.rows && |o.priors| == p.cols <= NUM_ACTIONS && a < NUM_ACTIONS
    requires forall b: nat :: b < p.cols ==> p.At(i, b) == o.priors[b]
    ensures Responses.Written(p, i, a) == Stored(o).priors[a]
  {
  }

  /** The cells of an observation's own grid, at least one. */
  function OwnArea(o: Observation): nat {
    var area := (o.height % 256) * (o.width % 256);
    if area < 1 then 1 else area
  }

  /** A slot's flat priors hold this row as their row `i`. */
  ghost predicate HeldIn(flat: seq<real>, row: Output, i: nat) {
    && |flat| == Responses.PRIORS_MAX && i < Slot.MAX_BATCH && |row.priors| == 301
    && forall a: nat :: a < 301 ==> flat[i * 301 + a] == row.priors[a]
  }

  /** Read back as row `i`, they are the network's priors for input `v` of exactly the actions the observation allows. */
  ghost predicate ReadsOwn(net: Network, o: Observation, v: AgentRow, flat: seq<real>, i: nat) {
    && |flat| == Responses.PRIORS_MAX && Responses.InRange(i, o.actionMask)
    && var read := Responses.ReadBack(flat, i, o.actionMask);
       && (forall a: nat :: a in read <==> a < |o.actionMask| && o.actionMask[a])
       && (forall a: nat :: a in read ==> read[a] == PriorAt(net(v), a))
  }

  /** A row carries the network's answer to input `v`: its value, and its priors with zeros after its columns. */
  ghost predicate Carries(net: Network, v: AgentRow, row: Output) {
    && row.value == net(v).value && |row.priors| == 301
    && forall a: nat :: a < 301 ==> row.priors[a] == PriorAt(net(v), a)
  }

  /** Reading element `i` back out of the flat priors yields its observation's own prior map. */
  lemma ReadBackIsOwn(net: Network, o: Observation, v: AgentRow, flat: seq<real>, row: Output, i: nat)
    requires HeldIn(flat, row, i) && Carries(net, v, row) && Responses.MaskFits(o.actionMask)
    ensures ReadsOwn(net, o, v, flat, i)
  {
    var read := Responses.ReadBack(flat, i, o.actionMask);
    forall a: nat | a in read ensures read[a] == PriorAt(net(v), a) {
      assert read[a] == flat[i * 301 + a];
    }
  }

  /** Row `i` of a reply carries the network's answer to input `v`, which is what the agent sees of the observation cut to its
      own grid, and any slot memory that holds the row reads back as that answer. */
  ghost predicate AnsweredBy(net: Network, layers: nat, o: Observation, rows: seq<Output>, i: nat, v: AgentRow) {
    && i < |rows| && Sees(v, o, layers, OwnArea(o)) && Carries(net, v, rows[i])
    && forall flat: seq<real> :: HeldIn(flat, rows[i], i) && Responses.MaskFits(o.actionMask) ==> ReadsOwn(net, o, v, flat, i)
  }

  ghost predicate OwnAnswer(net: Network, layers: nat, o: Observation, rows: seq<Output>, i: nat) {
    exists v :: AnsweredBy(net, layers, o, rows, i, v)
  }

  lemma OwnAnswerGiven(net: Network, layers: nat, o: Observation, rows: seq<Output>, i: nat)
    requires layers <= LOOKAHEAD_MAX && i < |rows| && rows[i] == Alone(net, layers)(PackRow(o))
    ensures OwnAnswer(net, layers, o, rows, i)
  {
    var v := OwnView(PackRow(o), layers);
    assert MaxArea([PackRow(o)]) == OwnArea(o) by {
      assert [PackRow(o)][..0] == [];
    }
    AgentSeesObservation(o, layers, OwnArea(o));
    forall flat: seq<real> | HeldIn(flat, rows[i], i) && Responses.MaskFits(o.actionMask)
      ensures ReadsOwn(net, o, v, flat, i)
    {
      ReadBackIsOwn(net, o, v, flat, rows[i], i);
    }
    assert AnsweredBy(net, layers, o, rows, i, v);
  }

  /**
   * In every run a returned call was refused for its size, or holds for each of its observations the
   * network's value of that observation's own view, and the client reads the network's priors of
   * exactly the actions that observation allows: packing, slot reuse, interleaving, batching and the
   * batch-wide cut leave no trace.
   */
  lemma ClientsGetTheirOwnPriors(net: Network, layers: nat, s0: State<SlotRow, Output>, schedule: seq<Act>,
                                 c: nat, k: nat, observations: seq<Observation>)
    requires PadBlind(net) && layers <= LOOKAHEAD_MAX
    requires Initial(s0) && c < |s0.clients| && k < |s0.clients[c].calls|
    requires s0.clients[c].calls[k] == Packed(observations)
    ensures var s := Run(Handler(net, layers), s0, schedule);
            |s.clients| == |s0.clients|
            && (k < |s.clients[c].returned| ==> AnsweredFor(net, layers, observations, s.clients[c].returned[k]))
  {
    var agent := Handler(net, layers);
    EveryCallGetsItsOwnAnswers(agent, s0, schedule, c, k);
    var s := Run(agent, s0, schedule);
    if k < |s.clients[c].returned| && InRange(observations) {
      var rows := s.clients[c].returned[k].value;
      HandlerIsRowWise(net, layers);
      GivenRowWise(agent.infer, Alone(net, layers), Packed(observations), rows);
      forall i: nat | i < |observations| ensures OwnAnswer(net, layers, observations[i], rows, i) {
        assert rows[i] == Alone(net, layers)(PackRow(observations[i]));
        OwnAnswerGiven(net, layers, observations[i], rows, i);
      }
    }
  }

  ghost predicate AnsweredFor(net: Network, layers: nat, observations: seq<Observation>, reply: Reply<Output>) {
    if InRange(observations) then
      && reply.Ok? && |reply.value| == |observations|
      && forall i: nat :: i < |observations| ==> OwnAnswer(net, layers, observations[i], reply.value, i)
    else reply == Err(BatchOutOfRange)
  }
}
