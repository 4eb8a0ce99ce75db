/**
 * The shared-memory inference protocol, one step per atomic action: clients run
 * `TilersIpcClient::infer` (mcts-tilers/src/client.rs), handlers run `do_work`
 * (mcts-tilers/python/mcts_tilers/handler.py), and both meet in the arena
 * (mcts-core/src/ipc_core.rs). The two queues are atomic here; module SpinQueue shows why they may
 * be. `P` is an observation as it lies in a slot and `R` is a slot's answer to one observation.
 */
module Protocol {
  import opened Wrappers
  import opened Batching
  import RingQueue
  import Slot

  const MAX_BATCH: nat := Slot.MAX_BATCH
  const QUEUE_ROOM: nat := RingQueue.QCAP - 1
  const MAX_SLOTS_PER_BATCH: nat := 64

  datatype Failure = BatchOutOfRange | PackFailed | Mismatched

  /** `WAITING` exists in the source, but nothing ever stores it. */
  datatype SlotState = FREE | READY | WAITING | DONE

  datatype SlotData<P, R> =
    SlotData(state: SlotState, b: nat, owner: nat, req: nat, input: seq<P>, output: seq<R>)
  {
    function BatchLen(): nat {
      Slot.Min(b, MAX_BATCH)
    }

    function Inputs(): seq<P> {
      Slice(input, 0, BatchLen())
    }

    function Outputs(): seq<R> {
      Slice(output, 0, BatchLen())
    }

    predicate Sized() {
      |input| == |output| == MAX_BATCH
    }
  }

  type Reply<R> = Result<seq<R>, Failure>

  /** What a client does next. */
  datatype ClientPc<R> =
    | Between
    | Acquiring
    | Numbering(slot: nat)
    | WritingB(slot: nat, req: nat)
    | WritingOwner(slot: nat, req: nat)
    | WritingReq(slot: nat, req: nat)
    | Packing(slot: nat, req: nat)
    | Readying(slot: nat, req: nat)
    | Submitting(slot: nat, req: nat)
    | Waiting(slot: nat, req: nat)
    | Checking(slot: nat, req: nat)
    | Reading(slot: nat, req: nat)
    | Freeing(slot: nat, reply: Reply<R>)
    | Returning(slot: nat, reply: Reply<R>)
  {
    predicate Idle() {
      Between? || Acquiring?
    }

    predicate Fills() {
      Numbering? || WritingB? || WritingOwner? || WritingReq? || Packing? || Readying? || Submitting?
    }

    predicate Reads() {
      Checking? || Reading? || Freeing? || Returning?
    }
  }

  /** A client with its whole workload; call number `|returned|` is the current one. */
  datatype Client<P, R> =
    Client(owner: nat, nextReq: nat, calls: seq<seq<P>>, returned: seq<Reply<R>>, pc: ClientPc<R>)
  {
    predicate Finished() {
      pc.Between? && |returned| == |calls|
    }

    function Call(): seq<P> {
      if |returned| < |calls| then calls[|returned|] else []
    }

    function Finish(reply: Reply<R>): Client<P, R> {
      this.(returned := returned + [reply], pc := Between)
    }
  }

  datatype Entry<T> = Entry(slot: nat, rows: seq<T>)

  /** What a handler does next, with the slots it has popped and not yet marked done. */
  datatype HandlerPc<P, R> =
    | Popping
    | Asserting(views: seq<nat>, slot: nat)
    | Clearing(views: seq<nat>, slot: nat)
    | Gathering(views: seq<nat>)
    | Building(todo: seq<nat>, batch: seq<Entry<P>>)
    | Writing(out: seq<Entry<R>>)
    | Marking(out: seq<Entry<R>>)
    | Crashed

  /** Bookkeeping that no step reads: where a slot is. */
  datatype Place =
    | Free
    | Filling(client: nat)
    | Queued(client: nat)
    | Serving(client: nat, handler: nat)
    | Served(client: nat)
  {
    function Owner(): nat {
      if Free? then 0 else client
    }
  }

  function Put(place: seq<Place>, i: nat, p: Place): seq<Place> {
    if i < |place| then place[i := p] else place
  }

  function PlaceOf(place: seq<Place>, i: nat): Place {
    if i < |place| then place[i] else Free
  }

  datatype State<P, R> = State(
    slots: seq<SlotData<P, R>>, freeQ: seq<nat>, readyQ: seq<nat>,
    clients: seq<Client<P, R>>, handlers: seq<HandlerPc<P, R>>, place: seq<Place>)

  /** What the agent answers to a row of a batch, and the zeros that clearing leaves. */
  datatype Agent<!P, R> = Agent(infer: (seq<P>, nat) -> R, zero: R)

  /** One step: a client moves, or a handler does; `stop` says its gathering time is up. */
  datatype Act = ClientMoves(client: nat) | HandlerMoves(handler: nat, stop: bool)

  predicate InRange<P>(call: seq<P>) {
    1 <= |call| <= MAX_BATCH
  }

  function Over<T>(rows: seq<T>, under: seq<T>): seq<T> {
    rows + (if |rows| <= |under| then under[|rows|..] else [])
  }

  // ---- Clients -------------------------------------------------------------------------------

  /** The range check at the top of a call. */
  function Begin<P, R>(cl: Client<P, R>): Client<P, R> {
    if InRange(cl.Call()) then cl.(pc := Acquiring) else cl.Finish(Err(BatchOutOfRange))
  }

  /** The steps a client takes on its own slot, away from the queues. */
  function ClientLocal<P, R>(cl: Client<P, R>, sl: SlotData<P, R>): (Client<P, R>, SlotData<P, R>) {
    var call := cl.Call();
    match cl.pc
    case Numbering(i) => (cl.(nextReq := cl.nextReq + 1, pc := WritingB(i, cl.nextReq)), sl)
    case WritingB(i, req) => (cl.(pc := WritingOwner(i, req)), sl.(b := |call|))
    case WritingOwner(i, req) => (cl.(pc := WritingReq(i, req)), sl.(owner := cl.owner))
    case WritingReq(i, req) => (cl.(pc := Packing(i, req)), sl.(req := req))
    case Packing(i, req) =>
      if InRange(call) then (cl.(pc := Readying(i, req)), sl.(b := |call|, input := Over(call, sl.input)))
      else (cl.Finish(Err(PackFailed)), sl)
    case Readying(i, req) => (cl.(pc := Submitting(i, req)), sl.(state := READY))
    case Waiting(i, req) => (if sl.state.DONE? then cl.(pc := Checking(i, req)) else cl, sl)
    case Checking(i, req) =>
      if sl.owner != cl.owner || sl.req != req then (cl.(pc := Freeing(i, Err(Mismatched))), sl)
      else (cl.(pc := Reading(i, req)), sl)
    case Reading(i, req) => (cl.(pc := Freeing(i, Ok(Slice(sl.output, 0, |call|)))), sl)
    case Freeing(i, reply) => (cl.(pc := Returning(i, reply)), sl.(state := FREE))
    case _ => (cl, sl)
  }

  function Acquire<P, R>(s: State<P, R>, c: nat): State<P, R>
    requires c < |s.clients|
  {
    if s.freeQ == [] then s else
      var i := s.freeQ[0];
      s.(freeQ := s.freeQ[1..],
         clients := s.clients[c := s.clients[c].(pc := Numbering(i))],
         place := Put(s.place, i, Filling(c)))
  }

  function Submit<P, R>(s: State<P, R>, c: nat, i: nat, req: nat): State<P, R>
    requires c < |s.clients|
  {
    if |s.readyQ| >= QUEUE_ROOM then s else
      s.(readyQ := s.readyQ + [i],
         clients := s.clients[c := s.clients[c].(pc := Waiting(i, req))],
         place := Put(s.place, i, Queued(c)))
  }

  function Release<P, R>(s: State<P, R>, c: nat, i: nat, reply: Reply<R>): State<P, R>
    requires c < |s.clients|
  {
    if |s.freeQ| >= QUEUE_ROOM then s else
      s.(freeQ := s.freeQ + [i],
         clients := s.clients[c := s.clients[c].Finish(reply)],
         place := Put(s.place, i, Free))
  }

  function Local<P, R>(s: State<P, R>, c: nat, i: nat): State<P, R>
    requires c < |s.clients|
  {
    if i >= |s.slots| then s else
      var (cl, sl) := ClientLocal(s.clients[c], s.slots[i]);
      s.(clients := s.clients[c := cl], slots := s.slots[i := sl])
  }

  function ClientStep<P, R>(s: State<P, R>, c: nat): State<P, R>
    requires c < |s.clients|
  {
    var cl := s.clients[c];
    match cl.pc
    case Between => if |cl.returned| >= |cl.calls| then s else s.(clients := s.clients[c := Begin(cl)])
    case Acquiring => Acquire(s, c)
    case Submitting(i, req) => Submit(s, c, i, req)
    case Returning(i, reply) => Release(s, c, i, reply)
    case _ => Local(s, c, cl.pc.slot)
  }

  // ---- Handlers ------------------------------------------------------------------------------

  function Pop<P, R>(s: State<P, R>, h: nat, views: seq<nat>): State<P, R>
    requires h < |s.handlers|
  {
    if s.readyQ == [] then s else
      var i := s.readyQ[0];
      s.(readyQ := s.readyQ[1..],
         handlers := s.handlers[h := Asserting(views, i)],
         place := Put(s.place, i, Serving(PlaceOf(s.place, i).Owner(), h)))
  }

  function BatchRows<T>(batch: seq<Entry<T>>): seq<seq<T>> {
    seq(|batch|, k requires 0 <= k < |batch| => batch[k].rows)
  }

  /** Pairs each slot of the batch with its share of one inference call over the whole batch. */
  function Inferred<P, R>(agent: Agent<P, R>, batch: seq<Entry<P>>): seq<Entry<R>> {
    var answers := Answer(agent.infer, BatchRows(batch));
    seq(|batch|, k requires 0 <= k < |batch| => Entry(batch[k].slot, answers[k]))
  }

  function SetHandler<P, R>(s: State<P, R>, h: nat, pc: HandlerPc<P, R>): State<P, R>
    requires h < |s.handlers|
  {
    s.(handlers := s.handlers[h := pc])
  }

  function SetSlot<P, R>(s: State<P, R>, i: nat, sl: SlotData<P, R>): State<P, R> {
    if i < |s.slots| then s.(slots := s.slots[i := sl]) else s
  }

  /** `mark_done`: the slot goes back to its client. */
  function MarkDone<P, R>(s: State<P, R>, i: nat): State<P, R> {
    if i < |s.slots| then
      s.(slots := s.slots[i := s.slots[i].(state := DONE)],
         place := Put(s.place, i, Served(PlaceOf(s.place, i).Owner())))
    else s
  }

  function HandlerLocal<P, R>(agent: Agent<P, R>, s: State<P, R>, h: nat, i: nat): State<P, R>
    requires h < |s.handlers| && i < |s.slots|
  {
    var sl := s.slots[i];
    match s.handlers[h]
    case Asserting(views, _) => SetHandler(s, h, if sl.state.READY? then Clearing(views, i) else Crashed)
    case Clearing(views, _) =>
      SetHandler(SetSlot(s, i, sl.(output := seq(MAX_BATCH, _ => agent.zero))), h, Gathering(views + [i]))
    case Building(todo, batch) =>
      if todo == [] then s
      else if sl.BatchLen() == 0 then SetHandler(MarkDone(s, i), h, Building(todo[1..], batch))
      else SetHandler(s, h, Building(todo[1..], batch + [Entry(i, sl.Inputs())]))
    case Writing(out) =>
      if out == [] then s
      else SetHandler(SetSlot(s, i, sl.(output := Over(out[0].rows, sl.output))), h, Marking(out))
    case Marking(out) =>
      if out == [] then s
      else SetHandler(MarkDone(s, i), h, if |out| == 1 then Popping else Writing(out[1..]))
    case _ => s
  }

  /** The slot a handler's next step touches, if it touches one. */
  function Target<P, R>(pc: HandlerPc<P, R>): Option<nat> {
    match pc
    case Asserting(_, i) => Some(i)
    case Clearing(_, i) => Some(i)
    case Building(todo, _) => if todo == [] then None else Some(todo[0])
    case Writing(out) => if out == [] then None else Some(out[0].slot)
    case Marking(out) => if out == [] then None else Some(out[0].slot)
    case _ => None
  }

  function HandlerStep<P, R>(agent: Agent<P, R>, s: State<P, R>, h: nat, stop: bool): State<P, R>
    requires h < |s.handlers|
  {
    var pc := s.handlers[h];
    var target := Target(pc);
    if pc.Popping? then Pop(s, h, [])
    else if pc.Gathering? then
      if stop || |pc.views| >= MAX_SLOTS_PER_BATCH then SetHandler(s, h, Building(pc.views, []))
      else Pop(s, h, pc.views)
    else if pc.Building? && pc.todo == [] then
      SetHandler(s, h, if pc.batch == [] then Popping else Writing(Inferred(agent, pc.batch)))
    else if target.Some? && target.value < |s.slots| then HandlerLocal(agent, s, h, target.value)
    else s
  }

  // ---- Runs ----------------------------------------------------------------------------------

  function Step<P, R>(agent: Agent<P, R>, s: State<P, R>, a: Act): State<P, R> {
    match a
    case ClientMoves(c) => if c < |s.clients| then ClientStep(s, c) else s
    case HandlerMoves(h, stop) => if h < |s.handlers| then HandlerStep(agent, s, h, stop) else s
  }

  function NewClient<P, R>(owner: nat, calls: seq<seq<P>>): Client<P, R> {
    Client(owner, 0, calls, [], Between)
  }

  /** A freshly initialised arena; slot contents are arbitrary. */
  ghost predicate Initial<P, R>(s: State<P, R>) {
    && |s.place| == |s.slots| <= QUEUE_ROOM
    && s.freeQ == seq(|s.slots|, i => i) && s.readyQ == []
    && (forall i: nat :: i < |s.slots| ==> s.slots[i].state.FREE? && s.slots[i].Sized() && s.place[i].Free?)
    && (forall c: nat :: c < |s.clients| ==> s.clients[c] == NewClient(s.clients[c].owner, s.clients[c].calls))
    && (forall h: nat :: h < |s.handlers| ==> s.handlers[h].Popping?)
  }

  function Run<P, R>(agent: Agent<P, R>, s: State<P, R>, schedule: seq<Act>): State<P, R> {
    if schedule == [] then s
    else Step(agent, Run(agent, s, schedule[..|schedule| - 1]), schedule[|schedule| - 1])
  }
}
