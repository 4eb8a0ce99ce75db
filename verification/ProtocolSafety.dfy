/** What every run of the protocol keeps. */
module ProtocolSafety {
  import opened Wrappers
  import opened Batching
  import opened Protocol
  import opened Sums

  /** The reply a call is owed: a refusal of its size, or what one inference call said about its own rows. */
  ghost predicate Owed<P(!new), R>(agent: Agent<P, R>, call: seq<P>, reply: Reply<R>) {
    if InRange(call) then reply.Ok? && Given(agent.infer, call, reply.value) else reply == Err(BatchOutOfRange)
  }

  // ---- The invariant -------------------------------------------------------------------------

  /** The slot holds this request of this client. */
  ghost predicate Requested<P(!new), R>(cl: Client<P, R>, sl: SlotData<P, R>, req: nat) {
    && sl.b == |cl.Call()| && sl.owner == cl.owner && sl.req == req
    && sl.Inputs() == cl.Call()
  }

  ghost predicate AnsweredBy<P(!new), R>(agent: Agent<P, R>, cl: Client<P, R>, sl: SlotData<P, R>) {
    Given(agent.infer, cl.Call(), Slice(sl.output, 0, |cl.Call()|))
  }

  /** How far a slot has been filled. */
  ghost predicate FillStage<P(!new), R>(cl: Client<P, R>, sl: SlotData<P, R>) {
    match cl.pc
    case Numbering(_) => sl.state.FREE?
    case WritingB(_, _) => sl.state.FREE?
    case WritingOwner(_, _) => sl.state.FREE? && sl.b == |cl.Call()|
    case WritingReq(_, _) => sl.state.FREE? && sl.b == |cl.Call()| && sl.owner == cl.owner
    case Packing(_, req) => sl.state.FREE? && sl.b == |cl.Call()| && sl.owner == cl.owner && sl.req == req
    case Readying(_, req) => sl.state.FREE? && Requested(cl, sl, req)
    case Submitting(_, req) => sl.state.READY? && Requested(cl, sl, req)
    case _ => false
  }

  /** How far an answered slot has been read. */
  ghost predicate ReadStage<P(!new), R>(agent: Agent<P, R>, cl: Client<P, R>, sl: SlotData<P, R>) {
    match cl.pc
    case Waiting(_, req) => sl.state.DONE? && Requested(cl, sl, req) && AnsweredBy(agent, cl, sl)
    case Checking(_, req) => sl.state.DONE? && Requested(cl, sl, req) && AnsweredBy(agent, cl, sl)
    case Reading(_, req) => sl.state.DONE? && Requested(cl, sl, req) && AnsweredBy(agent, cl, sl)
    case Freeing(_, reply) => sl.state.DONE? && Owed(agent, cl.Call(), reply)
    case Returning(_, reply) => sl.state.FREE? && Owed(agent, cl.Call(), reply)
    case _ => false
  }

  /** The slot awaits a handler, its request complete. */
  ghost predicate Waits<P(!new), R>(cl: Client<P, R>, i: nat, sl: SlotData<P, R>) {
    && cl.pc.Waiting? && cl.pc.slot == i
    && sl.state.READY? && Requested(cl, sl, cl.pc.req)
  }

  function Slots<T>(batch: seq<Entry<T>>): seq<nat> {
    seq(|batch|, k requires 0 <= k < |batch| => batch[k].slot)
  }

  /** The slots a handler has popped and not yet marked done. */
  function Pending<P, R>(pc: HandlerPc<P, R>): seq<nat> {
    match pc
    case Popping => []
    case Asserting(views, i) => views + [i]
    case Clearing(views, i) => views + [i]
    case Gathering(views) => views
    case Building(todo, batch) => Slots(batch) + todo
    case Writing(out) => Slots(out)
    case Marking(out) => Slots(out)
    case Crashed => []
  }

  /** A copied entry is what its slot holds. */
  predicate EntryCopies<P(==), R>(e: Entry<P>, i: nat, sl: SlotData<P, R>) {
    e.slot == i ==> e.rows == sl.Inputs()
  }

  ghost predicate EntryAnswers<P(!new), R>(agent: Agent<P, R>, e: Entry<R>, i: nat, sl: SlotData<P, R>) {
    e.slot == i ==> Given(agent.infer, sl.Inputs(), e.rows)
  }

  /** What a handler at `pc` knows of one of its pending slots. */
  ghost predicate ServeStage<P(!new), R>(agent: Agent<P, R>, pc: HandlerPc<P, R>, i: nat, sl: SlotData<P, R>) {
    match pc
    case Building(_, batch) => forall k: nat :: k < |batch| ==> EntryCopies(batch[k], i, sl)
    case Writing(out) => forall k: nat :: k < |out| ==> EntryAnswers(agent, out[k], i, sl)
    case Marking(out) =>
      && (forall k: nat :: k < |out| ==> EntryAnswers(agent, out[k], i, sl))
      && (out != [] && out[0].slot == i ==> Given(agent.infer, sl.Inputs(), sl.Outputs()))
    case _ => true
  }

  /** Slot `i` is where its place says, in the stage that its holder has reached. */
  ghost predicate SlotOk<P(!new), R>(agent: Agent<P, R>, s: State<P, R>, i: nat)
    requires i < |s.slots| == |s.place|
  {
    var sl := s.slots[i];
    && sl.Sized()
    && match s.place[i]
       case Free => i in s.freeQ && sl.state.FREE?
       case Filling(c) =>
         && c < |s.clients| && s.clients[c].pc.Fills() && s.clients[c].pc.slot == i
         && FillStage(s.clients[c], sl)
       case Queued(c) => i in s.readyQ && c < |s.clients| && Waits(s.clients[c], i, sl)
       case Serving(c, h) =>
         && c < |s.clients| && Waits(s.clients[c], i, sl)
         && h < |s.handlers| && i in Pending(s.handlers[h])
         && ServeStage(agent, s.handlers[h], i, sl)
       case Served(c) =>
         && c < |s.clients| && !s.clients[c].pc.Idle() && s.clients[c].pc.slot == i
         && ReadStage(agent, s.clients[c], sl)
  }

  ghost predicate ReturnedOk<P(!new), R>(agent: Agent<P, R>, cl: Client<P, R>) {
    && |cl.returned| <= |cl.calls|
    && forall k: nat :: k < |cl.returned| ==> ReplyOk(agent, cl, k)
  }

  ghost predicate ReplyOk<P(!new), R>(agent: Agent<P, R>, cl: Client<P, R>, k: nat)
    requires k < |cl.returned| <= |cl.calls|
  {
    Owed(agent, cl.calls[k], cl.returned[k])
  }

  /** Client `c` holds its slot in the way its next step needs. */
  predicate HoldsAs<R>(pc: ClientPc<R>, p: Place, c: nat)
    requires !pc.Idle()
  {
    if pc.Fills() then p == Filling(c)
    else if pc.Waiting? then (p.Queued? || p.Serving? || p.Served?) && p.client == c
    else p == Served(c)
  }

  ghost predicate ClientOk<P(!new), R>(agent: Agent<P, R>, s: State<P, R>, c: nat)
    requires c < |s.clients| && |s.slots| == |s.place|
  {
    var cl := s.clients[c];
    && ReturnedOk(agent, cl)
    && (!cl.pc.Between? ==> |cl.returned| < |cl.calls| && InRange(cl.Call()))
    && (!cl.pc.Idle() ==> cl.pc.slot < |s.slots| && HoldsAs(cl.pc, s.place[cl.pc.slot], c))
  }

  predicate ServedBy(place: seq<Place>, i: nat, h: nat) {
    i < |place| && place[i].Serving? && place[i].handler == h
  }

  ghost predicate HandlerOk<P(!new), R>(s: State<P, R>, h: nat)
    requires h < |s.handlers|
  {
    && !s.handlers[h].Crashed?
    && (s.handlers[h].Writing? || s.handlers[h].Marking? ==> s.handlers[h].out != [])
    && Distinct(Pending(s.handlers[h]))
    && forall k: nat :: k < |Pending(s.handlers[h])| ==> ServedBy(s.place, Pending(s.handlers[h])[k], h)
  }

  predicate FreeAt(place: seq<Place>, i: nat) {
    i < |place| && place[i].Free?
  }

  predicate QueuedAt(place: seq<Place>, i: nat) {
    i < |place| && place[i].Queued?
  }

  ghost predicate QueuesOk<P(!new), R>(s: State<P, R>) {
    && Distinct(s.freeQ) && Distinct(s.readyQ)
    && (forall k: nat :: k < |s.freeQ| ==> FreeAt(s.place, s.freeQ[k]))
    && (forall k: nat :: k < |s.readyQ| ==> QueuedAt(s.place, s.readyQ[k]))
  }

  ghost predicate Inv<P(!new), R>(agent: Agent<P, R>, s: State<P, R>) {
    && |s.place| == |s.slots| <= QUEUE_ROOM
    && (forall i: nat :: i < |s.slots| ==> SlotOk(agent, s, i))
    && (forall c: nat :: c < |s.clients| ==> ClientOk(agent, s, c))
    && (forall h: nat :: h < |s.handlers| ==> HandlerOk(s, h))
    && QueuesOk(s)
  }

  // ---- Frames --------------------------------------------------------------------------------

  /** Only client `c` and slot `i` differ, and `c` holds no slot but `i`. */
  ghost predicate ClientMoved<P(!new), R>(s: State<P, R>, t: State<P, R>, c: nat, i: nat) {
    && c < |s.clients| && i < |s.slots| == |s.place|
    && |t.clients| == |s.clients| && t.clients == s.clients[c := t.clients[c]]
    && |t.slots| == |s.slots| && t.slots == s.slots[i := t.slots[i]]
    && |t.place| == |s.place| && t.place == s.place[i := t.place[i]]
    && t.handlers == s.handlers
    && (!s.clients[c].pc.Idle() ==> s.clients[c].pc.slot == i)
    && (s.place[i].Free? || (!s.place[i].Serving? && s.place[i].client == c))
    && (forall j: nat :: j != i ==> (j in s.freeQ ==> j in t.freeQ) && (j in s.readyQ ==> j in t.readyQ))
  }

  lemma OtherSlotKept<P(!new), R>(agent: Agent<P, R>, s: State<P, R>, t: State<P, R>, c: nat, i: nat, j: nat)
    requires Inv(agent, s) && ClientMoved(s, t, c, i) && j < |s.slots| && j != i
    ensures SlotOk(agent, t, j)
  {
    assert SlotOk(agent, s, j);
  }

  lemma OtherClientKept<P(!new), R>(agent: Agent<P, R>, s: State<P, R>, t: State<P, R>, c: nat, i: nat, d: nat)
    requires Inv(agent, s) && ClientMoved(s, t, c, i) && d < |s.clients| && d != c
    ensures ClientOk(agent, t, d)
  {
    assert ClientOk(agent, s, d);
  }

  lemma AllHandlersKept<P(!new), R>(agent: Agent<P, R>, s: State<P, R>, t: State<P, R>, c: nat, i: nat, h: nat)
    requires Inv(agent, s) && ClientMoved(s, t, c, i) && h < |s.handlers|
    ensures HandlerOk(t, h)
  {
    assert HandlerOk(s, h);
    var p := Pending(s.handlers[h]);
    forall k: nat | k < |p| ensures ServedBy(t.place, p[k], h) {
      assert ServedBy(s.place, p[k], h);
    }
  }

  /** After a client's move it is enough to look at the client, its slot and the queues. */
  lemma ClientMoveKeeps<P(!new), R>(agent: Agent<P, R>, s: State<P, R>, t: State<P, R>, c: nat, i: nat)
    requires Inv(agent, s) && ClientMoved(s, t, c, i)
    requires SlotOk(agent, t, i) && ClientOk(agent, t, c) && QueuesOk(t)
    ensures Inv(agent, t)
  {
    forall j: nat | j < |t.slots| ensures SlotOk(agent, t, j) {
      if j != i { OtherSlotKept(agent, s, t, c, i, j); }
    }
    forall d: nat | d < |t.clients| ensures ClientOk(agent, t, d) {
      if d != c { OtherClientKept(agent, s, t, c, i, d); }
    }
    forall h: nat | h < |t.handlers| ensures HandlerOk(t, h) {
      AllHandlersKept(agent, s, t, c, i, h);
    }
  }

  lemma QueuesUntouched<P(!new), R>(s: State<P, R>, t: State<P, R>)
    requires QueuesOk(s) && t.freeQ == s.freeQ && t.readyQ == s.readyQ
    requires |t.place| == |s.place|
    requires forall i: nat :: i < |s.place| ==> (s.place[i].Free? ==> t.place[i].Free?) && (s.place[i].Queued? ==> t.place[i].Queued?)
    ensures QueuesOk(t)
  {
    forall k: nat | k < |t.freeQ| ensures FreeAt(t.place, t.freeQ[k]) {
      assert FreeAt(s.place, s.freeQ[k]);
    }
    forall k: nat | k < |t.readyQ| ensures QueuedAt(t.place, t.readyQ[k]) {
      assert QueuedAt(s.place, s.readyQ[k]);
    }
  }

  // ---- Client steps --------------------------------------------------------------------------

  lemma FinishOk<P(!new), R>(agent: Agent<P, R>, cl: Client<P, R>, reply: Reply<R>)
    requires ReturnedOk(agent, cl) && |cl.returned| < |cl.calls|
    requires Owed(agent, cl.Call(), reply)
    ensures ReturnedOk(agent, cl.Finish(reply))
  {
    var done := cl.Finish(reply);
    forall k: nat | k < |done.returned| ensures ReplyOk(agent, done, k) {
      if k < |cl.returned| { assert ReplyOk(agent, cl, k); }
    }
  }

  lemma SameHistory<P(!new), R>(agent: Agent<P, R>, cl: Client<P, R>, dl: Client<P, R>)
    requires ReturnedOk(agent, cl) && dl.returned == cl.returned && dl.calls == cl.calls
    ensures ReturnedOk(agent, dl)
  {
    forall k: nat | k < |dl.returned| ensures ReplyOk(agent, dl, k) {
      assert ReplyOk(agent, cl, k);
    }
  }

  /** Packing fills the whole request. */
  lemma PackFills<P(!new), R>(cl: Client<P, R>, sl: SlotData<P, R>)
    requires sl.Sized() && InRange(cl.Call())
    ensures var packed := sl.(b := |cl.Call()|, input := Over(cl.Call(), sl.input));
            packed.Sized() && packed.Inputs() == cl.Call()
  {
  }

  lemma LocalFills<P(!new), R>(cl: Client<P, R>, sl: SlotData<P, R>)
    requires cl.pc.Fills() && !cl.pc.Submitting? && sl.Sized() && FillStage(cl, sl) && InRange(cl.Call())
    ensures var (cl', sl') := ClientLocal(cl, sl);
            && cl'.pc.Fills() && cl'.pc.slot == cl.pc.slot && FillStage(cl', sl') && sl'.Sized()
            && cl'.calls == cl.calls && cl'.returned == cl.returned
  {
    PackFills(cl, sl);
  }

  lemma LocalReads<P(!new), R>(agent: Agent<P, R>, cl: Client<P, R>, sl: SlotData<P, R>)
    requires cl.pc.Waiting? || cl.pc.Checking? || cl.pc.Reading? || cl.pc.Freeing?
    requires sl.Sized() && ReadStage(agent, cl, sl) && InRange(cl.Call())
    ensures var (cl', sl') := ClientLocal(cl, sl);
            && cl'.pc.Reads() && cl'.pc.slot == cl.pc.slot && ReadStage(agent, cl', sl') && sl'.Sized()
            && cl'.calls == cl.calls && cl'.returned == cl.returned
  {
  }

  lemma LocalKeeps<P(!new), R>(agent: Agent<P, R>, s: State<P, R>, c: nat)
    requires Inv(agent, s) && c < |s.clients|
    requires !s.clients[c].pc.Idle() && !s.clients[c].pc.Submitting? && !s.clients[c].pc.Returning?
    ensures Inv(agent, ClientStep(s, c))
  {
    assert ClientOk(agent, s, c);
    var cl := s.clients[c];
    var i := cl.pc.slot;
    assert SlotOk(agent, s, i);
    var t := ClientStep(s, c);
    if cl.pc.Waiting? && !s.slots[i].state.DONE? {
      assert t == s;
    } else {
      if cl.pc.Fills() { LocalFills(cl, s.slots[i]); } else { LocalReads(agent, cl, s.slots[i]); }
      SameHistory(agent, cl, t.clients[c]);
      QueuesUntouched(s, t);
      ClientMoveKeeps(agent, s, t, c, i);
    }
  }

  lemma SlotIgnoresIdle<P(!new), R>(agent: Agent<P, R>, s: State<P, R>, t: State<P, R>, c: nat, i: nat)
    requires Inv(agent, s) && c < |s.clients| && s.clients[c].pc.Idle() && i < |s.slots|
    requires |t.clients| == |s.clients| && t == s.(clients := s.clients[c := t.clients[c]])
    ensures SlotOk(agent, t, i)
  {
    assert SlotOk(agent, s, i);
  }

  lemma BeginKeeps<P(!new), R>(agent: Agent<P, R>, s: State<P, R>, c: nat)
    requires Inv(agent, s) && c < |s.clients| && s.clients[c].pc.Between?
    ensures Inv(agent, ClientStep(s, c))
  {
    var t := ClientStep(s, c);
    var cl := s.clients[c];
    assert ClientOk(agent, s, c);
    if |cl.returned| < |cl.calls| {
      if InRange(cl.Call()) { SameHistory(agent, cl, t.clients[c]); } else { FinishOk(agent, cl, Err(BatchOutOfRange)); }
      forall i: nat | i < |t.slots| ensures SlotOk(agent, t, i) { SlotIgnoresIdle(agent, s, t, c, i); }
      forall d: nat | d < |t.clients| ensures ClientOk(agent, t, d) { assert ClientOk(agent, s, d); }
      forall h: nat | h < |t.handlers| ensures HandlerOk(t, h) { assert HandlerOk(s, h); }
    }
  }

  lemma DistinctTail(q: seq<nat>)
    requires Distinct(q) && q != []
    ensures Distinct(q[1..]) && q[0] !in q[1..]
    ensures forall j: nat :: j != q[0] && j in q ==> j in q[1..]
  {
    forall j: nat | j != q[0] && j in q ensures j in q[1..] {
      var k: nat :| k < |q| && q[k] == j;
      assert q[1..][k - 1] == j;
    }
  }

  lemma DistinctAppend(q: seq<nat>, i: nat)
    requires Distinct(q) && i !in q
    ensures Distinct(q + [i])
  {
  }

  lemma AcquireKeeps<P(!new), R>(agent: Agent<P, R>, s: State<P, R>, c: nat)
    requires Inv(agent, s) && c < |s.clients| && s.clients[c].pc.Acquiring?
    ensures Inv(agent, ClientStep(s, c))
  {
    if s.freeQ != [] {
      var t := ClientStep(s, c);
      var i := s.freeQ[0];
      assert FreeAt(s.place, s.freeQ[0]);
      assert SlotOk(agent, s, i) && ClientOk(agent, s, c);
      DistinctTail(s.freeQ);
      SameHistory(agent, s.clients[c], t.clients[c]);
      forall k: nat | k < |t.freeQ| ensures FreeAt(t.place, t.freeQ[k]) {
        assert FreeAt(s.place, s.freeQ[k + 1]);
        assert t.freeQ[k] != i;
      }
      forall k: nat | k < |t.readyQ| ensures QueuedAt(t.place, t.readyQ[k]) {
        assert QueuedAt(s.place, s.readyQ[k]);
      }
      ClientMoveKeeps(agent, s, t, c, i);
    }
  }

  lemma SubmitKeeps<P(!new), R>(agent: Agent<P, R>, s: State<P, R>, c: nat)
    requires Inv(agent, s) && c < |s.clients| && s.clients[c].pc.Submitting?
    ensures Inv(agent, ClientStep(s, c))
  {
    if |s.readyQ| < QUEUE_ROOM {
      var t := ClientStep(s, c);
      var i := s.clients[c].pc.slot;
      assert ClientOk(agent, s, c) && SlotOk(agent, s, i);
      assert i !in s.readyQ by {
        if k: nat :| k < |s.readyQ| && s.readyQ[k] == i { assert QueuedAt(s.place, s.readyQ[k]); }
      }
      DistinctAppend(s.readyQ, i);
      SameHistory(agent, s.clients[c], t.clients[c]);
      forall k: nat | k < |t.freeQ| ensures FreeAt(t.place, t.freeQ[k]) {
        assert FreeAt(s.place, s.freeQ[k]);
      }
      forall k: nat | k < |t.readyQ| ensures QueuedAt(t.place, t.readyQ[k]) {
        if k < |s.readyQ| { assert QueuedAt(s.place, s.readyQ[k]); }
      }
      assert i in t.readyQ by { assert t.readyQ[|s.readyQ|] == i; }
      ClientMoveKeeps(agent, s, t, c, i);
    }
  }

  lemma ReleaseKeeps<P(!new), R>(agent: Agent<P, R>, s: State<P, R>, c: nat)
    requires Inv(agent, s) && c < |s.clients| && s.clients[c].pc.Returning?
    ensures Inv(agent, ClientStep(s, c))
  {
    if |s.freeQ| < QUEUE_ROOM {
      var t := ClientStep(s, c);
      var i := s.clients[c].pc.slot;
      assert ClientOk(agent, s, c) && SlotOk(agent, s, i);
      assert i !in s.freeQ by {
        if k: nat :| k < |s.freeQ| && s.freeQ[k] == i { assert FreeAt(s.place, s.freeQ[k]); }
      }
      DistinctAppend(s.freeQ, i);
      FinishOk(agent, s.clients[c], s.clients[c].pc.reply);
      forall k: nat | k < |t.freeQ| ensures FreeAt(t.place, t.freeQ[k]) {
        if k < |s.freeQ| { assert FreeAt(s.place, s.freeQ[k]); }
      }
      forall k: nat | k < |t.readyQ| ensures QueuedAt(t.place, t.readyQ[k]) {
        assert QueuedAt(s.place, s.readyQ[k]);
      }
      assert i in t.freeQ by { assert t.freeQ[|s.freeQ|] == i; }
      ClientMoveKeeps(agent, s, t, c, i);
    }
  }

  lemma ClientStepKeeps<P(!new), R>(agent: Agent<P, R>, s: State<P, R>, c: nat)
    requires Inv(agent, s) && c < |s.clients|
    ensures Inv(agent, ClientStep(s, c))
  {
    match s.clients[c].pc {
      case Between => BeginKeeps(agent, s, c);
      case Acquiring => AcquireKeeps(agent, s, c);
      case Submitting(_, _) => SubmitKeeps(agent, s, c);
      case Returning(_, _) => ReleaseKeeps(agent, s, c);
      case _ => LocalKeeps(agent, s, c);
    }
  }

  // ---- Handler steps -------------------------------------------------------------------------

  /** Only handler `h` differs. */
  ghost predicate HandlerMoved<P(!new), R>(s: State<P, R>, t: State<P, R>, h: nat) {
    h < |s.handlers| && |t.handlers| == |s.handlers| && t.handlers == s.handlers[h := t.handlers[h]]
    && t.clients == s.clients && t.freeQ == s.freeQ
    && |t.slots| == |s.slots| == |s.place| == |t.place|
  }

  /** Slot `i` went from waiting for handler `h`, or in the queue, to `h` or back to its client. */
  ghost predicate SlotServed<P(!new), R>(s: State<P, R>, t: State<P, R>, h: nat, i: nat) {
    && HandlerMoved(s, t, h) && i < |s.slots|
    && t.slots == s.slots[i := t.slots[i]]
    && t.place == s.place[i := t.place[i]]
    && (s.place[i].Queued? || ServedBy(s.place, i, h))
    && (t.place[i].Served? || ServedBy(t.place, i, h))
    && t.place[i].client == s.place[i].client
    && (forall j: nat :: j != i ==> (j in s.readyQ ==> j in t.readyQ))
  }

  lemma BystanderSlotKept<P(!new), R>(agent: Agent<P, R>, s: State<P, R>, t: State<P, R>, h: nat, j: nat)
    requires Inv(agent, s) && HandlerMoved(s, t, h)
    requires j < |s.slots| && t.slots[j] == s.slots[j] && t.place[j] == s.place[j] && !ServedBy(s.place, j, h)
    requires j in s.readyQ ==> j in t.readyQ
    ensures SlotOk(agent, t, j)
  {
    assert SlotOk(agent, s, j);
  }

  lemma WaiterKept<P(!new), R>(agent: Agent<P, R>, s: State<P, R>, t: State<P, R>, h: nat, i: nat, c: nat)
    requires Inv(agent, s) && SlotServed(s, t, h, i) && c < |s.clients|
    ensures ClientOk(agent, t, c)
  {
    assert ClientOk(agent, s, c) && SlotOk(agent, s, i);
  }

  lemma OtherHandlerKept<P(!new), R>(agent: Agent<P, R>, s: State<P, R>, t: State<P, R>, h: nat, i: nat, g: nat)
    requires Inv(agent, s) && SlotServed(s, t, h, i) && g < |s.handlers| && g != h
    ensures HandlerOk(t, g)
  {
    assert HandlerOk(s, g);
    var p := Pending(s.handlers[g]);
    forall k: nat | k < |p| ensures ServedBy(t.place, p[k], g) {
      assert ServedBy(s.place, p[k], g);
    }
  }

  /** After a handler's step it is enough to look at the handler, its slots and the queues. */
  lemma ServeKeeps<P(!new), R>(agent: Agent<P, R>, s: State<P, R>, t: State<P, R>, h: nat, i: nat)
    requires Inv(agent, s) && SlotServed(s, t, h, i)
    requires HandlerOk(t, h) && QueuesOk(t) && SlotOk(agent, t, i)
    requires forall j: nat :: j < |s.slots| && j != i && ServedBy(s.place, j, h) ==> SlotOk(agent, t, j)
    ensures Inv(agent, t)
  {
    forall j: nat | j < |t.slots| ensures SlotOk(agent, t, j) {
      if j != i && !ServedBy(s.place, j, h) { BystanderSlotKept(agent, s, t, h, j); }
    }
    forall c: nat | c < |t.clients| ensures ClientOk(agent, t, c) { WaiterKept(agent, s, t, h, i, c); }
    forall g: nat | g < |t.handlers| ensures HandlerOk(t, g) {
      if g != h { OtherHandlerKept(agent, s, t, h, i, g); }
    }
  }

  /** A handler's step that touches no slot and no queue. */
  lemma PonderKeeps<P(!new), R>(agent: Agent<P, R>, s: State<P, R>, t: State<P, R>, h: nat)
    requires Inv(agent, s) && HandlerMoved(s, t, h) && t == s.(handlers := t.handlers)
    requires HandlerOk(t, h)
    requires forall j: nat :: j < |s.slots| && ServedBy(s.place, j, h) ==> SlotOk(agent, t, j)
    ensures Inv(agent, t)
  {
    forall j: nat | j < |t.slots| ensures SlotOk(agent, t, j) {
      if !ServedBy(s.place, j, h) { BystanderSlotKept(agent, s, t, h, j); }
    }
    forall c: nat | c < |t.clients| ensures ClientOk(agent, t, c) { assert ClientOk(agent, s, c); }
    forall g: nat | g < |t.handlers| ensures HandlerOk(t, g) {
      if g != h { assert HandlerOk(s, g); }
    }
  }

  lemma PopKeeps<P(!new), R>(agent: Agent<P, R>, s: State<P, R>, h: nat, views: seq<nat>)
    requires Inv(agent, s) && h < |s.handlers|
    requires (s.handlers[h].Popping? && views == []) || s.handlers[h] == Gathering(views)
    ensures Inv(agent, Pop(s, h, views))
  {
    if s.readyQ != [] {
      var t := Pop(s, h, views);
      var i := s.readyQ[0];
      assert QueuedAt(s.place, s.readyQ[0]);
      assert SlotOk(agent, s, i) && HandlerOk(s, h);
      DistinctTail(s.readyQ);
      forall k: nat | k < |t.freeQ| ensures FreeAt(t.place, t.freeQ[k]) {
        assert FreeAt(s.place, s.freeQ[k]);
      }
      forall k: nat | k < |t.readyQ| ensures QueuedAt(t.place, t.readyQ[k]) {
        assert QueuedAt(s.place, s.readyQ[k + 1]);
        assert t.readyQ[k] != i;
      }
      assert Pending(s.handlers[h]) == views;
      forall k: nat | k < |views| ensures ServedBy(t.place, views[k], h) && views[k] != i {
        assert ServedBy(s.place, views[k], h);
      }
      DistinctAppend(views, i);
      assert (views + [i])[|views|] == i;
      forall j: nat | j < |s.slots| && j != i && ServedBy(s.place, j, h) ensures SlotOk(agent, t, j) {
        assert SlotOk(agent, s, j);
        assert j in views;
      }
      ServeKeeps(agent, s, t, h, i);
    }
  }

  lemma TargetServed<P(!new), R>(agent: Agent<P, R>, s: State<P, R>, h: nat)
    requires Inv(agent, s) && h < |s.handlers| && Target(s.handlers[h]).Some?
    ensures ServedBy(s.place, Target(s.handlers[h]).value, h)
  {
    assert HandlerOk(s, h);
    var p := Pending(s.handlers[h]);
    var i := Target(s.handlers[h]).value;
    match s.handlers[h] {
      case Asserting(views, _) => assert p[|views|] == i && ServedBy(s.place, p[|views|], h);
      case Clearing(views, _) => assert p[|views|] == i && ServedBy(s.place, p[|views|], h);
      case Building(todo, batch) => assert p[|batch|] == i && ServedBy(s.place, p[|batch|], h);
      case Writing(_) => assert p[0] == i && ServedBy(s.place, p[0], h);
      case Marking(_) => assert p[0] == i && ServedBy(s.place, p[0], h);
      case _ =>
    }
  }

  /** A step that keeps a handler's pending slots keeps the handler's claim to them. */
  lemma SamePending<P(!new), R>(s: State<P, R>, t: State<P, R>, h: nat)
    requires h < |s.handlers| == |t.handlers| && HandlerOk(s, h)
    requires !t.handlers[h].Crashed?
    requires t.handlers[h].Writing? || t.handlers[h].Marking? ==> t.handlers[h].out != []
    requires Pending(t.handlers[h]) == Pending(s.handlers[h])
    requires t.place == s.place
    ensures HandlerOk(t, h)
  {
    var p := Pending(s.handlers[h]);
    forall k: nat | k < |p| ensures ServedBy(t.place, p[k], h) {
      assert ServedBy(s.place, p[k], h);
    }
  }

  /** While a handler holds a slot, only what it knows of it can change. */
  lemma StillServed<P(!new), R>(agent: Agent<P, R>, s: State<P, R>, t: State<P, R>, h: nat, j: nat)
    requires Inv(agent, s) && HandlerMoved(s, t, h) && j < |s.slots| && ServedBy(s.place, j, h)
    requires t.place[j] == s.place[j]
    requires t.slots[j] == s.slots[j].(output := t.slots[j].output) && t.slots[j].Sized()
    requires j in Pending(t.handlers[h]) && ServeStage(agent, t.handlers[h], j, t.slots[j])
    ensures SlotOk(agent, t, j)
  {
    assert SlotOk(agent, s, j);
  }

  lemma AssertingKeeps<P(!new), R>(agent: Agent<P, R>, s: State<P, R>, h: nat, stop: bool)
    requires Inv(agent, s) && h < |s.handlers| && s.handlers[h].Asserting?
    ensures Inv(agent, HandlerStep(agent, s, h, stop))
  {
    var t := HandlerStep(agent, s, h, stop);
    var i := s.handlers[h].slot;
    TargetServed(agent, s, h);
    assert SlotOk(agent, s, i) && HandlerOk(s, h);
    SamePending(s, t, h);
    forall j: nat | j < |s.slots| && ServedBy(s.place, j, h) ensures SlotOk(agent, t, j) {
      assert SlotOk(agent, s, j);
    }
    PonderKeeps(agent, s, t, h);
  }

  lemma ClearingKeeps<P(!new), R>(agent: Agent<P, R>, s: State<P, R>, h: nat, stop: bool)
    requires Inv(agent, s) && h < |s.handlers| && s.handlers[h].Clearing?
    ensures Inv(agent, HandlerStep(agent, s, h, stop))
  {
    var t := HandlerStep(agent, s, h, stop);
    var i := s.handlers[h].slot;
    TargetServed(agent, s, h);
    assert HandlerOk(s, h);
    SamePending(s, t, h);
    forall j: nat | j < |s.slots| && ServedBy(s.place, j, h) ensures SlotOk(agent, t, j) {
      assert SlotOk(agent, s, j);
      StillServed(agent, s, t, h, j);
    }
    QueuesUntouched(s, t);
    ServeKeeps(agent, s, t, h, i);
  }

  lemma StopKeeps<P(!new), R>(agent: Agent<P, R>, s: State<P, R>, h: nat)
    requires Inv(agent, s) && h < |s.handlers| && s.handlers[h].Gathering?
    ensures Inv(agent, SetHandler(s, h, Building(s.handlers[h].views, [])))
  {
    var none: seq<Entry<P>> := [];
    var views := s.handlers[h].views;
    var t := SetHandler(s, h, Building(views, none));
    assert HandlerOk(s, h);
    assert Slots(none) + views == views;
    SamePending(s, t, h);
    forall j: nat | j < |s.slots| && ServedBy(s.place, j, h) ensures SlotOk(agent, t, j) {
      assert SlotOk(agent, s, j);
    }
    PonderKeeps(agent, s, t, h);
  }

  lemma CopyingKeeps<P(!new), R>(agent: Agent<P, R>, s: State<P, R>, h: nat, stop: bool)
    requires Inv(agent, s) && h < |s.handlers| && s.handlers[h].Building? && s.handlers[h].todo != []
    requires s.handlers[h].todo[0] < |s.slots| && s.slots[s.handlers[h].todo[0]].BatchLen() > 0
    ensures Inv(agent, HandlerStep(agent, s, h, stop))
  {
    var t := HandlerStep(agent, s, h, stop);
    var Building(todo, batch) := s.handlers[h];
    var e := Entry(todo[0], s.slots[todo[0]].Inputs());
    assert HandlerOk(s, h);
    assert Slots(batch + [e]) == Slots(batch) + [todo[0]];
    assert Slots(batch + [e]) + todo[1..] == Slots(batch) + todo;
    SamePending(s, t, h);
    forall j: nat | j < |s.slots| && ServedBy(s.place, j, h) ensures SlotOk(agent, t, j) {
      assert SlotOk(agent, s, j);
      forall k: nat | k < |batch| + 1 ensures EntryCopies((batch + [e])[k], j, s.slots[j]) {
        if k < |batch| { assert EntryCopies(batch[k], j, s.slots[j]); }
      }
      StillServed(agent, s, t, h, j);
    }
    PonderKeeps(agent, s, t, h);
  }

  /** No handler ever meets a slot without observations. */
  lemma NothingSkipped<P(!new), R>(agent: Agent<P, R>, s: State<P, R>, h: nat)
    requires Inv(agent, s) && h < |s.handlers| && Target(s.handlers[h]).Some?
    ensures Target(s.handlers[h]).value < |s.slots|
    ensures s.slots[Target(s.handlers[h]).value].BatchLen() > 0
  {
    TargetServed(agent, s, h);
    var i := Target(s.handlers[h]).value;
    assert SlotOk(agent, s, i);
    assert ClientOk(agent, s, s.place[i].client);
  }

  /** One inference call over the whole batch gives every slot its own answers. */
  lemma InferredOwn<P(!new), R>(agent: Agent<P, R>, batch: seq<Entry<P>>, k: nat)
    requires k < |batch|
    ensures |Inferred(agent, batch)| == |batch|
    ensures Inferred(agent, batch)[k].slot == batch[k].slot
    ensures Given(agent.infer, batch[k].rows, Inferred(agent, batch)[k].rows)
  {
    AnswerIsOwn(agent.infer, BatchRows(batch), k);
  }

  lemma InferringKeeps<P(!new), R>(agent: Agent<P, R>, s: State<P, R>, h: nat, stop: bool)
    requires Inv(agent, s) && h < |s.handlers| && s.handlers[h].Building? && s.handlers[h].todo == []
    ensures Inv(agent, HandlerStep(agent, s, h, stop))
  {
    var t := HandlerStep(agent, s, h, stop);
    var batch := s.handlers[h].batch;
    var out := Inferred(agent, batch);
    assert HandlerOk(s, h);
    assert Pending(s.handlers[h]) == Slots(batch);
    assert Slots(out) == Slots(batch);
    SamePending(s, t, h);
    forall j: nat | j < |s.slots| && ServedBy(s.place, j, h) ensures SlotOk(agent, t, j) {
      assert SlotOk(agent, s, j);
      forall k: nat | k < |out| ensures EntryAnswers(agent, out[k], j, s.slots[j]) {
        InferredOwn(agent, batch, k);
        assert EntryCopies(batch[k], j, s.slots[j]);
      }
    }
    PonderKeeps(agent, s, t, h);
  }

  lemma GivenLength<P(!new), R>(infer: (seq<P>, nat) -> R, part: seq<P>, answers: seq<R>)
    requires Given(infer, part, answers)
    ensures |answers| == |part|
  {
    var all: seq<P>, at: nat :| GivenAt(infer, part, answers, all, at);
  }

  lemma WrittenReads<P(!new), R>(sl: SlotData<P, R>, rows: seq<R>)
    requires sl.Sized() && |rows| == sl.BatchLen()
    ensures var w := sl.(output := Over(rows, sl.output)); w.Sized() && w.Outputs() == rows
  {
  }

  lemma WritingKeeps<P(!new), R>(agent: Agent<P, R>, s: State<P, R>, h: nat, stop: bool)
    requires Inv(agent, s) && h < |s.handlers| && s.handlers[h].Writing? && s.handlers[h].out != []
    ensures Inv(agent, HandlerStep(agent, s, h, stop))
  {
    var t := HandlerStep(agent, s, h, stop);
    var out := s.handlers[h].out;
    var i := out[0].slot;
    TargetServed(agent, s, h);
    assert HandlerOk(s, h);
    SamePending(s, t, h);
    forall j: nat | j < |s.slots| && ServedBy(s.place, j, h) ensures SlotOk(agent, t, j) {
      assert SlotOk(agent, s, j);
      forall k: nat | k < |out| ensures EntryAnswers(agent, out[k], j, t.slots[j]) {
        assert EntryAnswers(agent, out[k], j, s.slots[j]);
      }
      if j == i {
        assert EntryAnswers(agent, out[0], i, s.slots[i]);
        GivenLength(agent.infer, s.slots[i].Inputs(), out[0].rows);
        WrittenReads(s.slots[i], out[0].rows);
      }
      StillServed(agent, s, t, h, j);
    }
    QueuesUntouched(s, t);
    ServeKeeps(agent, s, t, h, i);
  }

  function AfterMark<P, R>(out: seq<Entry<R>>): HandlerPc<P, R>
    requires out != []
  {
    if |out| == 1 then Popping else Writing(out[1..])
  }

  lemma MarkedStage<P(!new), R>(agent: Agent<P, R>, out: seq<Entry<R>>, j: nat, sl: SlotData<P, R>)
    requires out != [] && ServeStage(agent, Marking(out), j, sl)
    ensures ServeStage(agent, AfterMark<P, R>(out), j, sl)
  {
    if |out| > 1 {
      var rest := out[1..];
      forall k: nat | k < |rest| ensures EntryAnswers(agent, rest[k], j, sl) {
        assert EntryAnswers(agent, out[k + 1], j, sl);
      }
    }
  }

  lemma MarkedPending<P(!new), R>(s: State<P, R>, t: State<P, R>, h: nat)
    requires h < |s.handlers| == |t.handlers| && HandlerOk(s, h) && s.handlers[h].Marking?
    requires t.handlers[h] == AfterMark(s.handlers[h].out)
    requires |t.place| == |s.place|
    requires forall j: nat :: j < |s.place| && j != s.handlers[h].out[0].slot ==> t.place[j] == s.place[j]
    ensures HandlerOk(t, h)
    ensures forall j: nat :: j != s.handlers[h].out[0].slot && j in Pending(s.handlers[h]) ==> j in Pending(t.handlers[h])
  {
    var all := Slots(s.handlers[h].out);
    var p := Pending(t.handlers[h]);
    assert p == all[1..];
    DistinctTail(all);
    forall k: nat | k < |p| ensures ServedBy(t.place, p[k], h) {
      assert ServedBy(s.place, all[k + 1], h);
      assert p[k] != all[0];
    }
  }

  lemma MarkedServed<P(!new), R>(agent: Agent<P, R>, s: State<P, R>, h: nat, stop: bool)
    requires Inv(agent, s) && h < |s.handlers| && s.handlers[h].Marking?
    ensures s.handlers[h].out != []
    ensures var t, i := HandlerStep(agent, s, h, stop), s.handlers[h].out[0].slot;
            && SlotServed(s, t, h, i) && t.slots[i] == s.slots[i].(state := DONE) && t.place[i].Served?
            && t.handlers[h] == AfterMark(s.handlers[h].out)
            && t.readyQ == s.readyQ
  {
    assert HandlerOk(s, h);
    TargetServed(agent, s, h);
  }

  lemma MarkedOk<P(!new), R>(agent: Agent<P, R>, s: State<P, R>, t: State<P, R>, h: nat, i: nat)
    requires Inv(agent, s) && SlotServed(s, t, h, i) && ServedBy(s.place, i, h)
    requires s.handlers[h].Marking? && s.handlers[h].out != [] && s.handlers[h].out[0].slot == i
    requires t.slots[i] == s.slots[i].(state := DONE) && t.place[i].Served?
    ensures SlotOk(agent, t, i)
  {
    assert SlotOk(agent, s, i);
    assert ClientOk(agent, s, s.place[i].client);
  }

  lemma MarkingKeeps<P(!new), R>(agent: Agent<P, R>, s: State<P, R>, h: nat, stop: bool)
    requires Inv(agent, s) && h < |s.handlers| && s.handlers[h].Marking?
    ensures Inv(agent, HandlerStep(agent, s, h, stop))
  {
    MarkedServed(agent, s, h, stop);
    var t := HandlerStep(agent, s, h, stop);
    var out := s.handlers[h].out;
    var i := out[0].slot;
    assert HandlerOk(s, h);
    TargetServed(agent, s, h);
    MarkedOk(agent, s, t, h, i);
    MarkedPending(s, t, h);
    forall j: nat | j < |s.slots| && j != i && ServedBy(s.place, j, h) ensures SlotOk(agent, t, j) {
      assert SlotOk(agent, s, j);
      MarkedStage(agent, out, j, s.slots[j]);
      StillServed(agent, s, t, h, j);
    }
    QueuesUntouched(s, t);
    ServeKeeps(agent, s, t, h, i);
  }

  lemma HandlerStepKeeps<P(!new), R>(agent: Agent<P, R>, s: State<P, R>, h: nat, stop: bool)
    requires Inv(agent, s) && h < |s.handlers|
    ensures Inv(agent, HandlerStep(agent, s, h, stop))
  {
    match s.handlers[h] {
      case Popping => PopKeeps(agent, s, h, []);
      case Asserting(_, _) => AssertingKeeps(agent, s, h, stop);
      case Clearing(_, _) => ClearingKeeps(agent, s, h, stop);
      case Gathering(views) =>
        if stop || |views| >= MAX_SLOTS_PER_BATCH { StopKeeps(agent, s, h); } else { PopKeeps(agent, s, h, views); }
      case Building(todo, _) =>
        if todo == [] {
          InferringKeeps(agent, s, h, stop);
        } else {
          NothingSkipped(agent, s, h);
          CopyingKeeps(agent, s, h, stop);
        }
      case Writing(out) =>
        if out != [] { WritingKeeps(agent, s, h, stop); }
      case Marking(_) => MarkingKeeps(agent, s, h, stop);
      case Crashed =>
    }
  }

  lemma StepKeeps<P(!new), R>(agent: Agent<P, R>, s: State<P, R>, a: Act)
    requires Inv(agent, s)
    ensures Inv(agent, Step(agent, s, a))
  {
    match a {
      case ClientMoves(c) => if c < |s.clients| { ClientStepKeeps(agent, s, c); }
      case HandlerMoves(h, stop) => if h < |s.handlers| { HandlerStepKeeps(agent, s, h, stop); }
    }
  }

  lemma InitialInv<P(!new), R>(agent: Agent<P, R>, s: State<P, R>)
    requires Initial(s)
    ensures Inv(agent, s)
  {
    forall i: nat | i < |s.slots| ensures SlotOk(agent, s, i) {
      assert s.freeQ[i] == i;
    }
    forall k: nat | k < |s.freeQ| ensures FreeAt(s.place, s.freeQ[k]) {
    }
  }

  lemma {:induction false} RunKeeps<P(!new), R>(agent: Agent<P, R>, s: State<P, R>, schedule: seq<Act>)
    requires Initial(s)
    ensures Inv(agent, Run(agent, s, schedule))
  {
    if schedule == [] {
      InitialInv(agent, s);
    } else {
      RunKeeps(agent, s, schedule[..|schedule| - 1]);
      StepKeeps(agent, Run(agent, s, schedule[..|schedule| - 1]), schedule[|schedule| - 1]);
    }
  }
}
