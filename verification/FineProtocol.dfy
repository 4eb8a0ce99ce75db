/**
 * The protocol with its queue operations taken apart: clients and handlers as the threads of two
 * spinlocked rings, one step per atomic access. Every such run is a run of `Protocol`, whose queue
 * operations are single steps (mcts-core/src/ipc_core.rs, mcts-tilers/src/client.rs,
 * mcts-tilers/python/mcts_tilers/handler.py).
 */
module FineProtocol {
  import opened Wrappers
  import opened Protocol
  import opened ProtocolSafety
  import opened ProtocolResults
  import opened ProtocolProgress
  import RingQueue
  import S = SpinQueue

  /** `coarse` holds everything but the queues; its own queue fields are not used. */
  datatype Fine<P, R> = Fine(coarse: State<P, R>, free: S.State, ready: S.State)

  /** The queue operation an agent is to perform next, if it is to perform one. */
  datatype Need = OnFree(call: S.Call) | OnReady(call: S.Call) | Nothing

  function ClientNeed<R>(pc: ClientPc<R>): Need {
    match pc
    case Acquiring => OnFree(S.Pop)
    case Submitting(i, _) => OnReady(S.Push(i))
    case Returning(i, _) => OnFree(S.Push(i))
    case _ => Nothing
  }

  function HandlerNeed<P, R>(pc: HandlerPc<P, R>, stop: bool): Need {
    match pc
    case Popping => OnReady(S.Pop)
    case Gathering(views) => if stop || |views| >= MAX_SLOTS_PER_BATCH then Nothing else OnReady(S.Pop)
    case _ => Nothing
  }

  function NeedOf<P, R>(s: State<P, R>, a: Act): Need
    requires Present(s, a)
  {
    match a
    case ClientMoves(c) => ClientNeed(s.clients[c].pc)
    case HandlerMoves(h, stop) => HandlerNeed(s.handlers[h], stop)
  }

  /** Clients are the first threads of both queues, handlers the rest. */
  function ThreadOf<P, R>(s: State<P, R>, a: Act): nat {
    match a
    case ClientMoves(c) => c
    case HandlerMoves(h, _) => |s.clients| + h
  }

  /** What a client does with the outcome of its queue operation; a refused one is repeated. */
  function DeliverClient<P, R>(s: State<P, R>, c: nat, o: S.Outcome): State<P, R>
    requires c < |s.clients|
  {
    var cl := s.clients[c];
    if cl.pc.Acquiring? && o.Popped? then
      s.(clients := s.clients[c := cl.(pc := Numbering(o.x))], place := Put(s.place, o.x, Filling(c)))
    else if cl.pc.Submitting? && o.Pushed? then
      s.(clients := s.clients[c := cl.(pc := Waiting(cl.pc.slot, cl.pc.req))], place := Put(s.place, cl.pc.slot, Queued(c)))
    else if cl.pc.Returning? && o.Pushed? then
      s.(clients := s.clients[c := cl.Finish(cl.pc.reply)], place := Put(s.place, cl.pc.slot, Free))
    else s
  }

  function DeliverHandler<P, R>(s: State<P, R>, h: nat, o: S.Outcome): State<P, R>
    requires h < |s.handlers|
  {
    var views := if s.handlers[h].Gathering? then s.handlers[h].views else [];
    if o.Popped? then
      s.(handlers := s.handlers[h := Asserting(views, o.x)],
         place := Put(s.place, o.x, Serving(PlaceOf(s.place, o.x).Owner(), h)))
    else s
  }

  function Deliver<P, R>(s: State<P, R>, a: Act, o: S.Outcome): State<P, R>
    requires Present(s, a)
  {
    match a
    case ClientMoves(c) => DeliverClient(s, c, o)
    case HandlerMoves(h, _) => DeliverHandler(s, h, o)
  }

  function Delivered<P, R>(s: State<P, R>, a: Act, o: Option<S.Outcome>): State<P, R>
    requires Present(s, a)
  {
    if o.Some? then Deliver(s, a, o.value) else s
  }

  /** One atomic access: on with a queue operation, into one, or a step away from the queues. */
  function FineStep<P, R>(agent: Agent<P, R>, f: Fine<P, R>, a: Act): Fine<P, R> {
    var s := f.coarse;
    var t := ThreadOf(s, a);
    if !Present(s, a) || t >= |f.free.threads| || t >= |f.ready.threads| then f
    else if !f.free.threads[t].pc.Idle? then
      Fine(Delivered(s, a, S.Decided(f.free.mem, f.free.threads[t].pc)), S.Step(f.free, S.Choice(t, S.Pop)), f.ready)
    else if !f.ready.threads[t].pc.Idle? then
      Fine(Delivered(s, a, S.Decided(f.ready.mem, f.ready.threads[t].pc)), f.free, S.Step(f.ready, S.Choice(t, S.Pop)))
    else
      match NeedOf(s, a)
      case OnFree(call) => f.(free := S.Step(f.free, S.Choice(t, call)))
      case OnReady(call) => f.(ready := S.Step(f.ready, S.Choice(t, call)))
      case Nothing => f.(coarse := Step(agent, s, a))
  }

  function FineRun<P, R>(agent: Agent<P, R>, f: Fine<P, R>, schedule: seq<Act>): Fine<P, R> {
    if schedule == [] then f
    else FineStep(agent, FineRun(agent, f, schedule[..|schedule| - 1]), schedule[|schedule| - 1])
  }

  function WithQueues<P, R>(s: State<P, R>, freeQ: seq<nat>, readyQ: seq<nat>): State<P, R> {
    s.(freeQ := freeQ, readyQ := readyQ)
  }

  /** The state of `Protocol` that a fine state stands for. */
  function View<P, R>(f: Fine<P, R>): State<P, R> {
    WithQueues(f.coarse, S.Queue(f.free.mem), S.Queue(f.ready.mem))
  }

  // ---- The invariant -------------------------------------------------------------------------

  /** The operation a thread is in the middle of, as long as its outcome is open. */
  function Open(pc: S.Pc): Option<S.Call> {
    match pc
    case Idle => None
    case Unlocking(_) => None
    case Swapping(call) => Some(call)
    case PushLoadTail(x) => Some(S.Push(x))
    case PushLoadHead(x, _) => Some(S.Push(x))
    case PushWrite(x, _) => Some(S.Push(x))
    case PushStoreTail(x, _) => Some(S.Push(x))
    case PopLoadHead => Some(S.Pop)
    case PopLoadTail(_) => Some(S.Pop)
    case PopRead(_) => Some(S.Pop)
    case PopStoreHead(_, _) => Some(S.Pop)
  }

  /** An open operation is the one its agent needs. */
  ghost predicate Wanted<P(!new), R>(f: Fine<P, R>, a: Act)
    requires Present(f.coarse, a)
  {
    var t := ThreadOf(f.coarse, a);
    && t < |f.free.threads| && t < |f.ready.threads|
    && (Open(f.free.threads[t].pc).Some? ==> NeedOf(f.coarse, a) == OnFree(Open(f.free.threads[t].pc).value))
    && (Open(f.ready.threads[t].pc).Some? ==> NeedOf(f.coarse, a) == OnReady(Open(f.ready.threads[t].pc).value))
  }

  /** Gathering goes on until its open pop is decided, whatever the clock says. */
  function Untimed(a: Act): Act {
    match a
    case ClientMoves(_) => a
    case HandlerMoves(h, _) => HandlerMoves(h, false)
  }

  ghost predicate WantedBy<P(!new), R>(f: Fine<P, R>, a: Act) {
    Present(f.coarse, a) ==> Present(f.coarse, Untimed(a)) && Wanted(f, Untimed(a))
  }

  ghost predicate FineInv<P(!new), R>(f: Fine<P, R>) {
    && S.Inv(f.free) && S.Inv(f.ready)
    && |f.free.threads| == |f.ready.threads| == |f.coarse.clients| + |f.coarse.handlers|
    && forall a :: WantedBy(f, a)
  }

  ghost predicate FineInitial<P(!new), R>(f: Fine<P, R>) {
    && Initial(View(f))
    && S.Inv(f.free) && S.Inv(f.ready)
    && |f.free.threads| == |f.ready.threads| == |f.coarse.clients| + |f.coarse.handlers|
    && (forall t: nat :: t < |f.free.threads| ==> f.free.threads[t].pc.Idle?)
    && (forall t: nat :: t < |f.ready.threads| ==> f.ready.threads[t].pc.Idle?)
  }

  lemma InitialFine<P(!new), R>(f: Fine<P, R>)
    requires FineInitial(f)
    ensures FineInv(f)
  {
    forall a ensures WantedBy(f, a) {
    }
  }

  /** The pushes by which the arena's creator, none of the threads, has filled a queue. */
  function FillLog(n: nat, threads: nat): seq<S.Event> {
    seq(n, i requires 0 <= i < n => S.Event(threads, S.Pushed(i)))
  }

  function Upward(n: nat): seq<nat> {
    seq(n, i requires 0 <= i < n => i)
  }

  /** A ring holding the slots 0 to n - 1, with all threads idle. */
  function Filled(n: nat, threads: nat): S.State
    requires n < RingQueue.QCAP
  {
    S.State(S.Memory(0, 0, n, Upward(RingQueue.QCAP)), seq(threads, _ => S.Thread(S.Idle, [])), None, FillLog(n, threads))
  }

  lemma FillGrows(n: nat, threads: nat)
    requires n > 0
    ensures FillLog(n, threads) == FillLog(n - 1, threads) + [S.Event(threads, S.Pushed(n - 1))]
    ensures Upward(n) == Upward(n - 1) + [n - 1]
  {
  }

  lemma PushReplays(log: seq<S.Event>, q: seq<nat>, thread: nat, x: nat, t: nat)
    requires S.Replay(log) == Some(q) && |q| < RingQueue.QCAP - 1 && S.By(log, t) == [] && t != thread
    ensures S.Replay(log + [S.Event(thread, S.Pushed(x))]) == Some(q + [x])
    ensures S.By(log + [S.Event(thread, S.Pushed(x))], t) == []
  {
    S.AppendEvent(log, S.Event(thread, S.Pushed(x)), t);
  }

  lemma {:induction false} FillReplays(n: nat, threads: nat, t: nat)
    requires n < RingQueue.QCAP && t < threads
    ensures S.Replay(FillLog(n, threads)) == Some(Upward(n)) && S.By(FillLog(n, threads), t) == []
  {
    if n > 0 {
      FillReplays(n - 1, threads, t);
      FillGrows(n, threads);
      PushReplays(FillLog(n - 1, threads), Upward(n - 1), threads, n - 1, t);
    } else {
      assert FillLog(n, threads) == [] && Upward(n) == [];
    }
  }

  lemma FilledOk(n: nat, threads: nat)
    requires n < RingQueue.QCAP && threads > 0
    ensures S.Inv(Filled(n, threads)) && S.Queue(Filled(n, threads).mem) == Upward(n)
  {
    var q := Filled(n, threads);
    assert S.Queue(q.mem) == Upward(n);
    FillReplays(n, threads, 0);
    forall t: nat | t < threads ensures S.ThreadOk(q, t) {
      FillReplays(n, threads, t);
    }
  }

  /** Every fresh arena has such a start. */
  lemma FreshArena<P(!new), R>(s: State<P, R>)
    requires Initial(s) && |s.clients| + |s.handlers| > 0
    ensures var threads := |s.clients| + |s.handlers|;
            var f := Fine(s, Filled(|s.slots|, threads), Filled(0, threads));
            FineInitial(f) && View(f) == s
  {
    FilledOk(|s.slots|, |s.clients| + |s.handlers|);
    FilledOk(0, |s.clients| + |s.handlers|);
    assert s.freeQ == Upward(|s.slots|);
  }

  // ---- One step ------------------------------------------------------------------------------

  lemma ClientIgnoresQueues<P(!new), R>(s: State<P, R>, c: nat, freeQ: seq<nat>, readyQ: seq<nat>)
    requires c < |s.clients| && ClientNeed(s.clients[c].pc).Nothing?
    ensures ClientStep(WithQueues(s, freeQ, readyQ), c) == WithQueues(ClientStep(s, c), freeQ, readyQ)
  {
  }

  lemma HandlerIgnoresQueues<P(!new), R>(agent: Agent<P, R>, s: State<P, R>, h: nat, stop: bool, freeQ: seq<nat>, readyQ: seq<nat>)
    requires h < |s.handlers| && HandlerNeed(s.handlers[h], stop).Nothing?
    ensures HandlerStep(agent, WithQueues(s, freeQ, readyQ), h, stop) ==
            WithQueues(HandlerStep(agent, s, h, stop), freeQ, readyQ)
  {
  }

  /** A step away from the queues neither reads nor writes them. */
  lemma LocalIgnoresQueues<P(!new), R>(agent: Agent<P, R>, s: State<P, R>, a: Act, freeQ: seq<nat>, readyQ: seq<nat>)
    requires Present(s, a) && NeedOf(s, a).Nothing?
    ensures Step(agent, WithQueues(s, freeQ, readyQ), a) == WithQueues(Step(agent, s, a), freeQ, readyQ)
  {
    match a {
      case ClientMoves(c) => ClientIgnoresQueues(s, c, freeQ, readyQ);
      case HandlerMoves(h, stop) => HandlerIgnoresQueues(agent, s, h, stop, freeQ, readyQ);
    }
  }

  /** A deciding access does to the protocol what the atomic operation does. */
  lemma FreeDecides<P(!new), R>(agent: Agent<P, R>, s: State<P, R>, a: Act, o: S.Outcome, freeQ: seq<nat>, after: seq<nat>, readyQ: seq<nat>)
    requires Present(s, a) && S.Apply(freeQ, o) == Some(after)
    requires NeedOf(s, a) == OnFree(if o.Popped? || o.Empty? then S.Pop else S.Push(o.x))
    ensures WithQueues(Deliver(s, a, o), after, readyQ) == Step(agent, WithQueues(s, freeQ, readyQ), a)
  {
  }

  lemma ReadyDecides<P(!new), R>(agent: Agent<P, R>, s: State<P, R>, a: Act, o: S.Outcome, freeQ: seq<nat>, readyQ: seq<nat>, after: seq<nat>)
    requires Present(s, a) && S.Apply(readyQ, o) == Some(after)
    requires NeedOf(s, a) == OnReady(if o.Popped? || o.Empty? then S.Pop else S.Push(o.x))
    ensures WithQueues(Deliver(s, a, o), freeQ, after) == Step(agent, WithQueues(s, freeQ, readyQ), a)
  {
  }

  /** An access keeps the operation open, or decides it with an outcome of its own kind. */
  lemma AccessStaysOpen(m: S.Memory, pc: S.Pc, call: S.Call)
    ensures Open(pc).Some? && S.Decided(m, pc).None? ==> Open(S.NextPc(m, pc, call)) == Open(pc)
    ensures S.Decided(m, pc).Some? ==>
              var o := S.Decided(m, pc).value;
              && Open(pc) == Some(if o.Popped? || o.Empty? then S.Pop else S.Push(o.x))
              && Open(S.NextPc(m, pc, call)) == None
    ensures Open(pc).None? && !pc.Idle? ==> Open(S.NextPc(m, pc, call)) == None
    ensures pc.Idle? ==> Open(S.NextPc(m, pc, call)) == Some(call) && S.Decided(m, pc).None?
  {
  }

  /** What an access of thread `t` does to its queue's contents and to the other threads. */
  lemma AccessEffect(q: S.State, t: nat, call: S.Call)
    requires S.Inv(q) && t < |q.threads|
    ensures var q' := S.Step(q, S.Choice(t, call));
            && S.Inv(q') && |q'.threads| == |q.threads|
            && q'.threads[t].pc == S.NextPc(q.mem, q.threads[t].pc, call)
            && (forall u: nat :: u < |q.threads| && u != t ==> q'.threads[u] == q.threads[u])
            && (var o := S.Decided(q.mem, q.threads[t].pc);
                if o.Some? then S.Apply(S.Queue(q.mem), o.value) == Some(S.Queue(q'.mem))
                else S.Queue(q'.mem) == S.Queue(q.mem))
  {
    S.StepKeeps(q, S.Choice(t, call));
    assert S.ThreadOk(q, t);
    S.StepIsAtomicOrSilent(q.mem, q.threads[t].pc);
  }

  // ---- Refinement ----------------------------------------------------------------------------

  /** Only the agent that `a` moves may differ. */
  ghost predicate OnlyAgent<P(!new), R>(s: State<P, R>, s': State<P, R>, a: Act) {
    && |s'.clients| == |s.clients| && |s'.handlers| == |s.handlers|
    && match a
       case ClientMoves(c) => c < |s.clients| && s'.clients == s.clients[c := s'.clients[c]] && s'.handlers == s.handlers
       case HandlerMoves(h, _) => h < |s.handlers| && s'.handlers == s.handlers[h := s'.handlers[h]] && s'.clients == s.clients
  }

  lemma StepOnlyAgent<P(!new), R>(agent: Agent<P, R>, s: State<P, R>, a: Act)
    requires Present(s, a)
    ensures OnlyAgent(s, Step(agent, s, a), a)
  {
    match a {
      case ClientMoves(c) => ClientOnly(agent, s, c);
      case HandlerMoves(h, stop) => HandlerOnly(agent, s, h, stop);
    }
  }

  lemma DeliverOnlyAgent<P(!new), R>(s: State<P, R>, a: Act, o: S.Outcome)
    requires Present(s, a)
    ensures OnlyAgent(s, Deliver(s, a, o), a)
  {
  }

  /** Everyone but thread `t` is where it was. */
  ghost predicate Spares<P(!new), R>(f: Fine<P, R>, f': Fine<P, R>, t: nat) {
    && |f'.free.threads| == |f.free.threads| && |f'.ready.threads| == |f.ready.threads|
    && (forall u: nat :: u < |f.free.threads| && u != t ==> f'.free.threads[u] == f.free.threads[u])
    && (forall u: nat :: u < |f.ready.threads| && u != t ==> f'.ready.threads[u] == f.ready.threads[u])
  }

  lemma InvKept<P(!new), R>(f: Fine<P, R>, f': Fine<P, R>, a: Act)
    requires FineInv(f) && Present(f.coarse, a) && OnlyAgent(f.coarse, f'.coarse, a)
    requires S.Inv(f'.free) && S.Inv(f'.ready) && Spares(f, f', ThreadOf(f.coarse, a))
    requires WantedBy(f', a)
    ensures FineInv(f')
  {
    forall b ensures WantedBy(f', b) {
      assert WantedBy(f, b);
      if Present(f'.coarse, b) && ThreadOf(f.coarse, b) == ThreadOf(f.coarse, a) {
        assert Untimed(b) == Untimed(a);
      }
    }
  }

  /** Thread `t` is in the middle of an operation on the free queue. */
  predicate InFree<P, R>(f: Fine<P, R>, t: nat) {
    t < |f.free.threads| == |f.ready.threads| && !f.free.threads[t].pc.Idle?
  }

  predicate InReady<P, R>(f: Fine<P, R>, t: nat) {
    t < |f.free.threads| == |f.ready.threads| && f.free.threads[t].pc.Idle? && !f.ready.threads[t].pc.Idle?
  }

  lemma FreeDecisive<P(!new), R>(agent: Agent<P, R>, f: Fine<P, R>, a: Act)
    requires FineInv(f) && Present(f.coarse, a)
    requires InFree(f, ThreadOf(f.coarse, a))
    requires S.Decided(f.free.mem, f.free.threads[ThreadOf(f.coarse, a)].pc).Some?
    ensures FineInv(FineStep(agent, f, a))
    ensures View(FineStep(agent, f, a)) == Step(agent, View(f), Untimed(a))
  {
    var t := ThreadOf(f.coarse, a);
    var pc := f.free.threads[t].pc;
    var f' := FineStep(agent, f, a);
    var o := S.Decided(f.free.mem, pc);
    assert WantedBy(f, a);
    AccessEffect(f.free, t, S.Pop);
    AccessStaysOpen(f.free.mem, pc, S.Pop);
    FreeDecides(agent, f.coarse, Untimed(a), o.value, S.Queue(f.free.mem), S.Queue(f'.free.mem), S.Queue(f.ready.mem));
    DeliverOnlyAgent(f.coarse, a, o.value);
    InvKept(f, f', a);
  }

  lemma FreeSilent<P(!new), R>(agent: Agent<P, R>, f: Fine<P, R>, a: Act)
    requires FineInv(f) && Present(f.coarse, a)
    requires InFree(f, ThreadOf(f.coarse, a))
    requires S.Decided(f.free.mem, f.free.threads[ThreadOf(f.coarse, a)].pc).None?
    ensures FineInv(FineStep(agent, f, a)) && View(FineStep(agent, f, a)) == View(f)
  {
    var t := ThreadOf(f.coarse, a);
    assert WantedBy(f, a);
    AccessEffect(f.free, t, S.Pop);
    AccessStaysOpen(f.free.mem, f.free.threads[t].pc, S.Pop);
    InvKept(f, FineStep(agent, f, a), a);
  }

  /** An access on the free queue: the view stays, or makes the step the agent is in the middle of. */
  lemma FreeAccess<P(!new), R>(agent: Agent<P, R>, f: Fine<P, R>, a: Act)
    requires FineInv(f) && Present(f.coarse, a)
    requires InFree(f, ThreadOf(f.coarse, a))
    ensures FineInv(FineStep(agent, f, a))
    ensures View(FineStep(agent, f, a)) == View(f) || View(FineStep(agent, f, a)) == Step(agent, View(f), Untimed(a))
  {
    if S.Decided(f.free.mem, f.free.threads[ThreadOf(f.coarse, a)].pc).Some? {
      FreeDecisive(agent, f, a);
    } else {
      FreeSilent(agent, f, a);
    }
  }

  lemma ReadyDecisive<P(!new), R>(agent: Agent<P, R>, f: Fine<P, R>, a: Act)
    requires FineInv(f) && Present(f.coarse, a)
    requires InReady(f, ThreadOf(f.coarse, a))
    requires S.Decided(f.ready.mem, f.ready.threads[ThreadOf(f.coarse, a)].pc).Some?
    ensures FineInv(FineStep(agent, f, a))
    ensures View(FineStep(agent, f, a)) == Step(agent, View(f), Untimed(a))
  {
    var t := ThreadOf(f.coarse, a);
    var pc := f.ready.threads[t].pc;
    var f' := FineStep(agent, f, a);
    var o := S.Decided(f.ready.mem, pc);
    assert WantedBy(f, a);
    AccessEffect(f.ready, t, S.Pop);
    AccessStaysOpen(f.ready.mem, pc, S.Pop);
    ReadyDecides(agent, f.coarse, Untimed(a), o.value, S.Queue(f.free.mem), S.Queue(f.ready.mem), S.Queue(f'.ready.mem));
    DeliverOnlyAgent(f.coarse, a, o.value);
    InvKept(f, f', a);
  }

  lemma ReadySilent<P(!new), R>(agent: Agent<P, R>, f: Fine<P, R>, a: Act)
    requires FineInv(f) && Present(f.coarse, a)
    requires InReady(f, ThreadOf(f.coarse, a))
    requires S.Decided(f.ready.mem, f.ready.threads[ThreadOf(f.coarse, a)].pc).None?
    ensures FineInv(FineStep(agent, f, a)) && View(FineStep(agent, f, a)) == View(f)
  {
    var t := ThreadOf(f.coarse, a);
    assert WantedBy(f, a);
    AccessEffect(f.ready, t, S.Pop);
    AccessStaysOpen(f.ready.mem, f.ready.threads[t].pc, S.Pop);
    InvKept(f, FineStep(agent, f, a), a);
  }

  /** An access on the ready queue: the view stays, or makes the step the agent is in the middle of. */
  lemma ReadyAccess<P(!new), R>(agent: Agent<P, R>, f: Fine<P, R>, a: Act)
    requires FineInv(f) && Present(f.coarse, a)
    requires InReady(f, ThreadOf(f.coarse, a))
    ensures FineInv(FineStep(agent, f, a))
    ensures View(FineStep(agent, f, a)) == View(f) || View(FineStep(agent, f, a)) == Step(agent, View(f), Untimed(a))
  {
    if S.Decided(f.ready.mem, f.ready.threads[ThreadOf(f.coarse, a)].pc).Some? {
      ReadyDecisive(agent, f, a);
    } else {
      ReadySilent(agent, f, a);
    }
  }

  /** Entering a queue operation is invisible; any other step is the protocol's own. */
  lemma OtherStep<P(!new), R>(agent: Agent<P, R>, f: Fine<P, R>, a: Act)
    requires FineInv(f) && Present(f.coarse, a)
    requires var t := ThreadOf(f.coarse, a);
             t < |f.free.threads| && f.free.threads[t].pc.Idle? && t < |f.ready.threads| && f.ready.threads[t].pc.Idle?
    ensures FineInv(FineStep(agent, f, a))
    ensures View(FineStep(agent, f, a)) == View(f) || View(FineStep(agent, f, a)) == Step(agent, View(f), a)
  {
    var t := ThreadOf(f.coarse, a);
    var f' := FineStep(agent, f, a);
    assert WantedBy(f, a);
    match NeedOf(f.coarse, a) {
      case OnFree(call) =>
        AccessEffect(f.free, t, call);
        AccessStaysOpen(f.free.mem, f.free.threads[t].pc, call);
      case OnReady(call) =>
        AccessEffect(f.ready, t, call);
        AccessStaysOpen(f.ready.mem, f.ready.threads[t].pc, call);
      case Nothing =>
        LocalIgnoresQueues(agent, f.coarse, a, S.Queue(f.free.mem), S.Queue(f.ready.mem));
        StepOnlyAgent(agent, f.coarse, a);
    }
    InvKept(f, f', a);
  }

  /** Each atomic access is invisible in the protocol or one of its steps. */
  lemma FineStepRefines<P(!new), R>(agent: Agent<P, R>, f: Fine<P, R>, a: Act) returns (b: Act)
    requires FineInv(f)
    ensures FineInv(FineStep(agent, f, a))
    ensures View(FineStep(agent, f, a)) == View(f) || View(FineStep(agent, f, a)) == Step(agent, View(f), b)
  {
    b := a;
    var t := ThreadOf(f.coarse, a);
    if Present(f.coarse, a) && t < |f.free.threads| {
      if !f.free.threads[t].pc.Idle? {
        FreeAccess(agent, f, a);
        b := Untimed(a);
      } else if !f.ready.threads[t].pc.Idle? {
        ReadyAccess(agent, f, a);
        b := Untimed(a);
      } else {
        OtherStep(agent, f, a);
      }
    }
  }

  /** Every run on the taken-apart queues is a run of the protocol. */
  lemma {:induction false} FineRunRefines<P(!new), R>(agent: Agent<P, R>, f: Fine<P, R>, schedule: seq<Act>) returns (coarse: seq<Act>)
    requires FineInitial(f)
    ensures FineInv(FineRun(agent, f, schedule)) && |coarse| <= |schedule|
    ensures View(FineRun(agent, f, schedule)) == Run(agent, View(f), coarse)
  {
    if schedule == [] {
      InitialFine(f);
      coarse := [];
    } else {
      var front := schedule[..|schedule| - 1];
      var before := FineRunRefines(agent, f, front);
      var g := FineRun(agent, f, front);
      var b := FineStepRefines(agent, g, schedule[|schedule| - 1]);
      coarse := if View(FineRun(agent, f, schedule)) == View(g) then before else before + [b];
      assert (before + [b])[..|before|] == before;
    }
  }

  /** So on the spinlocked rings, too, every returned call got what the agent said about its own rows. */
  lemma FineCallsGetTheirOwnAnswers<P(!new), R>(agent: Agent<P, R>, f: Fine<P, R>, schedule: seq<Act>, c: nat, k: nat)
    requires FineInitial(f) && c < |f.coarse.clients|
    ensures var s := FineRun(agent, f, schedule).coarse;
            && |s.clients| == |f.coarse.clients|
            && |s.clients[c].returned| <= |f.coarse.clients[c].calls|
            && (k < |s.clients[c].returned| ==> Owed(agent, f.coarse.clients[c].calls[k], s.clients[c].returned[k]))
  {
    var coarse := FineRunRefines(agent, f, schedule);
    EveryCallGetsItsOwnAnswers(agent, View(f), coarse, c, k);
  }
}
