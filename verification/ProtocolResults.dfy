/** The protocol's promises, for every run from a freshly initialised arena. */
module ProtocolResults {
  import opened Wrappers
  import opened Batching
  import opened Protocol
  import opened ProtocolSafety
  import opened Sums

  predicate FilledBy<P, R>(s: State<P, R>, c: nat, i: nat)
    requires c < |s.clients|
  {
    s.clients[c].pc.Fills() && s.clients[c].pc.slot == i
  }

  /** Client `c` has slot `i` back from the handlers. */
  predicate AnsweredTo<P, R>(s: State<P, R>, c: nat, i: nat)
    requires c < |s.clients| && i < |s.slots|
  {
    var pc := s.clients[c].pc;
    (pc.Reads() || (pc.Waiting? && s.slots[i].state.DONE?)) && pc.slot == i
  }

  lemma FoundFree<P(!new), R>(agent: Agent<P, R>, s: State<P, R>, i: nat)
    requires Inv(agent, s) && i < |s.slots|
    ensures i in s.freeQ <==> s.place[i].Free?
    ensures i in s.readyQ <==> s.place[i].Queued?
  {
    assert SlotOk(agent, s, i);
    if k: nat :| k < |s.freeQ| && s.freeQ[k] == i { assert FreeAt(s.place, s.freeQ[k]); }
    if k: nat :| k < |s.readyQ| && s.readyQ[k] == i { assert QueuedAt(s.place, s.readyQ[k]); }
  }

  lemma FoundAtClient<P(!new), R>(agent: Agent<P, R>, s: State<P, R>, i: nat, c: nat)
    requires Inv(agent, s) && i < |s.slots| && c < |s.clients|
    ensures FilledBy(s, c, i) <==> s.place[i] == Filling(c)
    ensures AnsweredTo(s, c, i) <==> s.place[i] == Served(c)
  {
    assert SlotOk(agent, s, i) && ClientOk(agent, s, c);
  }

  lemma FoundAtHandler<P(!new), R>(agent: Agent<P, R>, s: State<P, R>, i: nat, h: nat)
    requires Inv(agent, s) && i < |s.slots| && h < |s.handlers|
    ensures i in Pending(s.handlers[h]) <==> ServedBy(s.place, i, h)
  {
    assert SlotOk(agent, s, i) && HandlerOk(s, h);
    var p := Pending(s.handlers[h]);
    if k: nat :| k < |p| && p[k] == i { assert ServedBy(s.place, p[k], h); }
  }

  /**
   * Ownership: in every reachable state a slot is in exactly one place, namely `place[i]` — queued
   * free, being filled by one client, queued ready, popped by one handler, or answered and awaiting
   * its client — and nowhere twice.
   */
  lemma EachSlotInOnePlace<P(!new), R>(agent: Agent<P, R>, s0: State<P, R>, schedule: seq<Act>, i: nat)
    requires Initial(s0) && i < |s0.slots|
    ensures var s := Run(agent, s0, schedule);
            && |s.slots| == |s.place| == |s0.slots|
            && (i in s.freeQ <==> s.place[i].Free?)
            && (forall c: nat :: c < |s.clients| ==> (FilledBy(s, c, i) <==> s.place[i] == Filling(c)))
            && (i in s.readyQ <==> s.place[i].Queued?)
            && (forall h: nat :: h < |s.handlers| ==> (i in Pending(s.handlers[h]) <==> ServedBy(s.place, i, h)))
            && (forall c: nat :: c < |s.clients| ==> (AnsweredTo(s, c, i) <==> s.place[i] == Served(c)))
            && Distinct(s.freeQ) && Distinct(s.readyQ)
            && (forall h: nat :: h < |s.handlers| ==> Distinct(Pending(s.handlers[h])))
  {
    RunKeeps(agent, s0, schedule);
    RunSizes(agent, s0, schedule);
    var s := Run(agent, s0, schedule);
    FoundFree(agent, s, i);
    forall c: nat | c < |s.clients|
      ensures (FilledBy(s, c, i) <==> s.place[i] == Filling(c)) && (AnsweredTo(s, c, i) <==> s.place[i] == Served(c))
    {
      FoundAtClient(agent, s, i, c);
    }
    forall h: nat | h < |s.handlers|
      ensures Distinct(Pending(s.handlers[h])) && (i in Pending(s.handlers[h]) <==> ServedBy(s.place, i, h))
    {
      FoundAtHandler(agent, s, i, h);
      assert HandlerOk(s, h);
    }
  }

  /** A client keeps its workload and its identity. */
  ghost predicate SameWork<P(!new), R>(s: State<P, R>, t: State<P, R>, c: nat)
    requires c < |s.clients| == |t.clients|
  {
    t.clients[c].calls == s.clients[c].calls && t.clients[c].owner == s.clients[c].owner
  }

  lemma StepSizes<P(!new), R>(agent: Agent<P, R>, s: State<P, R>, a: Act)
    ensures var t := Step(agent, s, a);
            && |t.slots| == |s.slots| && |t.clients| == |s.clients| && |t.handlers| == |s.handlers|
            && forall c: nat :: c < |s.clients| ==> SameWork(s, t, c)
  {
  }

  lemma {:induction false} RunSizes<P(!new), R>(agent: Agent<P, R>, s: State<P, R>, schedule: seq<Act>)
    ensures var t := Run(agent, s, schedule);
            && |t.slots| == |s.slots| && |t.clients| == |s.clients| && |t.handlers| == |s.handlers|
            && forall c: nat :: c < |s.clients| ==> SameWork(s, t, c)
  {
    if schedule != [] {
      var before := Run(agent, s, schedule[..|schedule| - 1]);
      var t := Run(agent, s, schedule);
      RunSizes(agent, s, schedule[..|schedule| - 1]);
      StepSizes(agent, before, schedule[|schedule| - 1]);
      forall c: nat | c < |s.clients| ensures SameWork(s, t, c) {
        assert SameWork(s, before, c) && SameWork(before, t, c);
      }
    }
  }

  /** Pigeonhole. */
  lemma {:induction false} DistinctFits(q: seq<nat>, room: set<nat>)
    requires Distinct(q) && forall k: nat :: k < |q| ==> q[k] in room
    ensures |q| <= |room|
    ensures |q| == |room| ==> forall x :: x in room ==> x in q
  {
    if q != [] {
      var rest := q[1..];
      var less := room - {q[0]};
      forall k: nat | k < |rest| ensures rest[k] in less {
        assert rest[k] == q[k + 1];
      }
      DistinctFits(rest, less);
      if |q| == |room| {
        forall x | x in room ensures x in q {
          if x != q[0] { assert x in less; }
        }
      }
    } else if |room| == 0 {
      assert room == {};
    }
  }

  function Upto(n: nat): (r: set<nat>)
    ensures |r| == n && forall x: nat :: x in r <==> x < n
  {
    if n == 0 then {} else Upto(n - 1) + {n - 1}
  }

  lemma QueuesFit<P(!new), R>(agent: Agent<P, R>, s: State<P, R>)
    requires Inv(agent, s)
    ensures |s.freeQ| <= |s.slots| && |s.readyQ| <= |s.slots|
  {
    forall k: nat | k < |s.freeQ| ensures s.freeQ[k] in Upto(|s.slots|) { assert FreeAt(s.place, s.freeQ[k]); }
    DistinctFits(s.freeQ, Upto(|s.slots|));
    forall k: nat | k < |s.readyQ| ensures s.readyQ[k] in Upto(|s.slots|) { assert QueuedAt(s.place, s.readyQ[k]); }
    DistinctFits(s.readyQ, Upto(|s.slots|));
  }

  /** A client about to push finds room: its own slot is in neither queue. */
  lemma PushHasRoom<P(!new), R>(agent: Agent<P, R>, s: State<P, R>, c: nat)
    requires Inv(agent, s) && c < |s.clients|
    ensures s.clients[c].pc.Submitting? ==> |s.readyQ| < QUEUE_ROOM
    ensures s.clients[c].pc.Returning? ==> |s.freeQ| < QUEUE_ROOM
  {
    assert ClientOk(agent, s, c);
    var pc := s.clients[c].pc;
    if pc.Submitting? || pc.Returning? {
      FoundFree(agent, s, pc.slot);
      var q := if pc.Submitting? then s.readyQ else s.freeQ;
      var room := Upto(|s.slots|) - {pc.slot};
      forall k: nat | k < |q| ensures q[k] in room {
        if pc.Submitting? { assert QueuedAt(s.place, s.readyQ[k]); } else { assert FreeAt(s.place, s.freeQ[k]); }
        assert q[k] in q;
      }
      DistinctFits(q, room);
    }
  }

  /** No push ever finds its queue full. */
  lemma NoPushRetries<P(!new), R>(agent: Agent<P, R>, s0: State<P, R>, schedule: seq<Act>, c: nat)
    requires Initial(s0) && c < |s0.clients|
    ensures var s := Run(agent, s0, schedule);
            && |s.clients| == |s0.clients|
            && (s.clients[c].pc.Submitting? ==> |s.readyQ| < QUEUE_ROOM)
            && (s.clients[c].pc.Returning? ==> |s.freeQ| < QUEUE_ROOM)
  {
    RunKeeps(agent, s0, schedule);
    RunSizes(agent, s0, schedule);
    PushHasRoom(agent, Run(agent, s0, schedule), c);
  }

  /** What a handler pops is READY, so its assertion never fails and it never crashes on one. */
  lemma PopSeesReady<P(!new), R>(agent: Agent<P, R>, s0: State<P, R>, schedule: seq<Act>, h: nat)
    requires Initial(s0) && h < |s0.handlers|
    ensures var s := Run(agent, s0, schedule);
            && |s.handlers| == |s0.handlers|
            && !s.handlers[h].Crashed?
            && (s.handlers[h].Asserting? ==>
                s.handlers[h].slot < |s.slots| && s.slots[s.handlers[h].slot].state.READY?)
  {
    RunKeeps(agent, s0, schedule);
    RunSizes(agent, s0, schedule);
    var s := Run(agent, s0, schedule);
    assert HandlerOk(s, h);
    if s.handlers[h].Asserting? {
      TargetServed(agent, s, h);
      assert SlotOk(agent, s, s.handlers[h].slot);
    }
  }

  /** How one step may change a slot: its request is frozen while it is not FREE, its answer once it is DONE. */
  predicate Guarded<P(==), R(==)>(sl: SlotData<P, R>, sl': SlotData<P, R>) {
    && (!sl.state.FREE? ==> sl'.b == sl.b && sl'.owner == sl.owner && sl'.req == sl.req && sl'.input == sl.input)
    && (sl.state.DONE? ==> sl'.output == sl.output)
    && (sl'.state == sl.state
        || (sl.state.FREE? && sl'.state.READY?)
        || (sl.state.READY? && sl'.state.DONE?)
        || (sl.state.DONE? && sl'.state.FREE?))
  }

  lemma ClientGuards<P(!new), R>(agent: Agent<P, R>, s: State<P, R>, c: nat, i: nat)
    requires Inv(agent, s) && c < |s.clients| && i < |s.slots|
    ensures |ClientStep(s, c).slots| == |s.slots| && Guarded(s.slots[i], ClientStep(s, c).slots[i])
  {
    assert ClientOk(agent, s, c);
    if !s.clients[c].pc.Idle() {
      assert SlotOk(agent, s, s.clients[c].pc.slot);
    }
  }

  lemma HandlerGuards<P(!new), R>(agent: Agent<P, R>, s: State<P, R>, h: nat, stop: bool, i: nat)
    requires Inv(agent, s) && h < |s.handlers| && i < |s.slots|
    ensures var t := HandlerStep(agent, s, h, stop); |t.slots| == |s.slots| && Guarded(s.slots[i], t.slots[i])
  {
    if Target(s.handlers[h]).Some? {
      TargetServed(agent, s, h);
      assert SlotOk(agent, s, Target(s.handlers[h]).value);
    }
  }

  /** From READY to release a slot's request never changes, and from DONE to release its answer never does. */
  lemma RequestsAndAnswersAreFrozen<P(!new), R>(agent: Agent<P, R>, s0: State<P, R>, schedule: seq<Act>, a: Act, i: nat)
    requires Initial(s0) && i < |s0.slots|
    ensures var s, t := Run(agent, s0, schedule), Run(agent, s0, schedule + [a]);
            && |s.slots| == |t.slots| == |s0.slots|
            && Guarded(s.slots[i], t.slots[i])
  {
    assert (schedule + [a])[..|schedule|] == schedule;
    RunKeeps(agent, s0, schedule);
    RunSizes(agent, s0, schedule);
    RunSizes(agent, s0, schedule + [a]);
    var s := Run(agent, s0, schedule);
    match a {
      case ClientMoves(c) => if c < |s.clients| { ClientGuards(agent, s, c, i); }
      case HandlerMoves(h, stop) => if h < |s.handlers| { HandlerGuards(agent, s, h, stop, i); }
    }
  }

  /**
   * Own responses: whatever the interleaving, every call that has returned was refused for its size
   * or got the agent's answers to its own observations, in order; no call fails to pack or sees a
   * mismatched response.
   */
  lemma EveryCallGetsItsOwnAnswers<P(!new), R>(agent: Agent<P, R>, s0: State<P, R>, schedule: seq<Act>, c: nat, k: nat)
    requires Initial(s0) && c < |s0.clients|
    ensures var s := Run(agent, s0, schedule);
            && |s.clients| == |s0.clients|
            && |s.clients[c].returned| <= |s0.clients[c].calls|
            && (k < |s.clients[c].returned| ==> Owed(agent, s0.clients[c].calls[k], s.clients[c].returned[k]))
  {
    RunKeeps(agent, s0, schedule);
    RunSizes(agent, s0, schedule);
    var s := Run(agent, s0, schedule);
    assert ClientOk(agent, s, c) && SameWork(s0, s, c);
    if k < |s.clients[c].returned| {
      assert ReplyOk(agent, s.clients[c], k);
    }
  }

  ghost predicate AllIdle<P(!new), R>(s: State<P, R>) {
    forall c: nat :: c < |s.clients| ==> s.clients[c].pc.Idle()
  }

  lemma IdleMeansFree<P(!new), R>(agent: Agent<P, R>, s: State<P, R>, i: nat)
    requires Inv(agent, s) && AllIdle(s) && i < |s.slots|
    ensures i in s.freeQ && s.slots[i].state.FREE?
  {
    assert SlotOk(agent, s, i);
  }

  /** Every acquired slot comes back: when no call holds a slot, each slot is in the free queue exactly once. */
  lemma AtRestAllSlotsAreFree<P(!new), R>(agent: Agent<P, R>, s0: State<P, R>, schedule: seq<Act>)
    requires Initial(s0) && AllIdle(Run(agent, s0, schedule))
    ensures var s := Run(agent, s0, schedule);
            && Distinct(s.freeQ) && |s.freeQ| == |s.slots| == |s0.slots|
            && forall i: nat :: i < |s0.slots| ==> i in s.freeQ && s.slots[i].state.FREE?
  {
    RunKeeps(agent, s0, schedule);
    RunSizes(agent, s0, schedule);
    var s := Run(agent, s0, schedule);
    forall i: nat | i < |s.slots| ensures i in s.freeQ && s.slots[i].state.FREE? {
      IdleMeansFree(agent, s, i);
    }
    QueuesFit(agent, s);
    CoveringIsLong(s.freeQ, Upto(|s.slots|));
  }

  lemma {:induction false} CoveringIsLong(q: seq<nat>, all: set<nat>)
    requires forall x :: x in all ==> x in q
    ensures |q| >= |all|
  {
    if all != {} {
      var some :| some in all;
      assert some in q;
      var less := all - {q[0]};
      forall x | x in less ensures x in q[1..] {
        var k :| 0 <= k < |q| && q[k] == x;
        assert q[1..][k - 1] == x;
      }
      CoveringIsLong(q[1..], less);
      assert all <= less + {q[0]};
      SubsetSize(all, less + {q[0]});
    }
  }

  lemma SubsetSize(a: set<nat>, b: set<nat>)
    requires a <= b
    ensures |a| <= |b|
  {
    assert b == a + (b - a);
  }

  // ---- Bounds that need no invariant of the others ---------------------------------------------

  /** The request number a client is working under. */
  function Numbered<R>(pc: ClientPc<R>): Option<nat> {
    match pc
    case WritingB(_, req) => Some(req)
    case WritingOwner(_, req) => Some(req)
    case WritingReq(_, req) => Some(req)
    case Packing(_, req) => Some(req)
    case Readying(_, req) => Some(req)
    case Submitting(_, req) => Some(req)
    case Waiting(_, req) => Some(req)
    case Checking(_, req) => Some(req)
    case Reading(_, req) => Some(req)
    case _ => None
  }

  /** A client's number is the last one it drew; it has drawn at most one per call begun. */
  predicate Fresh<P, R>(cl: Client<P, R>) {
    && (Numbered(cl.pc).Some? ==> Numbered(cl.pc).value + 1 == cl.nextReq)
    && cl.nextReq <= |cl.returned| + (if cl.pc.Idle() || cl.pc.Numbering? then 0 else 1)
  }

  lemma ClientStaysFresh<P, R>(s: State<P, R>, c: nat, d: nat)
    requires c < |s.clients| && d < |s.clients| && Fresh(s.clients[d])
    ensures |ClientStep(s, c).clients| == |s.clients| && Fresh(ClientStep(s, c).clients[d])
  {
  }

  lemma HandlersSpareClients<P, R>(agent: Agent<P, R>, s: State<P, R>, h: nat, stop: bool)
    requires h < |s.handlers|
    ensures HandlerStep(agent, s, h, stop).clients == s.clients
    ensures |HandlerStep(agent, s, h, stop).handlers| == |s.handlers|
  {
  }

  /** In every run a client's requests carry a number of their own each: the one just drawn, with one draw per call at most. */
  lemma {:induction false} RequestsAreFresh<P(!new), R>(agent: Agent<P, R>, s0: State<P, R>, schedule: seq<Act>, c: nat)
    requires Initial(s0) && c < |s0.clients|
    ensures var s := Run(agent, s0, schedule); c < |s.clients| && Fresh(s.clients[c])
    decreases |schedule|
  {
    if schedule != [] {
      RequestsAreFresh(agent, s0, schedule[..|schedule| - 1], c);
      var s := Run(agent, s0, schedule[..|schedule| - 1]);
      match schedule[|schedule| - 1] {
        case ClientMoves(d) => if d < |s.clients| { ClientStaysFresh(s, d, c); }
        case HandlerMoves(h, stop) => if h < |s.handlers| { HandlersSpareClients(agent, s, h, stop); }
      }
    }
  }

  /** The slots a handler is working on, counting the one it has just popped. */
  function Load<P, R>(pc: HandlerPc<P, R>): nat {
    match pc
    case Popping => 0
    case Asserting(views, _) => |views| + 1
    case Clearing(views, _) => |views| + 1
    case Gathering(views) => |views|
    case Building(todo, batch) => |todo| + |batch|
    case Writing(out) => |out|
    case Marking(out) => |out|
    case Crashed => 0
  }

  lemma HandlerStaysBounded<P, R>(agent: Agent<P, R>, s: State<P, R>, h: nat, stop: bool, k: nat)
    requires h < |s.handlers| && k < |s.handlers| && Load(s.handlers[k]) <= 64
    ensures |HandlerStep(agent, s, h, stop).handlers| == |s.handlers| && Load(HandlerStep(agent, s, h, stop).handlers[k]) <= 64
  {
  }

  lemma ClientsSpareHandlers<P, R>(s: State<P, R>, c: nat)
    requires c < |s.clients|
    ensures ClientStep(s, c).handlers == s.handlers
  {
  }

  /** In every run a handler holds at most 64 slots, so no batch has more. */
  lemma {:induction false} BatchesAreBounded<P(!new), R>(agent: Agent<P, R>, s0: State<P, R>, schedule: seq<Act>, h: nat)
    requires Initial(s0) && h < |s0.handlers|
    ensures var s := Run(agent, s0, schedule); h < |s.handlers| && Load(s.handlers[h]) <= 64
    decreases |schedule|
  {
    if schedule != [] {
      BatchesAreBounded(agent, s0, schedule[..|schedule| - 1], h);
      var s := Run(agent, s0, schedule[..|schedule| - 1]);
      match schedule[|schedule| - 1] {
        case ClientMoves(c) => if c < |s.clients| { ClientsSpareHandlers(s, c); }
        case HandlerMoves(k, stop) => if k < |s.handlers| { HandlerStaysBounded(agent, s, k, stop, h); }
      }
    }
  }
}
