/**
 * The ring queue under its spinlock, as any number of threads interleave on it: one step per
 * atomic access of `SpinLock::lock`, `RingQueue::try_push`, `RingQueue::try_pop` and
 * `SpinLock::unlock` (mcts-core/src/ipc_core.rs). A schedule says which thread moves next and what
 * an idle thread calls; the blocking variants are repeated calls.
 */
module SpinQueue {
  import opened Wrappers
  import opened RingQueue

  type Cursor = i: nat | i < QCAP
  type Cells = s: seq<nat> | |s| == QCAP witness seq(QCAP, _ => 0)

  datatype Memory = Memory(flag: nat, head: Cursor, tail: Cursor, slots: Cells)

  datatype Call = Push(x: nat) | Pop

  datatype Outcome = Pushed(x: nat) | Full(x: nat) | Popped(x: nat) | Empty

  /** What a thread does next; the arguments are its locals. */
  datatype Pc =
    | Idle
    | Swapping(call: Call)
    | PushLoadTail(x: nat)
    | PushLoadHead(x: nat, tail: Cursor)
    | PushWrite(x: nat, tail: Cursor)
    | PushStoreTail(x: nat, tail: Cursor)
    | PopLoadHead
    | PopLoadTail(head: Cursor)
    | PopRead(head: Cursor)
    | PopStoreHead(x: nat, head: Cursor)
    | Unlocking(outcome: Outcome)
  {
    predicate Critical() {
      !Idle? && !Swapping?
    }
  }

  /** One thread: where it is and what its calls have returned so far. */
  datatype Thread = Thread(pc: Pc, returned: seq<Outcome>)

  datatype Event = Event(thread: nat, outcome: Outcome)

  /** `owner` and `log` are bookkeeping that no step reads. */
  datatype State = State(mem: Memory, threads: seq<Thread>, owner: Option<nat>, log: seq<Event>)

  datatype Choice = Choice(thread: nat, call: Call)

  function Entered(call: Call): Pc {
    match call
    case Push(x) => PushLoadTail(x)
    case Pop => PopLoadHead
  }

  function NextPc(m: Memory, pc: Pc, call: Call): Pc {
    match pc
    case Idle => Swapping(call)
    case Swapping(c) => if m.flag == 1 then pc else Entered(c)
    case PushLoadTail(x) => PushLoadHead(x, m.tail)
    case PushLoadHead(x, t) => if After(t) == m.head then Unlocking(Full(x)) else PushWrite(x, t)
    case PushWrite(x, t) => PushStoreTail(x, t)
    case PushStoreTail(x, t) => Unlocking(Pushed(x))
    case PopLoadHead => PopLoadTail(m.head)
    case PopLoadTail(h) => if h == m.tail then Unlocking(Empty) else PopRead(h)
    case PopRead(h) => PopStoreHead(m.slots[h], h)
    case PopStoreHead(x, h) => Unlocking(Popped(x))
    case Unlocking(_) => Idle
  }

  function NextMemory(m: Memory, pc: Pc): Memory {
    match pc
    case Swapping(_) => m.(flag := 1)
    case PushWrite(x, t) => m.(slots := m.slots[t := x])
    case PushStoreTail(_, t) => m.(tail := After(t))
    case PopStoreHead(_, h) => m.(head := After(h))
    case Unlocking(_) => m.(flag := 0)
    case _ => m
  }

  /** The outcome a step decides: the store that publishes, or the load that finds the queue full or empty. */
  function Decided(m: Memory, pc: Pc): (o: Option<Outcome>) {
    var next := NextPc(m, pc, Pop);
    if next.Unlocking? then Some(next.outcome) else None
  }

  function NextOwner(s: State, t: nat): Option<nat>
    requires t < |s.threads|
  {
    match s.threads[t].pc
    case Swapping(_) => if s.mem.flag == 1 then s.owner else Some(t)
    case Unlocking(_) => None
    case _ => s.owner
  }

  function NextThread(s: State, t: nat, call: Call): Thread
    requires t < |s.threads|
  {
    var was := s.threads[t];
    var pc := NextPc(s.mem, was.pc, call);
    Thread(pc, if was.pc.Unlocking? then was.returned + [was.pc.outcome] else was.returned)
  }

  /** One atomic step of thread `c.thread`; `c.call` is what it calls if it is idle. */
  function Step(s: State, c: Choice): State {
    if c.thread >= |s.threads| then s else
      var pc := s.threads[c.thread].pc;
      var decided := Decided(s.mem, pc);
      State(NextMemory(s.mem, pc),
            s.threads[c.thread := NextThread(s, c.thread, c.call)],
            NextOwner(s, c.thread),
            if decided.Some? then s.log + [Event(c.thread, decided.value)] else s.log)
  }

  function Initial(n: nat): State {
    State(Memory(0, 0, 0, seq(QCAP, _ => 0)), seq(n, _ => Thread(Idle, [])), None, [])
  }

  /** The state that `n` threads reach under a schedule. */
  function Run(n: nat, schedule: seq<Choice>): State {
    if schedule == [] then Initial(n)
    else Step(Run(n, schedule[..|schedule| - 1]), schedule[|schedule| - 1])
  }

  /** A queue whose operations are atomic; `None` when the outcome is impossible. */
  function Apply(q: seq<nat>, o: Outcome): Option<seq<nat>> {
    match o
    case Pushed(x) => if |q| < QCAP - 1 then Some(q + [x]) else None
    case Full(x) => if |q| == QCAP - 1 then Some(q) else None
    case Popped(x) => if q != [] && q[0] == x then Some(q[1..]) else None
    case Empty => if q == [] then Some(q) else None
  }

  function Replay(log: seq<Event>): Option<seq<nat>> {
    if log == [] then Some([])
    else
      var before := Replay(log[..|log| - 1]);
      if before.None? then None else Apply(before.value, log[|log| - 1].outcome)
  }

  /** What thread `t` did, in log order. */
  function By(log: seq<Event>, t: nat): seq<Outcome> {
    if log == [] then []
    else
      var last := log[|log| - 1];
      By(log[..|log| - 1], t) + (if last.thread == t then [last.outcome] else [])
  }

  function PushedIn(log: seq<Event>): seq<nat> {
    if log == [] then []
    else
      var o := log[|log| - 1].outcome;
      PushedIn(log[..|log| - 1]) + (if o.Pushed? then [o.x] else [])
  }

  function PoppedIn(log: seq<Event>): seq<nat> {
    if log == [] then []
    else
      var o := log[|log| - 1].outcome;
      PoppedIn(log[..|log| - 1]) + (if o.Popped? then [o.x] else [])
  }

  function Queue(m: Memory): seq<nat> {
    Contents(m.slots, m.head, m.tail)
  }

  /** A thread's locals are still what shared memory holds. */
  predicate Fresh(m: Memory, pc: Pc) {
    match pc
    case PushLoadHead(_, t) => t == m.tail
    case PushWrite(_, t) => t == m.tail && After(t) != m.head
    case PushStoreTail(x, t) => t == m.tail && After(t) != m.head && m.slots[t] == x
    case PopLoadTail(h) => h == m.head
    case PopRead(h) => h == m.head != m.tail
    case PopStoreHead(x, h) => h == m.head != m.tail && m.slots[h] == x
    case _ => true
  }

  function Undelivered(pc: Pc): seq<Outcome> {
    if pc.Unlocking? then [pc.outcome] else []
  }

  /** The thread holds the lock exactly in its critical section, and its returns are its part of the log. */
  predicate ThreadOk(s: State, t: nat)
    requires t < |s.threads|
  {
    var th := s.threads[t];
    && (th.pc.Critical() <==> s.owner == Some(t))
    && Fresh(s.mem, th.pc)
    && By(s.log, t) == th.returned + Undelivered(th.pc)
  }

  predicate LockOk(s: State) {
    && (s.mem.flag == 0 || s.mem.flag == 1)
    && (s.mem.flag == 1 <==> s.owner.Some?)
    && (s.owner.Some? ==> s.owner.value < |s.threads|)
  }

  ghost predicate Inv(s: State) {
    && LockOk(s)
    && Replay(s.log) == Some(Queue(s.mem))
    && forall t: nat :: t < |s.threads| ==> ThreadOk(s, t)
  }

  lemma AppendEvent(log: seq<Event>, e: Event, t: nat)
    ensures Replay(log + [e]) ==
            (if Replay(log).Some? then Apply(Replay(log).value, e.outcome) else None)
    ensures By(log + [e], t) == By(log, t) + (if e.thread == t then [e.outcome] else [])
  {
    assert (log + [e])[..|log|] == log;
  }

  /** Only a deciding step changes the queue, and it changes it as the atomic operation would. */
  lemma StepIsAtomicOrSilent(m: Memory, pc: Pc)
    requires Fresh(m, pc)
    ensures Decided(m, pc).None? ==> Queue(NextMemory(m, pc)) == Queue(m)
    ensures Decided(m, pc).Some? ==> Apply(Queue(m), Decided(m, pc).value) == Some(Queue(NextMemory(m, pc)))
  {
    TailMoves(m.slots, m.head, m.tail);
    HeadMoves(m.slots, m.head, m.tail);
    match pc {
      case PushWrite(x, t) => StoreInvisible(m.slots, m.head, t, x);
      case PopStoreHead(x, h) => assert Queue(m)[1..] == Queue(NextMemory(m, pc));
      case _ =>
    }
  }

  lemma LockKept(s: State, c: Choice)
    requires Inv(s) && c.thread < |s.threads|
    ensures LockOk(Step(s, c))
  {
    assert ThreadOk(s, c.thread);
  }

  lemma LogKept(s: State, c: Choice)
    requires Inv(s) && c.thread < |s.threads|
    ensures Replay(Step(s, c).log) == Some(Queue(Step(s, c).mem))
  {
    assert ThreadOk(s, c.thread);
    var pc := s.threads[c.thread].pc;
    StepIsAtomicOrSilent(s.mem, pc);
    if Decided(s.mem, pc).Some? {
      AppendEvent(s.log, Event(c.thread, Decided(s.mem, pc).value), c.thread);
    }
  }

  lemma MoverFresh(s: State, c: Choice)
    requires Inv(s) && c.thread < |s.threads|
    ensures Fresh(Step(s, c).mem, Step(s, c).threads[c.thread].pc)
    ensures Step(s, c).threads[c.thread].pc.Critical() <==> Step(s, c).owner == Some(c.thread)
  {
    assert ThreadOk(s, c.thread);
  }

  lemma MoverLogged(s: State, c: Choice)
    requires Inv(s) && c.thread < |s.threads|
    ensures var th := Step(s, c).threads[c.thread]; By(Step(s, c).log, c.thread) == th.returned + Undelivered(th.pc)
  {
    assert ThreadOk(s, c.thread);
    var pc := s.threads[c.thread].pc;
    if Decided(s.mem, pc).Some? {
      AppendEvent(s.log, Event(c.thread, Decided(s.mem, pc).value), c.thread);
    }
  }

  lemma MoverKept(s: State, c: Choice)
    requires Inv(s) && c.thread < |s.threads|
    ensures ThreadOk(Step(s, c), c.thread)
  {
    MoverFresh(s, c);
    MoverLogged(s, c);
  }

  lemma BystanderKept(s: State, c: Choice, t: nat)
    requires Inv(s) && c.thread < |s.threads| && t < |s.threads| && t != c.thread
    ensures ThreadOk(Step(s, c), t)
  {
    assert ThreadOk(s, t) && ThreadOk(s, c.thread);
    var pc := s.threads[c.thread].pc;
    if Decided(s.mem, pc).Some? {
      AppendEvent(s.log, Event(c.thread, Decided(s.mem, pc).value), t);
    }
  }

  lemma StepKeeps(s: State, c: Choice)
    requires Inv(s)
    ensures Inv(Step(s, c))
  {
    if c.thread < |s.threads| {
      LockKept(s, c);
      LogKept(s, c);
      forall t: nat | t < |s.threads| ensures ThreadOk(Step(s, c), t) {
        if t == c.thread { MoverKept(s, c); } else { BystanderKept(s, c, t); }
      }
    }
  }

  lemma {:induction false} RunKeeps(n: nat, schedule: seq<Choice>)
    ensures Inv(Run(n, schedule)) && |Run(n, schedule).threads| == n
  {
    if schedule == [] {
      assert Queue(Initial(n).mem) == [];
    } else {
      RunKeeps(n, schedule[..|schedule| - 1]);
      StepKeeps(Run(n, schedule[..|schedule| - 1]), schedule[|schedule| - 1]);
    }
  }

  /** At no point of any run are two threads between `lock` and `unlock`. */
  lemma MutualExclusion(n: nat, schedule: seq<Choice>, t: nat, u: nat)
    requires t < n && u < n
    ensures |Run(n, schedule).threads| == n
    ensures Run(n, schedule).threads[t].pc.Critical() && Run(n, schedule).threads[u].pc.Critical() ==> t == u
  {
    RunKeeps(n, schedule);
    assert ThreadOk(Run(n, schedule), t) && ThreadOk(Run(n, schedule), u);
  }

  /**
   * Linearizability: in every run the decided operations, in order, are a history of the atomic
   * queue that ends in the present contents, and what each thread was returned is its own part of
   * that history, short of at most the outcome it has yet to return.
   */
  lemma Linearizable(n: nat, schedule: seq<Choice>)
    ensures var s := Run(n, schedule);
            && Replay(s.log) == Some(Queue(s.mem))
            && |s.threads| == n
            && forall t: nat :: t < n ==>
                 By(s.log, t) == s.threads[t].returned + Undelivered(s.threads[t].pc)
  {
    RunKeeps(n, schedule);
    var s := Run(n, schedule);
    forall t: nat | t < n
      ensures By(s.log, t) == s.threads[t].returned + Undelivered(s.threads[t].pc)
    {
      assert ThreadOk(s, t);
    }
  }

  lemma {:induction false} ReplayConserves(log: seq<Event>)
    requires Replay(log).Some?
    ensures PushedIn(log) == PoppedIn(log) + Replay(log).value
    ensures |Replay(log).value| < QCAP
  {
    if log != [] {
      ReplayConserves(log[..|log| - 1]);
      var q := Replay(log[..|log| - 1]).value;
      match log[|log| - 1].outcome {
        case Pushed(x) =>
          assert PoppedIn(log) + (q + [x]) == (PoppedIn(log) + q) + [x];
        case Popped(x) =>
          assert q == [x] + q[1..];
          assert PoppedIn(log[..|log| - 1]) + ([x] + q[1..]) == (PoppedIn(log[..|log| - 1]) + [x]) + q[1..];
        case _ =>
      }
    }
  }

  /** First in, first out, nothing lost or duplicated: what was pushed is what was popped, then what is queued. */
  lemma NothingLost(n: nat, schedule: seq<Choice>)
    ensures var s := Run(n, schedule); PushedIn(s.log) == PoppedIn(s.log) + Queue(s.mem)
  {
    RunKeeps(n, schedule);
    ReplayConserves(Run(n, schedule).log);
  }

  /** How many more of its own steps a thread needs, not counting failed swaps. */
  function Remaining(pc: Pc): nat {
    match pc
    case Idle => 0
    case Swapping(_) => 6
    case PushLoadTail(_) => 5
    case PopLoadHead => 5
    case PushLoadHead(_, _) => 4
    case PopLoadTail(_) => 4
    case PushWrite(_, _) => 3
    case PopRead(_) => 3
    case PushStoreTail(_, _) => 2
    case PopStoreHead(_, _) => 2
    case Unlocking(_) => 1
  }

  lemma HolderLeaves(m: Memory, pc: Pc, call: Call)
    requires pc.Critical()
    ensures 0 < Remaining(pc) <= 5 && Remaining(NextPc(m, pc, call)) < Remaining(pc)
  {
  }

  /** The lock is never lost: either it is free, or its one holder can move and leaves within five steps. */
  lemma LockIsReleased(n: nat, schedule: seq<Choice>, call: Call)
    ensures var s := Run(n, schedule);
            && (s.mem.flag == 0 ==> forall t: nat :: t < |s.threads| ==> !s.threads[t].pc.Critical())
            && (s.mem.flag != 0 ==>
                && s.owner.Some? && s.owner.value < |s.threads|
                && var pc := s.threads[s.owner.value].pc;
                   0 < Remaining(pc) <= 5 && Remaining(NextPc(s.mem, pc, call)) < Remaining(pc))
  {
    RunKeeps(n, schedule);
    var s := Run(n, schedule);
    forall t: nat | t < |s.threads| ensures s.threads[t].pc.Critical() <==> s.owner == Some(t) {
      assert ThreadOk(s, t);
    }
    if s.mem.flag != 0 {
      HolderLeaves(s.mem, s.threads[s.owner.value].pc, call);
    }
  }
}
