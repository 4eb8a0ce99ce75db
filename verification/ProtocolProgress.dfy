/** Every request completes, however the steps interleave. */
module ProtocolProgress {
  import opened Wrappers
  import opened Batching
  import opened Protocol
  import opened ProtocolSafety
  import opened ProtocolResults
  import opened Sums

  const CALL_WORK: nat := 22
  const QUEUED_WORK: nat := 8

  function PcWork<R>(pc: ClientPc<R>): nat {
    match pc
    case Between => 0
    case Acquiring => 21
    case Numbering(_) => 20
    case WritingB(_, _) => 19
    case WritingOwner(_, _) => 18
    case WritingReq(_, _) => 17
    case Packing(_, _) => 16
    case Readying(_, _) => 15
    case Submitting(_, _) => 14
    case Waiting(_, _) => 5
    case Checking(_, _) => 4
    case Reading(_, _) => 3
    case Freeing(_, _) => 2
    case Returning(_, _) => 1
  }

  /** The steps a client has yet to take, handlers' work on its slots included. */
  function ClientWork<P, R>(cl: Client<P, R>): nat {
    var open := if |cl.returned| < |cl.calls| then |cl.calls| - |cl.returned| else 0;
    if cl.pc.Between? || open == 0 then CALL_WORK * open + PcWork(cl.pc)
    else CALL_WORK * (open - 1) + PcWork(cl.pc)
  }

  function HandlerWork<P, R>(pc: HandlerPc<P, R>): nat {
    match pc
    case Popping => 0
    case Asserting(views, _) => 3 * |views| + 7
    case Clearing(views, _) => 3 * |views| + 6
    case Gathering(views) => 3 * |views| + 2
    case Building(todo, batch) => 3 * |todo| + 2 * |batch| + 1
    case Writing(out) => 2 * |out|
    case Marking(out) => if out == [] then 0 else 2 * |out| - 1
    case Crashed => 0
  }

  function ClientWorks<P, R>(clients: seq<Client<P, R>>): seq<nat> {
    seq(|clients|, c requires 0 <= c < |clients| => ClientWork(clients[c]))
  }

  function HandlerWorks<P, R>(handlers: seq<HandlerPc<P, R>>): seq<nat> {
    seq(|handlers|, h requires 0 <= h < |handlers| => HandlerWork(handlers[h]))
  }

  /** The work left in the whole system. */
  function Work<P, R>(s: State<P, R>): nat {
    Sum(ClientWorks(s.clients)) + QUEUED_WORK * |s.readyQ| + Sum(HandlerWorks(s.handlers))
  }

  lemma ClientShare<P(!new), R>(clients: seq<Client<P, R>>, c: nat, cl: Client<P, R>)
    requires c < |clients|
    ensures Sum(ClientWorks(clients[c := cl])) == Sum(ClientWorks(clients)) - ClientWork(clients[c]) + ClientWork(cl)
  {
    SumUpdate(ClientWorks(clients), c, ClientWork(cl));
    assert ClientWorks(clients[c := cl]) == ClientWorks(clients)[c := ClientWork(cl)];
  }

  lemma HandlerShare<P(!new), R>(handlers: seq<HandlerPc<P, R>>, h: nat, pc: HandlerPc<P, R>)
    requires h < |handlers|
    ensures Sum(HandlerWorks(handlers[h := pc])) == Sum(HandlerWorks(handlers)) - HandlerWork(handlers[h]) + HandlerWork(pc)
  {
    SumUpdate(HandlerWorks(handlers), h, HandlerWork(pc));
    assert HandlerWorks(handlers[h := pc]) == HandlerWorks(handlers)[h := HandlerWork(pc)];
  }

  lemma ClientStepWorks<P(!new), R>(agent: Agent<P, R>, s: State<P, R>, c: nat)
    requires Inv(agent, s) && c < |s.clients|
    ensures var t := ClientStep(s, c);
            t == s || QUEUED_WORK * |t.readyQ| + ClientWork(t.clients[c]) < QUEUED_WORK * |s.readyQ| + ClientWork(s.clients[c])
  {
    assert ClientOk(agent, s, c);
  }

  lemma HandlerStepWorks<P(!new), R>(agent: Agent<P, R>, s: State<P, R>, h: nat, stop: bool)
    requires Inv(agent, s) && h < |s.handlers|
    ensures var t := HandlerStep(agent, s, h, stop);
            t == s || QUEUED_WORK * |t.readyQ| + HandlerWork(t.handlers[h]) < QUEUED_WORK * |s.readyQ| + HandlerWork(s.handlers[h])
  {
    assert HandlerOk(s, h);
    if Target(s.handlers[h]).Some? {
      NothingSkipped(agent, s, h);
    }
  }

  /** Every step either polls in vain and changes nothing, or leaves less work. */
  lemma StepWorks<P(!new), R>(agent: Agent<P, R>, s: State<P, R>, a: Act)
    requires Inv(agent, s)
    ensures Step(agent, s, a) == s || Work(Step(agent, s, a)) < Work(s)
  {
    var t := Step(agent, s, a);
    match a {
      case ClientMoves(c) =>
        if c < |s.clients| {
          ClientStepWorks(agent, s, c);
          ClientOnly(agent, s, c);
          ClientShare(s.clients, c, t.clients[c]);
        }
      case HandlerMoves(h, stop) =>
        if h < |s.handlers| {
          HandlerStepWorks(agent, s, h, stop);
          HandlerOnly(agent, s, h, stop);
          HandlerShare(s.handlers, h, t.handlers[h]);
        }
    }
  }

  lemma ClientOnly<P(!new), R>(agent: Agent<P, R>, s: State<P, R>, c: nat)
    requires c < |s.clients|
    ensures var t := ClientStep(s, c);
            |t.clients| == |s.clients| && t.clients == s.clients[c := t.clients[c]] && t.handlers == s.handlers
  {
  }

  lemma HandlerOnly<P(!new), R>(agent: Agent<P, R>, s: State<P, R>, h: nat, stop: bool)
    requires h < |s.handlers|
    ensures var t := HandlerStep(agent, s, h, stop);
            |t.handlers| == |s.handlers| && t.handlers == s.handlers[h := t.handlers[h]] && t.clients == s.clients
  {
  }

  ghost predicate Moves<P(!new), R>(agent: Agent<P, R>, s: State<P, R>, a: Act) {
    Step(agent, s, a) != s
  }

  ghost predicate CanMove<P(!new), R>(agent: Agent<P, R>, s: State<P, R>) {
    exists a :: Moves(agent, s, a)
  }

  /** A client moves unless it is done, out of slots, or waiting for an answer. */
  lemma ClientCanMove<P(!new), R>(agent: Agent<P, R>, s: State<P, R>, c: nat)
    requires Inv(agent, s) && c < |s.clients| && !s.clients[c].Finished()
    requires s.clients[c].pc.Acquiring? ==> s.freeQ != []
    requires s.clients[c].pc.Waiting? ==>
               s.clients[c].pc.slot < |s.slots| && s.slots[s.clients[c].pc.slot].state.DONE?
    ensures Moves(agent, s, ClientMoves(c))
  {
    assert ClientOk(agent, s, c);
    PushHasRoom(agent, s, c);
    var t := ClientStep(s, c);
    assert t.clients[c] != s.clients[c];
  }

  /** A handler moves unless it has nothing popped and nothing is queued. */
  lemma HandlerCanMove<P(!new), R>(agent: Agent<P, R>, s: State<P, R>, h: nat)
    requires Inv(agent, s) && h < |s.handlers|
    requires !s.handlers[h].Popping? || s.readyQ != []
    ensures Moves(agent, s, HandlerMoves(h, true))
  {
    assert HandlerOk(s, h);
    if Target(s.handlers[h]).Some? {
      NothingSkipped(agent, s, h);
    }
    var t := HandlerStep(agent, s, h, true);
    assert t.handlers[h] != s.handlers[h];
  }

  /** As long as any slot is in use, somebody can move. */
  lemma BusySlotMoves<P(!new), R>(agent: Agent<P, R>, s: State<P, R>, i: nat)
    requires Inv(agent, s) && i < |s.slots| && !s.place[i].Free? && |s.handlers| > 0
    ensures CanMove(agent, s)
  {
    assert SlotOk(agent, s, i);
    match s.place[i] {
      case Filling(c) => ClientCanMove(agent, s, c);
      case Queued(_) => HandlerCanMove(agent, s, 0);
      case Serving(_, h) => HandlerCanMove(agent, s, h);
      case Served(c) => ClientCanMove(agent, s, c);
    }
  }

  /** With a slot and a handler, no state with an unfinished client is stuck. */
  lemma NotStuck<P(!new), R>(agent: Agent<P, R>, s: State<P, R>, c: nat)
    requires Inv(agent, s) && |s.slots| > 0 && |s.handlers| > 0
    requires c < |s.clients| && !s.clients[c].Finished()
    ensures CanMove(agent, s)
  {
    assert ClientOk(agent, s, c);
    var pc := s.clients[c].pc;
    if pc.Acquiring? && s.freeQ == [] {
      FoundFree(agent, s, 0);
      BusySlotMoves(agent, s, 0);
    } else if pc.Waiting? {
      BusySlotMoves(agent, s, pc.slot);
    } else {
      ClientCanMove(agent, s, c);
    }
  }

  /** How many steps of a schedule change something. */
  ghost function Progressed<P(!new), R>(agent: Agent<P, R>, s: State<P, R>, schedule: seq<Act>): nat {
    if schedule == [] then 0
    else
      var front := schedule[..|schedule| - 1];
      Progressed(agent, s, front)
      + (if Moves(agent, Run(agent, s, front), schedule[|schedule| - 1]) then 1 else 0)
  }

  lemma {:induction false} WorkBudget<P(!new), R>(agent: Agent<P, R>, s0: State<P, R>, schedule: seq<Act>)
    requires Initial(s0)
    ensures Progressed(agent, s0, schedule) + Work(Run(agent, s0, schedule)) <= Work(s0)
  {
    if schedule != [] {
      var front := schedule[..|schedule| - 1];
      WorkBudget(agent, s0, front);
      RunKeeps(agent, s0, front);
      StepWorks(agent, Run(agent, s0, front), schedule[|schedule| - 1]);
    }
  }

  /**
   * Progress: a finite workload admits only `Work(s0)` steps that are not vain polls, and a run that
   * can make no such step any more has returned the right answer to every call of every client.
   */
  lemma EveryRequestCompletes<P(!new), R>(agent: Agent<P, R>, s0: State<P, R>, schedule: seq<Act>)
    requires Initial(s0) && |s0.slots| > 0 && |s0.handlers| > 0
    ensures Progressed(agent, s0, schedule) <= Work(s0)
    ensures !CanMove(agent, Run(agent, s0, schedule)) ==>
              forall c: nat :: c < |s0.clients| ==> AllAnswered(agent, s0, Run(agent, s0, schedule), c)
  {
    WorkBudget(agent, s0, schedule);
    RunKeeps(agent, s0, schedule);
    RunSizes(agent, s0, schedule);
    var s := Run(agent, s0, schedule);
    if !CanMove(agent, s) {
      forall c: nat | c < |s0.clients| ensures AllAnswered(agent, s0, s, c) {
        if !s.clients[c].Finished() { NotStuck(agent, s, c); }
        assert SameWork(s0, s, c);
        forall k: nat | k < |s0.clients[c].calls|
          ensures Owed(agent, s0.clients[c].calls[k], s.clients[c].returned[k])
        {
          EveryCallGetsItsOwnAnswers(agent, s0, schedule, c, k);
        }
      }
    }
  }

  ghost predicate AllAnswered<P(!new), R>(agent: Agent<P, R>, s0: State<P, R>, s: State<P, R>, c: nat)
    requires c < |s0.clients|
  {
    && c < |s.clients| && |s.clients[c].returned| == |s0.clients[c].calls|
    && forall k: nat :: k < |s0.clients[c].calls| ==>
         Owed(agent, s0.clients[c].calls[k], s.clients[c].returned[k])
  }

  // ----- completion -----

  ghost predicate AllFinished<P(!new), R>(s: State<P, R>) {
    forall c: nat :: c < |s.clients| ==> s.clients[c].Finished()
  }

  lemma FinishedAnswered<P(!new), R>(agent: Agent<P, R>, s0: State<P, R>, schedule: seq<Act>, c: nat)
    requires Initial(s0) && c < |s0.clients| && AllFinished(Run(agent, s0, schedule))
    ensures AllAnswered(agent, s0, Run(agent, s0, schedule), c)
  {
    RunSizes(agent, s0, schedule);
    var s := Run(agent, s0, schedule);
    assert SameWork(s0, s, c) && s.clients[c].Finished();
    forall k: nat | k < |s0.clients[c].calls| ensures Owed(agent, s0.clients[c].calls[k], s.clients[c].returned[k]) {
      EveryCallGetsItsOwnAnswers(agent, s0, schedule, c, k);
    }
  }

  /** An unfinished state has a step that leaves less work. */
  lemma SomeStepWorks<P(!new), R>(agent: Agent<P, R>, s: State<P, R>) returns (a: Act)
    requires Inv(agent, s) && |s.slots| > 0 && |s.handlers| > 0 && !AllFinished(s)
    ensures Present(s, a) && Work(Step(agent, s, a)) < Work(s)
  {
    var c: nat :| c < |s.clients| && !s.clients[c].Finished();
    NotStuck(agent, s, c);
    a :| Moves(agent, s, a);
    StepWorks(agent, s, a);
  }

  lemma {:induction false} RunAppend<P(!new), R>(agent: Agent<P, R>, s: State<P, R>, first: seq<Act>, more: seq<Act>)
    ensures Run(agent, s, first + more) == Run(agent, Run(agent, s, first), more)
  {
    if more == [] {
      assert first + more == first;
    } else {
      RunAppend(agent, s, first, more[..|more| - 1]);
      assert (first + more)[..|first + more| - 1] == first + more[..|more| - 1];
    }
  }

  lemma RunOne<P(!new), R>(agent: Agent<P, R>, s: State<P, R>, a: Act)
    ensures Run(agent, s, [a]) == Step(agent, s, a)
  {
    assert [a][..0] == [];
    assert Run(agent, s, []) == s;
  }

  lemma {:induction false} CanFinish<P(!new), R>(agent: Agent<P, R>, s: State<P, R>) returns (rest: seq<Act>)
    requires Inv(agent, s) && |s.slots| > 0 && |s.handlers| > 0
    ensures |rest| <= Work(s) && AllFinished(Run(agent, s, rest))
    decreases Work(s)
  {
    if AllFinished(s) {
      rest := [];
    } else {
      var a := SomeStepWorks(agent, s);
      var t := Step(agent, s, a);
      StepKeeps(agent, s, a);
      StepSizes(agent, s, a);
      var more := CanFinish(agent, t);
      RunOne(agent, s, a);
      RunAppend(agent, s, [a], more);
      rest := [a] + more;
    }
  }

  /** From every reachable state some continuation of at most `Work` steps answers every call. */
  lemma EveryStateCanFinish<P(!new), R>(agent: Agent<P, R>, s0: State<P, R>, schedule: seq<Act>) returns (rest: seq<Act>)
    requires Initial(s0) && |s0.slots| > 0 && |s0.handlers| > 0
    ensures |rest| <= Work(Run(agent, s0, schedule))
    ensures forall c: nat :: c < |s0.clients| ==> AllAnswered(agent, s0, Run(agent, s0, schedule + rest), c)
  {
    RunKeeps(agent, s0, schedule);
    RunSizes(agent, s0, schedule);
    rest := CanFinish(agent, Run(agent, s0, schedule));
    RunAppend(agent, s0, schedule, rest);
    forall c: nat | c < |s0.clients| ensures AllAnswered(agent, s0, Run(agent, s0, schedule + rest), c) {
      FinishedAnswered(agent, s0, schedule + rest, c);
    }
  }

  // ----- fair schedules -----

  /** The state after the first `n` steps of an endless schedule. */
  function RunTo<P, R>(agent: Agent<P, R>, s: State<P, R>, endless: nat -> Act, n: nat): State<P, R> {
    if n == 0 then s else Step(agent, RunTo(agent, s, endless, n - 1), endless(n - 1))
  }

  predicate Present<P, R>(s: State<P, R>, a: Act) {
    match a
    case ClientMoves(c) => c < |s.clients|
    case HandlerMoves(h, _) => h < |s.handlers|
  }

  ghost predicate ComesUp(endless: nat -> Act, a: Act, after: nat) {
    exists n: nat :: after <= n && endless(n) == a
  }

  /** Every client, and every handler with its time up or not, gets to move again and again. */
  ghost predicate Fair<P(!new), R>(s: State<P, R>, endless: nat -> Act) {
    forall a, after: nat :: Present(s, a) ==> ComesUp(endless, a, after)
  }

  function Prefix(endless: nat -> Act, n: nat): seq<Act> {
    seq(n, i requires 0 <= i < n => endless(i))
  }

  lemma {:induction false} RunToIsRun<P(!new), R>(agent: Agent<P, R>, s: State<P, R>, endless: nat -> Act, n: nat)
    ensures RunTo(agent, s, endless, n) == Run(agent, s, Prefix(endless, n))
  {
    if n > 0 {
      RunToIsRun(agent, s, endless, n - 1);
      assert Prefix(endless, n)[..n - 1] == Prefix(endless, n - 1);
    }
  }

  lemma RunToKeeps<P(!new), R>(agent: Agent<P, R>, s0: State<P, R>, endless: nat -> Act, n: nat)
    requires Initial(s0)
    ensures var s := RunTo(agent, s0, endless, n);
            && Inv(agent, s)
            && |s.slots| == |s0.slots| && |s.clients| == |s0.clients| && |s.handlers| == |s0.handlers|
  {
    RunToIsRun(agent, s0, endless, n);
    RunKeeps(agent, s0, Prefix(endless, n));
    RunSizes(agent, s0, Prefix(endless, n));
  }

  ghost predicate IdlesOrWorks<P(!new), R>(s: State<P, R>, t: State<P, R>) {
    t == s || Work(t) < Work(s)
  }

  ghost predicate TraceWorks<P(!new), R>(trace: nat -> State<P, R>, n: nat) {
    IdlesOrWorks(trace(n), trace(n + 1))
  }

  /** Between two moments either nothing has changed or some work has been done. */
  lemma {:induction false} IdleOrWorked<P(!new), R>(trace: nat -> State<P, R>, n: nat, m: nat)
    requires n <= m && forall k: nat :: TraceWorks(trace, k)
    ensures IdlesOrWorks(trace(n), trace(m))
  {
    if n < m {
      IdleOrWorked(trace, n, m - 1);
      assert TraceWorks(trace, m - 1);
    }
  }

  function Trace<P, R>(agent: Agent<P, R>, s0: State<P, R>, endless: nat -> Act): nat -> State<P, R> {
    (n: nat) => RunTo(agent, s0, endless, n)
  }

  lemma StepIdlesOrWorks<P(!new), R>(agent: Agent<P, R>, s0: State<P, R>, endless: nat -> Act, n: nat)
    requires Initial(s0)
    ensures IdlesOrWorks(RunTo(agent, s0, endless, n), RunTo(agent, s0, endless, n + 1))
  {
    RunToKeeps(agent, s0, endless, n);
    StepWorks(agent, RunTo(agent, s0, endless, n), endless(n));
  }

  lemma TracesWork<P(!new), R>(agent: Agent<P, R>, s0: State<P, R>, endless: nat -> Act)
    requires Initial(s0)
    ensures forall k: nat :: TraceWorks(Trace(agent, s0, endless), k)
  {
    forall k: nat ensures TraceWorks(Trace(agent, s0, endless), k) {
      StepIdlesOrWorks(agent, s0, endless, k);
    }
  }

  lemma IdleBetween<P(!new), R>(agent: Agent<P, R>, s0: State<P, R>, endless: nat -> Act, n: nat, m: nat)
    requires Initial(s0) && n <= m
    ensures IdlesOrWorks(RunTo(agent, s0, endless, n), RunTo(agent, s0, endless, m))
  {
    TracesWork(agent, s0, endless);
    IdleOrWorked(Trace(agent, s0, endless), n, m);
  }

  lemma TurnComes<P(!new), R>(s: State<P, R>, endless: nat -> Act, a: Act, after: nat) returns (at: nat)
    requires Fair(s, endless) && Present(s, a)
    ensures after <= at && endless(at) == a
  {
    assert ComesUp(endless, a, after);
    at :| after <= at && endless(at) == a;
  }

  lemma SameParties<P(!new), R>(s: State<P, R>, t: State<P, R>, a: Act)
    requires |s.clients| == |t.clients| && |s.handlers| == |t.handlers|
    ensures Present(s, a) == Present(t, a)
  {
  }

  /** If the state has idled until the turn of a step that works, that step works then. */
  lemma TurnWorks<P(!new), R>(agent: Agent<P, R>, s0: State<P, R>, endless: nat -> Act, s: State<P, R>, at: nat)
    requires RunTo(agent, s0, endless, at) == s && Work(Step(agent, s, endless(at))) < Work(s)
    ensures Work(RunTo(agent, s0, endless, at + 1)) < Work(s)
  {
  }

  /** Under a fair schedule an unfinished state is left for one with less work. */
  lemma FairWorks<P(!new), R>(agent: Agent<P, R>, s0: State<P, R>, endless: nat -> Act, n: nat) returns (m: nat)
    requires Initial(s0) && |s0.slots| > 0 && |s0.handlers| > 0 && Fair(s0, endless)
    requires !AllFinished(RunTo(agent, s0, endless, n))
    ensures Work(RunTo(agent, s0, endless, m)) < Work(RunTo(agent, s0, endless, n))
  {
    RunToKeeps(agent, s0, endless, n);
    var s := RunTo(agent, s0, endless, n);
    var a := SomeStepWorks(agent, s);
    SameParties(s0, s, a);
    m := TurnComes(s0, endless, a, n);
    IdleBetween(agent, s0, endless, n, m);
    if RunTo(agent, s0, endless, m) == s {
      TurnWorks(agent, s0, endless, s, m);
      m := m + 1;
    }
  }

  /** Every fair schedule answers every call of every client. */
  lemma {:induction false} FairSchedulesFinish<P(!new), R>(agent: Agent<P, R>, s0: State<P, R>, endless: nat -> Act, from: nat)
    returns (n: nat)
    requires Initial(s0) && |s0.slots| > 0 && |s0.handlers| > 0 && Fair(s0, endless)
    ensures AllFinished(RunTo(agent, s0, endless, n))
    ensures forall c: nat :: c < |s0.clients| ==> AllAnswered(agent, s0, RunTo(agent, s0, endless, n), c)
    decreases Work(RunTo(agent, s0, endless, from))
  {
    if AllFinished(RunTo(agent, s0, endless, from)) {
      n := from;
      RunToIsRun(agent, s0, endless, n);
      forall c: nat | c < |s0.clients| ensures AllAnswered(agent, s0, RunTo(agent, s0, endless, n), c) {
        FinishedAnswered(agent, s0, Prefix(endless, n), c);
      }
    } else {
      var later := FairWorks(agent, s0, endless, from);
      n := FairSchedulesFinish(agent, s0, endless, later);
    }
  }
}
