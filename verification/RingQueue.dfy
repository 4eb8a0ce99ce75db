/** The fixed-size ring of slot indices: `RingQueue` (mcts-core/src/ipc_core.rs). */
module RingQueue {
  import opened Wrappers

  const QCAP: nat := 4096

  function After(i: nat): (n: nat)
    requires i < QCAP
    ensures n < QCAP
  {
    (i + 1) % QCAP
  }

  /** The number of queued elements. */
  function Length(head: nat, tail: nat): (n: nat)
    requires head < QCAP && tail < QCAP
    ensures n < QCAP
  {
    if head <= tail then tail - head else tail + QCAP - head
  }

  function Index(head: nat, i: nat): (k: nat)
    requires head < QCAP && i < QCAP
    ensures k < QCAP
  {
    if head + i < QCAP then head + i else head + i - QCAP
  }

  /** The queued elements, oldest first. */
  function Contents(slots: seq<nat>, head: nat, tail: nat): (q: seq<nat>)
    requires |slots| == QCAP && head < QCAP && tail < QCAP
    ensures |q| == Length(head, tail)
  {
    seq(Length(head, tail), i requires 0 <= i < Length(head, tail) => slots[Index(head, i)])
  }

  /** Writing at the tail is invisible until the tail moves. */
  lemma StoreInvisible(slots: seq<nat>, head: nat, tail: nat, x: nat)
    requires |slots| == QCAP && head < QCAP && tail < QCAP
    ensures Contents(slots[tail := x], head, tail) == Contents(slots, head, tail)
  {
  }

  /** Moving the tail past a written slot appends it; there is room exactly below QCAP - 1 elements. */
  lemma TailMoves(slots: seq<nat>, head: nat, tail: nat)
    requires |slots| == QCAP && head < QCAP && tail < QCAP
    ensures After(tail) == head <==> Length(head, tail) == QCAP - 1
    ensures After(tail) != head ==> Contents(slots, head, After(tail)) == Contents(slots, head, tail) + [slots[tail]]
  {
    if After(tail) != head {
      assert Length(head, After(tail)) == Length(head, tail) + 1;
      assert Index(head, Length(head, tail)) == tail;
    }
  }

  /** Moving the head drops the oldest element; there is one exactly when the ends differ. */
  lemma HeadMoves(slots: seq<nat>, head: nat, tail: nat)
    requires |slots| == QCAP && head < QCAP && tail < QCAP
    ensures head == tail <==> Length(head, tail) == 0
    ensures head != tail ==> Contents(slots, head, tail) == [slots[head]] + Contents(slots, After(head), tail)
  {
    if head != tail {
      var rest := Contents(slots, After(head), tail);
      assert Length(After(head), tail) == Length(head, tail) - 1;
      forall i | 0 <= i < |rest| ensures rest[i] == Contents(slots, head, tail)[i + 1] {
        assert Index(After(head), i) == Index(head, i + 1);
      }
    }
  }

  /** The queue as one thread sees it between `lock` and `unlock`. */
  class Ring {
    var head: nat
    var tail: nat
    const slots: array<nat>

    ghost predicate Valid()
      reads this
    {
      slots.Length == QCAP && head < QCAP && tail < QCAP
    }

    ghost function Queued(): seq<nat>
      reads this, slots
      requires Valid()
    {
      Contents(slots[..], head, tail)
    }

    constructor ()
      ensures Valid() && Queued() == [] && fresh(slots)
    {
      head, tail := 0, 0;
      slots := new nat[QCAP](_ => 0);
    }

    method TryPush(x: nat) returns (ok: bool)
      requires Valid()
      modifies this`tail, slots
      ensures Valid()
      ensures ok <==> |old(Queued())| < QCAP - 1
      ensures Queued() == if ok then old(Queued()) + [x] else old(Queued())
    {
      var t := tail;
      var h := head;
      var next := After(t);
      TailMoves(slots[..], h, t);
      if next == h { return false; }
      StoreInvisible(slots[..], h, t, x);
      slots[t] := x;
      assert slots[..] == old(slots[..])[t := x];
      TailMoves(slots[..], h, t);
      tail := next;
      ok := true;
    }

    method TryPop() returns (x: Option<nat>)
      requires Valid()
      modifies this`head
      ensures Valid()
      ensures x.Some? <==> old(Queued()) != []
      ensures old(Queued()) == if x.Some? then [x.value] + Queued() else Queued()
    {
      var h := head;
      var t := tail;
      HeadMoves(slots[..], h, t);
      if h == t { return None; }
      x := Some(slots[h]);
      head := After(h);
    }
  }
}
