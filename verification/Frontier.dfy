/**
 * The frontier search of the reverse curriculum: `next_probe_k` and the probe loop of
 * `gather_reverse_curriculum` (mcts-tilers/src/gatherer.rs). An episode is its outcome.
 */
module Frontier {
  import opened Wrappers

  datatype Probe = Probe(k: nat, done: bool)

  function NextProbeK(k: nat, lo: nat, hi: nat, len: nat): Option<nat>
    requires lo < hi
  {
    if hi > len || hi - lo > 1 then
      var next := if hi > len then (if k * 2 <= len then k * 2 else len) else lo + (hi - lo) / 2;
      if next == lo then None else Some(next)
    else None
  }

  /** The largest solved tail in a log of probes, 0 when there is none. */
  function LargestSolved(log: seq<Probe>): nat {
    if log == [] then 0
    else
      var before := LargestSolved(log[..|log| - 1]);
      var p := log[|log| - 1];
      if p.done && before < p.k then p.k else before
  }

  /** The smallest failed tail in a log of probes, `len + 1` when there is none. */
  function SmallestFailed(log: seq<Probe>, len: nat): nat {
    if log == [] then len + 1
    else
      var before := SmallestFailed(log[..|log| - 1], len);
      var p := log[|log| - 1];
      if !p.done && p.k < before then p.k else before
  }

  /** Each probe lay strictly inside the bracket that the probes before it left. */
  predicate Informative(log: seq<Probe>, len: nat) {
    forall i: nat :: i < |log| ==> InformativeAt(log, len, i)
  }

  predicate InformativeAt(log: seq<Probe>, len: nat, i: nat)
    requires i < |log|
  {
    LargestSolved(log[..i]) < log[i].k < SmallestFailed(log[..i], len)
  }

  function CeilLog2(n: nat): nat {
    if n <= 1 then 0 else 1 + CeilLog2((n + 1) / 2)
  }

  function Pow2(e: nat): nat {
    if e == 0 then 1 else 2 * Pow2(e - 1)
  }

  lemma {:induction false} CeilLog2IsCeiling(n: nat)
    requires n >= 1
    ensures n <= Pow2(CeilLog2(n))
    ensures n > 1 ==> Pow2(CeilLog2(n) - 1) < n
  {
    if n > 1 {
      CeilLog2IsCeiling((n + 1) / 2);
    }
  }

  lemma {:induction false} CeilLog2Grows(m: nat, n: nat)
    requires m <= n
    ensures CeilLog2(m) <= CeilLog2(n)
  {
    if m > 1 {
      CeilLog2Grows((m + 1) / 2, (n + 1) / 2);
    }
  }

  /** How often `k` is still doubled before it reaches `len`. */
  function Doublings(k: nat, len: nat): nat
    requires k >= 1
    decreases if k < len then len - k else 0
  {
    if k >= len then 0 else 1 + Doublings(if k * 2 <= len then k * 2 else len, len)
  }

  lemma {:induction false} DoublingsBounded(k: nat, len: nat, m: nat)
    requires k >= 1 && k * m >= len
    ensures Doublings(k, len) <= CeilLog2(m)
    decreases if k < len then len - k else 0
  {
    if k < len {
      assert m >= 2;
      if k * 2 <= len {
        var half := (m + 1) / 2;
        assert k * 2 * half >= k * m by {
          assert 2 * half >= m;
          assert k * (2 * half) >= k * m;
        }
        DoublingsBounded(k * 2, len, half);
      }
    }
  }

  /** An upper bound on the probes still to come when `k` is probed next. */
  function Budget(k: nat, lo: nat, hi: nat, len: nat): nat
    requires 1 <= k && lo < hi
  {
    if hi > len then 1 + Doublings(k, len) + CeilLog2(len) else CeilLog2(hi - lo)
  }

  /** When the search has nothing left to ask: the edge is between neighbours, or the whole plan is solved. */
  predicate Settled(lo: nat, hi: nat, len: nat) {
    hi == lo + 1 || lo == len
  }

  /** The probe after `k`: twice as long while nothing has failed, but never past the plan; then the middle of the bracket. */
  function Follower(k: nat, lo: nat, hi: nat, len: nat): nat
    requires lo < hi
  {
    if hi <= len then lo + (hi - lo) / 2 else if 2 * k < len then 2 * k else len
  }

  /** Every probe after the first doubled the one before or halved the bracket left by all before it. */
  predicate Scheduled(log: seq<Probe>, len: nat) {
    forall i: nat :: 0 < i < |log| ==> ScheduledAt(log, len, i)
  }

  predicate ScheduledAt(log: seq<Probe>, len: nat, i: nat)
    requires 0 < i < |log|
  {
    var lo, hi := LargestSolved(log[..i]), SmallestFailed(log[..i], len);
    lo < hi && log[i].k == Follower(log[i - 1].k, lo, hi, len)
  }

  /** What a probe of `k` strictly inside the bracket leads to. */
  lemma ProbeStep(k: nat, lo: nat, hi: nat, len: nat, done: bool)
    requires 1 <= len && lo < k < hi <= len + 1
    requires hi <= len ==> k == lo + (hi - lo) / 2
    ensures var lo' := if done then k else lo;
            var hi' := if done then hi else k;
            var next := NextProbeK(k, lo', hi', len);
            && lo' < hi'
            && (done && k >= len ==> Settled(lo', hi', len))
            && (!(done && k >= len) && next.None? ==> Settled(lo', hi', len))
            && (!(done && k >= len) && next.Some? ==>
                && !Settled(lo', hi', len)
                && lo' < next.value < hi'
                && next.value == Follower(k, lo', hi', len)
                && Budget(next.value, lo', hi', len) < Budget(k, lo, hi, len))
  {
    if hi > len {
      if !done {
        CeilLog2Grows(k - lo, len);
      }
    } else {
      var gap := hi - lo;
      CeilLog2Grows(if done then hi - k else k - lo, (gap + 1) / 2);
    }
  }

  lemma FirstBudget(k: nat, len: nat)
    requires 1 <= k <= len
    ensures Budget(k, 0, len + 1, len) <= 2 * CeilLog2(len) + 1
  {
    assert k * len >= len by {
      assert (k - 1) * len >= 0;
    }
    DoublingsBounded(k, len, len);
  }

  lemma LogAppend(log: seq<Probe>, p: Probe, len: nat)
    requires Informative(log, len)
    requires LargestSolved(log) < p.k < SmallestFailed(log, len)
    ensures Informative(log + [p], len)
    ensures LargestSolved(log + [p]) == (if p.done then p.k else LargestSolved(log))
    ensures SmallestFailed(log + [p], len) == (if p.done then SmallestFailed(log, len) else p.k)
  {
    assert (log + [p])[..|log|] == log;
    forall i: nat | i < |log| + 1 ensures InformativeAt(log + [p], len, i) {
      assert (log + [p])[..i] == log[..i];
      if i < |log| {
        assert InformativeAt(log, len, i);
      }
    }
  }

  function Clamp(k: nat, low: nat, high: nat): nat
    requires low <= high
  {
    if k < low then low else if k > high then high else k
  }

  /** Probe number `i` of the log found the tail `k` solved (or not). */
  predicate Shows(log: seq<Probe>, i: nat, k: nat, done: bool) {
    i < |log| && log[i] == Probe(k, done)
  }

  /** The bracket is what the log says, and an episode is kept for each end that was probed. */
  predicate Explained(log: seq<Probe>, len: nat, lo: nat, hi: nat, best: Option<nat>, failed: Option<nat>) {
    && lo < hi <= len + 1
    && lo == LargestSolved(log) && hi == SmallestFailed(log, len)
    && (best.Some? <==> lo > 0) && (best.Some? ==> Shows(log, best.value, lo, true))
    && (failed.Some? <==> hi <= len) && (failed.Some? ==> Shows(log, failed.value, hi, false))
  }

  /** Every recorded outcome is the episode's, and the first probe was the clamped start. */
  predicate Answered(log: seq<Probe>, episode: (nat, nat) -> bool, first: nat) {
    && (forall i: nat :: i < |log| ==> log[i].done == episode(i, log[i].k))
    && (log != [] ==> log[0].k == first)
  }

  lemma Recorded(log: seq<Probe>, k: nat, len: nat, lo: nat, hi: nat, best: Option<nat>, failed: Option<nat>,
                 episode: (nat, nat) -> bool, first: nat)
    requires Explained(log, len, lo, hi, best, failed) && Informative(log, len) && Answered(log, episode, first)
    requires lo < k < hi && (log == [] ==> k == first) && Scheduled(log, len)
    requires log != [] ==> k == Follower(log[|log| - 1].k, lo, hi, len)
    ensures var done := episode(|log|, k);
            var log' := log + [Probe(k, done)];
            && Informative(log', len) && Answered(log', episode, first) && Scheduled(log', len)
            && (if done then Explained(log', len, k, hi, Some(|log|), failed)
                else Explained(log', len, lo, k, best, Some(|log|)))
  {
    LogAppend(log, Probe(k, episode(|log|, k)), len);
    var log' := log + [Probe(k, episode(|log|, k))];
    forall i: nat | 0 < i < |log'| ensures ScheduledAt(log', len, i) {
      assert log'[..i] == log[..i];
      if i < |log| {
        assert ScheduledAt(log, len, i);
      } else {
        assert log[..i] == log;
      }
    }
  }

  /** What the loop knows about the probe it is about to make. */
  predicate Pending(k: nat, lo: nat, hi: nat, len: nat, made: nat) {
    && 1 <= lo + 1 <= k < hi <= len + 1
    && (hi <= len ==> k == lo + (hi - lo) / 2)
    && made + Budget(k, lo, hi, len) <= 2 * CeilLog2(len) + 1
  }

  lemma BudgetPositive(k: nat, lo: nat, hi: nat, len: nat)
    requires lo < k < hi
    ensures Budget(k, lo, hi, len) >= 1
  {
  }

  /**
   * The search, for any outcomes at all: every probe is informative, `lo` and `hi` are the best
   * solved and the worst failed tail with their episodes kept, and unless the probe cap cuts it
   * short the edge is settled within 2*ceil(log2 len) + 1 probes.
   */
  method Search(len: nat, kStart: nat, maxProbes: nat, episode: (nat, nat) -> bool)
    returns (lo: nat, hi: nat, best: Option<nat>, failed: Option<nat>, log: seq<Probe>)
    requires 1 <= len
    ensures Informative(log, len) && Answered(log, episode, Clamp(kStart, 1, len))
    ensures Explained(log, len, lo, hi, best, failed) && Scheduled(log, len)
    ensures |log| <= maxProbes && |log| <= 2 * CeilLog2(len) + 1
    ensures |log| < maxProbes || maxProbes >= 2 * CeilLog2(len) + 1 ==> Settled(lo, hi, len)
  {
    lo, hi, best, failed, log := 0, len + 1, None, None, [];
    var k: nat := Clamp(kStart, 1, len);
    FirstBudget(k, len);
    var stopped := false;
    var i: nat := 0;
    while i < maxProbes && !stopped
      invariant |log| == i <= maxProbes && i <= 2 * CeilLog2(len) + 1
      invariant Informative(log, len) && Answered(log, episode, Clamp(kStart, 1, len))
      invariant i == 0 ==> k == Clamp(kStart, 1, len)
      invariant Explained(log, len, lo, hi, best, failed) && Scheduled(log, len)
      invariant !stopped && log != [] ==> k == Follower(log[|log| - 1].k, lo, hi, len)
      invariant if stopped then Settled(lo, hi, len) else Pending(k, lo, hi, len, i)
      decreases maxProbes - i
    {
      var done := episode(i, k);
      ProbeStep(k, lo, hi, len, done);
      BudgetPositive(k, lo, hi, len);
      Recorded(log, k, len, lo, hi, best, failed, episode, Clamp(kStart, 1, len));
      log := log + [Probe(k, done)];
      if done {
        lo, best := k, Some(i);
      } else {
        hi, failed := k, Some(i);
      }
      i := i + 1;
      if done && k >= len {
        stopped := true;
      } else {
        var next := NextProbeK(k, lo, hi, len);
        if next.Some? {
          k := next.value;
        } else {
          stopped := true;
        }
      }
    }
    if !stopped {
      BudgetPositive(k, lo, hi, len);
    }
  }

  /** If exactly the tails up to `f` are solvable, any such log brackets `f`. */
  lemma {:induction false} BracketsFrontier(log: seq<Probe>, len: nat, f: nat)
    requires f <= len
    requires forall i: nat :: i < |log| ==> log[i].done == (log[i].k <= f)
    ensures LargestSolved(log) <= f < SmallestFailed(log, len)
  {
    if log != [] {
      BracketsFrontier(log[..|log| - 1], len, f);
    }
  }

  /** With monotone solvability and enough probes the search finds the frontier itself. */
  method FindFrontier(len: nat, kStart: nat, maxProbes: nat, f: nat) returns (lo: nat, hi: nat)
    requires 1 <= len && f <= len
    ensures lo <= f < hi
    ensures maxProbes >= 2 * CeilLog2(len) + 1 ==> lo == f
  {
    var best, failed, log;
    lo, hi, best, failed, log := Search(len, kStart, maxProbes, (_, k) => k <= f);
    BracketsFrontier(log, len, f);
  }
}
