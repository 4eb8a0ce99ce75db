/** Sums over dense per-action vectors, and over the actions listed for a node. */
module Sums {
  function Sum(s: seq<nat>): nat {
    if s == [] then 0 else s[0] + Sum(s[1..])
  }

  predicate Below(indices: seq<nat>, bound: nat) {
    forall k :: 0 <= k < |indices| ==> indices[k] < bound
  }

  /** The total of `s` at the listed indices. */
  function SumAt(s: seq<nat>, indices: seq<nat>): nat
    requires Below(indices, |s|)
  {
    if indices == [] then 0 else s[indices[0]] + SumAt(s, indices[1..])
  }

  ghost predicate Distinct<T(!new)>(s: seq<T>) {
    forall i, j :: 0 <= i < j < |s| ==> s[i] != s[j]
  }

  lemma {:induction false} SumUpdate(s: seq<nat>, i: nat, v: nat)
    requires i < |s|
    ensures Sum(s[i := v]) == Sum(s) - s[i] + v
  {
    if i == 0 {
      assert s[i := v][1..] == s[1..];
    } else {
      SumUpdate(s[1..], i - 1, v);
      assert s[i := v][1..] == s[1..][i - 1 := v];
    }
  }

  lemma {:induction false} SumAtLeast(s: seq<nat>, i: nat)
    requires i < |s|
    ensures s[i] <= Sum(s)
  {
    if i > 0 {
      SumAtLeast(s[1..], i - 1);
    }
  }

  lemma {:induction false} SumSnoc(s: seq<nat>, x: nat)
    ensures Sum(s + [x]) == Sum(s) + x
  {
    if s != [] {
      SumSnoc(s[1..], x);
      assert (s + [x])[1..] == s[1..] + [x];
    }
  }

  lemma {:induction false} SumZero(s: seq<nat>)
    ensures Sum(s) == 0 <==> forall i :: 0 <= i < |s| ==> s[i] == 0
  {
    if s != [] {
      SumZero(s[1..]);
      assert forall i :: 1 <= i < |s| ==> s[i] == s[1..][i - 1];
      if forall i :: 0 <= i < |s[1..]| ==> s[1..][i] == 0 {
        assert forall i :: 1 <= i < |s| ==> s[i] == 0;
      }
    }
  }

  lemma {:induction false} SumAtIgnores(s: seq<nat>, indices: seq<nat>, i: nat, v: nat)
    requires Below(indices, |s|)
    requires i < |s| && i !in indices
    ensures SumAt(s[i := v], indices) == SumAt(s, indices)
  {
    if indices != [] {
      SumAtIgnores(s, indices[1..], i, v);
    }
  }

  /** A duplicate-free list that names every non-zero slot sums to the whole vector. */
  lemma {:induction false} SumAtAll(s: seq<nat>, indices: seq<nat>)
    requires Below(indices, |s|)
    requires Distinct(indices)
    requires forall i :: 0 <= i < |s| && s[i] != 0 ==> i in indices
    ensures SumAt(s, indices) == Sum(s)
    decreases |indices|
  {
    if indices == [] {
      SumZero(s);
    } else {
      var i, rest := indices[0], indices[1..];
      var cleared := s[i := 0];
      assert i !in rest;
      SumAtIgnores(s, rest, i, 0);
      SumUpdate(s, i, 0);
      forall k | 0 <= k < |cleared| && cleared[k] != 0
        ensures k in rest
      {
        assert k in indices;
      }
      SumAtAll(cleared, rest);
    }
  }

  /** The sum of `f` over the listed actions. */
  function Total(f: nat -> real, actions: seq<nat>): real {
    if actions == [] then 0.0 else f(actions[0]) + Total(f, actions[1..])
  }

  function Share(x: real, total: real): real
    requires total != 0.0
  {
    x / total
  }

  lemma ShareAdds(x: real, y: real, total: real)
    requires total != 0.0
    ensures Share(x + y, total) == Share(x, total) + Share(y, total)
  {
  }

  lemma ShareOfNothing(total: real)
    requires total != 0.0
    ensures Share(0.0, total) == 0.0
  {
  }

  lemma ShareOfWhole(total: real)
    requires total != 0.0
    ensures Share(total, total) == 1.0
  {
  }
}
