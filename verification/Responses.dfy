/**
 * The response half of a slot: `pop_ready_view`'s clearing and `write_priors_values`
 * (mcts-tilers/src/py_ipc.rs), and the strided read-back of `TilersIpcClient::infer`
 * (mcts-tilers/src/client.rs).
 */
module Responses {
  import opened Wrappers
  import opened Slot

  const PRIORS_MAX: nat := 2408

  /** A row-major matrix, as numpy hands it over. */
  datatype Matrix = Matrix(rows: nat, cols: nat, data: seq<real>)
  {
    predicate Valid() {
      |data| == rows * cols
    }

    function At(i: nat, a: nat): real
      requires Valid() && i < rows && a < cols
    {
      InMatrix(i, a, rows, cols);
      data[i * cols + a]
    }
  }

  lemma InMatrix(i: nat, a: nat, rows: nat, cols: nat)
    requires i < rows && a < cols
    ensures i * cols + a < rows * cols
    ensures i * cols + cols <= rows * cols
  {
    assert (i + 1) * cols <= rows * cols;
  }

  datatype WriteError = WrongRows | TooManyColumns | WrongValues

  /** Where action `a` of batch element `i` lies in the flat priors. */
  function Entry(i: nat, a: nat): nat {
    i * NUM_ACTIONS + a
  }

  /** What a slot holds for element `i` and action `a` after a write. */
  function Written(p: Matrix, i: nat, a: nat): real
    requires p.Valid() && i < p.rows
  {
    if a < p.cols then p.At(i, a) else 0.0
  }

  predicate InRange(i: nat, mask: seq<bool>) {
    forall a: nat :: a < |mask| && mask[a] ==> Entry(i, a) < PRIORS_MAX
  }

  /** The mask allows no action past a slot's row; it may be longer. */
  predicate MaskFits(mask: seq<bool>) {
    forall a: nat :: NUM_ACTIONS <= a < |mask| ==> !mask[a]
  }

  /** The prior map the client builds for element `i`: one entry per allowed action. */
  function ReadBack(priors: seq<real>, i: nat, mask: seq<bool>): map<nat, real>
    requires |priors| == PRIORS_MAX && InRange(i, mask)
  {
    map a: nat | a < |mask| && mask[a] :: priors[Entry(i, a)]
  }

  predicate SameRow(p: seq<real>, q: seq<real>, i: nat)
    requires |p| == |q| == PRIORS_MAX && i < MAX_BATCH
  {
    forall a: nat :: a < NUM_ACTIONS ==> p[Entry(i, a)] == q[Entry(i, a)]
  }

  ghost predicate ReadsOwnRow(i: nat, mask: seq<bool>)
    requires i < MAX_BATCH && InRange(i, mask)
  {
    forall p: seq<real>, q: seq<real> ::
      |p| == |q| == PRIORS_MAX && SameRow(p, q, i) ==> ReadBack(p, i, mask) == ReadBack(q, i, mask)
  }

  /** The read-back of an element depends on its own row alone exactly when its mask allows no action past the row. */
  lemma OwnRowExactly(i: nat, mask: seq<bool>)
    requires i < MAX_BATCH && InRange(i, mask)
    ensures ReadsOwnRow(i, mask) <==> MaskFits(mask)
  {
    if a: nat :| NUM_ACTIONS <= a < |mask| && mask[a] {
      var p := seq(PRIORS_MAX, _ => 0.0);
      var q := p[Entry(i, a) := 1.0];
      assert SameRow(p, q, i);
      assert ReadBack(p, i, mask)[a] != ReadBack(q, i, mask)[a];
    }
  }

  /** The output arrays of a slot, overwritten in place by each response. */
  class Outputs {
    var b: nat
    const priors: array<real>
    const values: array<real>

    constructor (b: nat)
      ensures Valid() && this.b == b && fresh(priors) && fresh(values)
    {
      this.b := b;
      priors := new real[PRIORS_MAX](_ => 0.0);
      values := new real[MAX_BATCH](_ => 0.0);
    }

    ghost predicate Valid() {
      priors.Length == PRIORS_MAX && values.Length == MAX_BATCH && priors != values
    }

    function BatchLen(): (n: nat)
      reads this
      ensures n <= MAX_BATCH
    {
      Min(b, MAX_BATCH)
    }

    /** Nothing of an earlier response is left after the handler has popped the slot. */
    method ClearOutputs()
      requires Valid()
      modifies priors, values
      ensures forall k :: 0 <= k < PRIORS_MAX ==> priors[k] == 0.0
      ensures forall k :: 0 <= k < MAX_BATCH ==> values[k] == 0.0
    {
      forall k | 0 <= k < priors.Length {
        priors[k] := 0.0;
      }
      forall k | 0 <= k < values.Length {
        values[k] := 0.0;
      }
    }

    ghost predicate RowWritten(p: Matrix, i: nat)
      reads priors
      requires Valid() && p.Valid() && i < p.rows && i < MAX_BATCH
    {
      forall a: nat :: a < NUM_ACTIONS ==> priors[Entry(i, a)] == Written(p, i, a)
    }

    method CopyRow(p: Matrix, i: nat)
      requires Valid() && p.Valid() && i < p.rows && i < MAX_BATCH && p.cols <= NUM_ACTIONS
      requires forall a: nat :: a < NUM_ACTIONS ==> priors[Entry(i, a)] == 0.0
      modifies priors
      ensures RowWritten(p, i)
      ensures forall k: nat :: k < i * NUM_ACTIONS || (i + 1) * NUM_ACTIONS <= k < PRIORS_MAX ==>
                priors[k] == old(priors[k])
    {
      var src := i * p.cols;
      var dst := i * NUM_ACTIONS;
      for a := 0 to p.cols
        invariant forall x: nat :: x < NUM_ACTIONS ==>
                    priors[Entry(i, x)] == if x < a then p.At(i, x) else 0.0
        invariant forall k: nat :: k < i * NUM_ACTIONS || (i + 1) * NUM_ACTIONS <= k < PRIORS_MAX ==>
                    priors[k] == old(priors[k])
      {
        InMatrix(i, a, p.rows, p.cols);
        priors[dst + a] := p.data[src + a];
      }
    }

    method CopyRows(p: Matrix)
      requires Valid() && p.Valid() && p.rows <= MAX_BATCH && p.cols <= NUM_ACTIONS
      modifies priors
      ensures forall i: nat :: i < p.rows ==> RowWritten(p, i)
      ensures forall k: nat :: p.rows * NUM_ACTIONS <= k < PRIORS_MAX ==> priors[k] == old(priors[k])
    {
      forall k | 0 <= k < p.rows * NUM_ACTIONS {
        priors[k] := 0.0;
      }
      for i := 0 to p.rows
        invariant forall j: nat :: j < i ==> RowWritten(p, j)
        invariant forall k: nat :: i * NUM_ACTIONS <= k < p.rows * NUM_ACTIONS ==> priors[k] == 0.0
        invariant forall k: nat :: p.rows * NUM_ACTIONS <= k < PRIORS_MAX ==> priors[k] == old(priors[k])
      {
        label before:
        CopyRow(p, i);
        forall j: nat | j < i ensures RowWritten(p, j) {
          assert old@before(RowWritten(p, j));
        }
      }
    }

    /**
     * Accepts exactly one row and one value per batch element and at most NUM_ACTIONS columns, and
     * then leaves each row in place with zeros after its columns; a refused write changes nothing.
     */
    method WritePriorsValues(p: Matrix, v: seq<real>) returns (r: Result<(), WriteError>)
      requires Valid() && p.Valid()
      modifies priors, values
      ensures r.Ok? <==> p.rows == BatchLen() == |v| && p.cols <= NUM_ACTIONS
      ensures r == Err(WrongRows) <==> p.rows != BatchLen()
      ensures r == Err(WrongValues) <==> p.rows == BatchLen() != |v| && p.cols <= NUM_ACTIONS
      ensures r.Ok? ==> forall i: nat :: i < BatchLen() ==> RowWritten(p, i) && values[i] == v[i]
      ensures r.Ok? ==> forall k: nat :: BatchLen() * NUM_ACTIONS <= k < PRIORS_MAX ==> priors[k] == old(priors[k])
      ensures r.Ok? ==> forall k: nat :: BatchLen() <= k < MAX_BATCH ==> values[k] == old(values[k])
      ensures r.Err? ==> priors[..] == old(priors[..]) && values[..] == old(values[..])
    {
      var n := BatchLen();
      if p.rows != n { return Err(WrongRows); }
      if p.cols > NUM_ACTIONS { return Err(TooManyColumns); }
      if |v| != n { return Err(WrongValues); }
      CopyRows(p);
      label copied:
      forall i | 0 <= i < n {
        values[i] := v[i];
      }
      forall i: nat | i < n ensures RowWritten(p, i) {
        assert old@copied(RowWritten(p, i));
      }
      r := Ok(());
    }

    /**
     * The client's read after the handler's write returns, for every allowed action of an element,
     * the handler's prior of that action, and zero past the columns written.
     */
    method WriteThenRead(p: Matrix, v: seq<real>, masks: seq<seq<bool>>)
      returns (priorMaps: seq<map<nat, real>>, read: seq<real>)
      requires Valid() && p.Valid() && b <= MAX_BATCH
      requires p.rows == b == |v| == |masks| && p.cols <= NUM_ACTIONS
      requires forall i: nat :: i < |masks| ==> MaskFits(masks[i])
      modifies priors, values
      ensures read == v && |priorMaps| == b
      ensures forall i: nat, a: nat :: i < b ==>
                && (a in priorMaps[i] <==> a < |masks[i]| && masks[i][a])
                && (a in priorMaps[i] ==> priorMaps[i][a] == Written(p, i, a))
    {
      var r := WritePriorsValues(p, v);
      read := values[..b];
      priorMaps := [];
      for i := 0 to b
        invariant |priorMaps| == i
        invariant forall j: nat, a: nat :: j < i ==>
                    && (a in priorMaps[j] <==> a < |masks[j]| && masks[j][a])
                    && (a in priorMaps[j] ==> priorMaps[j][a] == Written(p, j, a))
      {
        assert RowWritten(p, i);
        var own := ReadBack(priors[..], i, masks[i]);
        priorMaps := priorMaps + [own];
      }
    }
  }
}
