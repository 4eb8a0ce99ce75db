/**
 * The request half of a shared-memory slot and its codec: `TilersSlot::pack_observations` and
 * `unpack_observations` (mcts-tilers/src/slot.rs). `as u8` keeps a number modulo 256.
 */
module Slot {
  import opened Wrappers

  const NUM_ACTIONS: nat := 301
  const GRID_MAX: nat := 400
  const LOOKAHEAD_MAX: nat := 3
  const MAX_BATCH: nat := 8
  const CELL_FIELDS: nat := 10
  const BOARD_LAYER_MAX: nat := 4000
  const BOARD_MAX: nat := 12000

  datatype Cell = Cell(
    qubitRole: int, factorKind: int, resourceKind: int, ppGroupRow: int, ppGroupCol: int,
    ancillaIdx: int, lastMoveDir: int, weightInPp: int, isHubForPp: int, isYReady: int)

  datatype Observation = Observation(
    height: nat, width: nat, numAncillas: nat, numLayers: nat,
    board: seq<seq<Cell>>, actionMask: seq<bool>)

  /** One batch element as it lies in the slot. */
  datatype Row = Row(h: nat, w: nat, numAncillas: nat, numLayers: nat, board: seq<int>, mask: seq<nat>)
  {
    predicate Sized() {
      |board| == BOARD_MAX && |mask| == NUM_ACTIONS
    }
  }

  function Min(a: nat, b: nat): nat {
    if a <= b then a else b
  }

  function AsU8(n: nat): nat {
    n % 256
  }

  function CellToArray(c: Cell): (s: seq<int>)
    ensures |s| == CELL_FIELDS
  {
    [c.qubitRole, c.factorKind, c.resourceKind, c.ppGroupRow, c.ppGroupCol,
     c.ancillaIdx, c.lastMoveDir, c.weightInPp, c.isHubForPp, c.isYReady]
  }

  function CellFromSlice(s: seq<int>): Cell
    requires |s| == CELL_FIELDS
  {
    Cell(s[0], s[1], s[2], s[3], s[4], s[5], s[6], s[7], s[8], s[9])
  }

  lemma CellRoundTrip(c: Cell, s: seq<int>)
    requires |s| == CELL_FIELDS
    ensures CellFromSlice(CellToArray(c)) == c
    ensures CellToArray(CellFromSlice(s)) == s
  {
  }

  /** Where channel `f` of cell `c` of layer `l` lies in a board. */
  function Offset(l: nat, c: nat, f: nat): nat {
    l * BOARD_LAYER_MAX + c * CELL_FIELDS + f
  }

  lemma Offsets(l: nat, c: nat, f: nat)
    requires l < LOOKAHEAD_MAX && c < GRID_MAX && f < CELL_FIELDS
    ensures var k := Offset(l, c, f);
            && k < BOARD_MAX
            && k / BOARD_LAYER_MAX == l
            && k % BOARD_LAYER_MAX / CELL_FIELDS == c
            && k % CELL_FIELDS == f
  {
    var k := Offset(l, c, f);
    assert k % BOARD_LAYER_MAX == c * CELL_FIELDS + f;
  }

  /** The value packing leaves at position `k` of a board: a channel of a kept cell, or padding. */
  function PackedAt(board: seq<seq<Cell>>, k: nat): int
    requires k < BOARD_MAX
  {
    var l := k / BOARD_LAYER_MAX;
    var c := k % BOARD_LAYER_MAX / CELL_FIELDS;
    if l < |board| && c < |board[l]| then CellToArray(board[l][c])[k % CELL_FIELDS] else 0
  }

  function PackedMaskAt(mask: seq<bool>, a: nat): nat {
    if a < |mask| && mask[a] then 1 else 0
  }

  function PackRow(o: Observation): (r: Row)
    ensures r.Sized()
  {
    Row(AsU8(o.height), AsU8(o.width), AsU8(o.numAncillas), AsU8(Min(|o.board|, LOOKAHEAD_MAX)),
        seq(BOARD_MAX, k requires 0 <= k < BOARD_MAX => PackedAt(o.board, k)),
        seq(NUM_ACTIONS, a requires 0 <= a < NUM_ACTIONS => PackedMaskAt(o.actionMask, a)))
  }

  /** The cells that an `h` by `w` grid has in a slot. */
  function GridCells(h: nat, w: nat): (n: nat)
    ensures n <= GRID_MAX
  {
    Min(h * w, GRID_MAX)
  }

  function ReadCell(board: seq<int>, l: nat, c: nat): Cell
    requires |board| == BOARD_MAX && l < LOOKAHEAD_MAX && c < GRID_MAX
  {
    CellFromSlice(board[Offset(l, c, 0)..Offset(l, c, 0) + CELL_FIELDS])
  }

  function ReadLayer(board: seq<int>, l: nat, n: nat): seq<Cell>
    requires |board| == BOARD_MAX && l < LOOKAHEAD_MAX && n <= GRID_MAX
  {
    seq(n, c requires 0 <= c < n => ReadCell(board, l, c))
  }

  function ReadBoard(board: seq<int>, layers: nat, n: nat): seq<seq<Cell>>
    requires |board| == BOARD_MAX && layers <= LOOKAHEAD_MAX && n <= GRID_MAX
  {
    seq(layers, l requires 0 <= l < layers => ReadLayer(board, l, n))
  }

  function ReadMask(mask: seq<nat>): seq<bool> {
    seq(|mask|, a requires 0 <= a < |mask| => mask[a] != 0)
  }

  function UnpackRow(r: Row): Observation
    requires r.Sized()
  {
    var layers := Min(r.numLayers, LOOKAHEAD_MAX);
    Observation(r.h, r.w, r.numAncillas, layers,
                ReadBoard(r.board, layers, GridCells(r.h, r.w)), ReadMask(r.mask))
  }

  /** Every cell written within the limits is read back as it was. */
  lemma CellSurvives(o: Observation, l: nat, c: nat)
    requires l < LOOKAHEAD_MAX && c < GRID_MAX
    ensures l < |o.board| && c < |o.board[l]| ==> ReadCell(PackRow(o).board, l, c) == o.board[l][c]
  {
    if l < |o.board| && c < |o.board[l]| {
      var s := PackRow(o).board[Offset(l, c, 0)..Offset(l, c, 0) + CELL_FIELDS];
      forall f: nat | f < CELL_FIELDS ensures s[f] == CellToArray(o.board[l][c])[f] {
        Offsets(l, c, f);
        assert Offset(l, c, f) == Offset(l, c, 0) + f;
      }
      assert s == CellToArray(o.board[l][c]);
      CellRoundTrip(o.board[l][c], s);
    }
  }

  predicate FullLayer(o: Observation, l: nat)
    requires l < |o.board|
  {
    |o.board[l]| == GridCells(o.height, o.width)
  }

  /** What the slot can carry without loss. */
  predicate WellFormed(o: Observation) {
    && o.height < 256 && o.width < 256 && o.numAncillas < 256
    && o.numLayers == |o.board| <= LOOKAHEAD_MAX
    && (forall l: nat :: l < |o.board| ==> FullLayer(o, l))
    && |o.actionMask| == NUM_ACTIONS
  }

  lemma BoardSurvives(o: Observation)
    requires WellFormed(o)
    ensures ReadBoard(PackRow(o).board, |o.board|, GridCells(o.height, o.width)) == o.board
  {
    var n := GridCells(o.height, o.width);
    forall l: nat | l < |o.board| ensures ReadLayer(PackRow(o).board, l, n) == o.board[l] {
      assert FullLayer(o, l);
      forall c: nat | c < n ensures ReadCell(PackRow(o).board, l, c) == o.board[l][c] {
        CellSurvives(o, l, c);
      }
    }
  }

  lemma MaskSurvives(mask: seq<bool>)
    requires |mask| == NUM_ACTIONS
    ensures ReadMask(seq(NUM_ACTIONS, a requires 0 <= a < NUM_ACTIONS => PackedMaskAt(mask, a))) == mask
  {
  }

  lemma WellFormedSurvives(o: Observation)
    requires WellFormed(o)
    ensures UnpackRow(PackRow(o)) == o
  {
    BoardSurvives(o);
    MaskSurvives(o.actionMask);
  }

  lemma UnpackedIsWellFormed(r: Row)
    requires r.Sized() && r.h < 256 && r.w < 256 && r.numAncillas < 256
    ensures WellFormed(UnpackRow(r))
  {
    var o := UnpackRow(r);
    forall l: nat | l < |o.board| ensures FullLayer(o, l) {
    }
  }

  /** Unpacking undoes packing exactly on the well-formed observations. */
  lemma RoundTrip(o: Observation)
    ensures UnpackRow(PackRow(o)) == o <==> WellFormed(o)
  {
    if WellFormed(o) { WellFormedSurvives(o); }
    UnpackedIsWellFormed(PackRow(o));
  }

  /** A second trip through a slot changes nothing more, whatever the observation. */
  lemma TripIsIdempotent(o: Observation)
    ensures var once := UnpackRow(PackRow(o)); UnpackRow(PackRow(once)) == once
  {
    UnpackedIsWellFormed(PackRow(o));
    RoundTrip(UnpackRow(PackRow(o)));
  }

  /** Past a layer's kept cells, and past the last layer, packing leaves padding. */
  lemma PaddingAfter(cells: seq<seq<Cell>>, l: nat, n: nat)
    requires l < |cells| && l < LOOKAHEAD_MAX && n == Min(|cells[l]|, GRID_MAX)
    ensures forall k: nat :: l * BOARD_LAYER_MAX + n * CELL_FIELDS <= k < (l + 1) * BOARD_LAYER_MAX ==>
              PackedAt(cells, k) == 0
  {
    forall k: nat | l * BOARD_LAYER_MAX + n * CELL_FIELDS <= k < (l + 1) * BOARD_LAYER_MAX
      ensures PackedAt(cells, k) == 0
    {
      assert k / BOARD_LAYER_MAX == l;
      assert k % BOARD_LAYER_MAX / CELL_FIELDS >= n;
    }
  }

  /** The input arrays of a slot, overwritten in place by each request. */
  class TilersSlot {
    var b: nat
    const h: array<nat>
    const w: array<nat>
    const numAncillas: array<nat>
    const numLayers: array<nat>
    const board: array2<int>
    const actionMask: array<nat>

    constructor ()
      ensures Valid() && b == 0
      ensures fresh(h) && fresh(w) && fresh(numAncillas) && fresh(numLayers) && fresh(board) && fresh(actionMask)
    {
      b := 0;
      h := new nat[MAX_BATCH](_ => 0);
      w := new nat[MAX_BATCH](_ => 0);
      numAncillas := new nat[MAX_BATCH](_ => 0);
      numLayers := new nat[MAX_BATCH](_ => 0);
      board := new int[MAX_BATCH, BOARD_MAX]((_, _) => 0);
      actionMask := new nat[MAX_BATCH * NUM_ACTIONS](_ => 0);
    }

    ghost predicate Valid() {
      && h.Length == w.Length == numAncillas.Length == numLayers.Length == MAX_BATCH
      && h != w && h != numAncillas && h != numLayers && w != numAncillas && w != numLayers
      && numAncillas != numLayers
      && actionMask !in {h, w, numAncillas, numLayers}
      && board.Length0 == MAX_BATCH && board.Length1 == BOARD_MAX
      && actionMask.Length == MAX_BATCH * NUM_ACTIONS
    }

    ghost function BoardOf(i: nat): seq<int>
      reads board
      requires Valid() && i < MAX_BATCH
    {
      seq(BOARD_MAX, k requires 0 <= k < BOARD_MAX reads board => board[i, k])
    }

    ghost function MaskOf(i: nat): seq<nat>
      reads actionMask
      requires Valid() && i < MAX_BATCH
    {
      actionMask[i * NUM_ACTIONS..i * NUM_ACTIONS + NUM_ACTIONS]
    }

    ghost function RowOf(i: nat): (r: Row)
      reads h, w, numAncillas, numLayers, board, actionMask
      requires Valid() && i < MAX_BATCH
      ensures r.Sized()
    {
      Row(h[i], w[i], numAncillas[i], numLayers[i], BoardOf(i), MaskOf(i))
    }

    /** Positions of board `i` below `off` hold what packing leaves there; the rest is zero. */
    ghost predicate FilledTo(i: nat, cells: seq<seq<Cell>>, off: nat)
      reads board
      requires Valid() && i < MAX_BATCH
    {
      forall k: nat :: k < BOARD_MAX ==> board[i, k] == if k < off then PackedAt(cells, k) else 0
    }

    twostate predicate OtherBoardsKept(i: nat)
      reads board
      requires Valid()
    {
      forall j: nat, k: nat :: j < MAX_BATCH && j != i && k < BOARD_MAX ==> board[j, k] == old(board[j, k])
    }

    method CopyCell(i: nat, off: nat, cell: Cell)
      requires Valid() && i < MAX_BATCH && off + CELL_FIELDS <= BOARD_MAX
      modifies board
      ensures OtherBoardsKept(i)
      ensures forall k: nat :: k < BOARD_MAX ==>
                board[i, k] == (if off <= k < off + CELL_FIELDS then CellToArray(cell)[k - off] else old(board[i, k]))
    {
      var s := CellToArray(cell);
      forall k | off <= k < off + CELL_FIELDS {
        board[i, k] := s[k - off];
      }
    }

    method PackLayer(i: nat, l: nat, cells: seq<seq<Cell>>)
      requires Valid() && i < MAX_BATCH && l < LOOKAHEAD_MAX && l < |cells|
      requires FilledTo(i, cells, l * BOARD_LAYER_MAX)
      modifies board
      ensures FilledTo(i, cells, (l + 1) * BOARD_LAYER_MAX) && OtherBoardsKept(i)
    {
      var layer := cells[l];
      var n := Min(|layer|, GRID_MAX);
      var c := 0;
      while c < n
        invariant c <= n
        invariant FilledTo(i, cells, l * BOARD_LAYER_MAX + c * CELL_FIELDS) && OtherBoardsKept(i)
      {
        var off := l * BOARD_LAYER_MAX + c * CELL_FIELDS;
        CopyCell(i, off, layer[c]);
        assert forall k: nat :: off <= k < off + CELL_FIELDS ==> PackedAt(cells, k) == CellToArray(layer[c])[k - off] by {
          forall k: nat | off <= k < off + CELL_FIELDS
            ensures PackedAt(cells, k) == CellToArray(layer[c])[k - off]
          {
            Offsets(l, c, k - off);
          }
        }
        c := c + 1;
      }
      PaddingAfter(cells, l, n);
    }

    method PackBoard(i: nat, cells: seq<seq<Cell>>)
      requires Valid() && i < MAX_BATCH
      modifies board
      ensures FilledTo(i, cells, BOARD_MAX) && OtherBoardsKept(i)
    {
      forall k | 0 <= k < BOARD_MAX {
        board[i, k] := 0;
      }
      var layers := Min(|cells|, LOOKAHEAD_MAX);
      for l := 0 to layers
        invariant FilledTo(i, cells, l * BOARD_LAYER_MAX) && OtherBoardsKept(i)
      {
        PackLayer(i, l, cells);
      }
    }

    method PackMask(i: nat, mask: seq<bool>)
      requires Valid() && i < MAX_BATCH
      modifies actionMask
      ensures forall k: nat :: i * NUM_ACTIONS <= k < i * NUM_ACTIONS + NUM_ACTIONS ==>
                actionMask[k] == PackedMaskAt(mask, k - i * NUM_ACTIONS)
      ensures forall k: nat :: k < i * NUM_ACTIONS || i * NUM_ACTIONS + NUM_ACTIONS <= k < actionMask.Length ==>
                actionMask[k] == old(actionMask[k])
    {
      var off := i * NUM_ACTIONS;
      forall k | off <= k < off + NUM_ACTIONS {
        actionMask[k] := 0;
      }
      for a := 0 to |mask|
        invariant forall k: nat :: off <= k < off + NUM_ACTIONS ==>
                    actionMask[k] == if k - off < a then PackedMaskAt(mask, k - off) else 0
        invariant forall k: nat :: k < off || off + NUM_ACTIONS <= k < actionMask.Length ==>
                    actionMask[k] == old(actionMask[k])
      {
        if a < NUM_ACTIONS && mask[a] {
          actionMask[off + a] := 1;
        }
      }
    }

    twostate predicate OtherRowsKept(i: nat)
      reads h, w, numAncillas, numLayers, board, actionMask
      requires Valid()
    {
      forall j: nat :: j < MAX_BATCH && j != i ==> RowOf(j) == old(RowOf(j))
    }

    method PackOne(i: nat, o: Observation)
      requires Valid() && i < MAX_BATCH
      modifies h, w, numAncillas, numLayers, board, actionMask
      ensures RowOf(i) == PackRow(o) && OtherRowsKept(i)
    {
      h[i] := AsU8(o.height);
      w[i] := AsU8(o.width);
      numAncillas[i] := AsU8(o.numAncillas);
      numLayers[i] := AsU8(Min(|o.board|, LOOKAHEAD_MAX));
      PackBoard(i, o.board);
      PackMask(i, o.actionMask);
      assert BoardOf(i) == PackRow(o).board;
      assert MaskOf(i) == PackRow(o).mask;
      forall j: nat | j < MAX_BATCH && j != i ensures RowOf(j) == old(RowOf(j)) {
        assert BoardOf(j) == old(BoardOf(j));
        assert MaskOf(j) == old(MaskOf(j));
      }
    }

    /**
     * Each observation's row becomes its packed form, whatever the slot held before; later rows and,
     * for an empty or oversized batch, the whole slot stay as they were.
     */
    method PackObservations(observations: seq<Observation>) returns (r: Result<(), string>)
      requires Valid()
      modifies this`b, h, w, numAncillas, numLayers, board, actionMask
      ensures r.Ok? <==> 1 <= |observations| <= MAX_BATCH
      ensures b == if r.Ok? then |observations| else old(b)
      ensures forall i: nat :: i < MAX_BATCH ==>
                RowOf(i) == if r.Ok? && i < |observations| then PackRow(observations[i]) else old(RowOf(i))
    {
      var n := |observations|;
      if n == 0 || n > MAX_BATCH {
        return Err("batch size out of range");
      }
      b := n;
      for i := 0 to n
        invariant b == n
        invariant forall j: nat :: j < MAX_BATCH ==>
                    RowOf(j) == if j < i then PackRow(observations[j]) else old(RowOf(j))
      {
        PackOne(i, observations[i]);
      }
      r := Ok(());
    }

    method UnpackLayer(i: nat, l: nat, n: nat) returns (layer: seq<Cell>)
      requires Valid() && i < MAX_BATCH && l < LOOKAHEAD_MAX && n <= GRID_MAX
      ensures layer == ReadLayer(BoardOf(i), l, n)
    {
      layer := [];
      for c := 0 to n
        invariant layer == ReadLayer(BoardOf(i), l, c)
      {
        var off := l * BOARD_LAYER_MAX + c * CELL_FIELDS;
        var s := seq(CELL_FIELDS, f requires 0 <= f < CELL_FIELDS reads board => board[i, off + f]);
        assert s == BoardOf(i)[off..off + CELL_FIELDS];
        layer := layer + [CellFromSlice(s)];
      }
    }

    method UnpackOne(i: nat) returns (o: Observation)
      requires Valid() && i < MAX_BATCH
      ensures o == UnpackRow(RowOf(i))
    {
      var layers := Min(numLayers[i], LOOKAHEAD_MAX);
      var cells := Min(h[i] * w[i], GRID_MAX);
      var boards: seq<seq<Cell>> := [];
      for l := 0 to layers
        invariant boards == ReadBoard(BoardOf(i), l, cells)
      {
        var layer := UnpackLayer(i, l, cells);
        boards := boards + [layer];
      }
      var off := i * NUM_ACTIONS;
      var mask := seq(NUM_ACTIONS, a requires 0 <= a < NUM_ACTIONS reads actionMask => actionMask[off + a] != 0);
      assert mask == ReadMask(MaskOf(i));
      o := Observation(h[i], w[i], numAncillas[i], layers, boards, mask);
    }

    method UnpackObservations() returns (out: seq<Observation>)
      requires Valid() && b <= MAX_BATCH
      ensures |out| == b && forall i: nat :: i < b ==> out[i] == UnpackRow(RowOf(i))
    {
      out := [];
      for i := 0 to b
        invariant |out| == i && forall j: nat :: j < i ==> out[j] == UnpackRow(RowOf(j))
      {
        var o := UnpackOne(i);
        out := out + [o];
      }
    }

    /**
     * A request goes through the slot unharmed exactly when every observation in it is well formed,
     * whatever the slot was last used for.
     */
    method PackThenUnpack(observations: seq<Observation>) returns (out: seq<Observation>)
      requires Valid() && 1 <= |observations| <= MAX_BATCH
      modifies this`b, h, w, numAncillas, numLayers, board, actionMask
      ensures out == observations <==> forall i: nat :: i < |observations| ==> WellFormed(observations[i])
    {
      var packed := PackObservations(observations);
      out := UnpackObservations();
      forall i: nat | i < |observations| ensures out[i] == observations[i] <==> WellFormed(observations[i]) {
        RoundTrip(observations[i]);
      }
    }
  }
}
