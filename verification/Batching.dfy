/**
 * How a handler turns the slots it popped into one inference call and back: `build_board_batch` and
 * the write-back loop of `do_work` (mcts-tilers/python/mcts_tilers/handler.py).
 */
module Batching {
  import opened Slot

  function Concat<T>(parts: seq<seq<T>>): seq<T> {
    if parts == [] then [] else Concat(parts[..|parts| - 1]) + parts[|parts| - 1]
  }

  function Sizes<T>(parts: seq<seq<T>>): seq<nat> {
    seq(|parts|, k requires 0 <= k < |parts| => |parts[k]|)
  }

  /** Where part `k` begins in the concatenation. */
  function Start(sizes: seq<nat>, k: nat): nat
    requires k <= |sizes|
  {
    if k == 0 then 0 else Start(sizes, k - 1) + sizes[k - 1]
  }

  function MapRows<A, B>(f: A -> B, rows: seq<A>): seq<B> {
    seq(|rows|, k requires 0 <= k < |rows| => f(rows[k]))
  }

  function MapParts<A, B>(f: A -> B, parts: seq<seq<A>>): seq<seq<B>> {
    seq(|parts|, k requires 0 <= k < |parts| => MapRows(f, parts[k]))
  }

  /** A Python slice, which clamps its ends. */
  function Slice<T>(s: seq<T>, lo: nat, hi: nat): seq<T> {
    var end := Min(hi, |s|);
    if lo <= end then s[lo..end] else []
  }

  function Piece<T>(all: seq<T>, sizes: seq<nat>, k: nat): seq<T>
    requires k < |sizes|
  {
    Slice(all, Start(sizes, k), Start(sizes, k + 1))
  }

  function Split<T>(all: seq<T>, sizes: seq<nat>): seq<seq<T>> {
    seq(|sizes|, k requires 0 <= k < |sizes| => Piece(all, sizes, k))
  }

  /** One inference call: an answer to each row, which may depend on the whole batch. */
  function InferAll<A, B>(infer: (seq<A>, nat) -> B, rows: seq<A>): seq<B> {
    seq(|rows|, i requires 0 <= i < |rows| => infer(rows, i))
  }

  /** What each slot receives: concatenate, infer once, split by slot sizes. */
  function Answer<A, B>(infer: (seq<A>, nat) -> B, parts: seq<seq<A>>): seq<seq<B>> {
    Split(InferAll(infer, Concat(parts)), Sizes(parts))
  }

  /** What the call says about `n` rows from `at` on. */
  function Stretch<A, B>(infer: (seq<A>, nat) -> B, all: seq<A>, at: nat, n: nat): seq<B> {
    seq(n, i requires 0 <= i < n => infer(all, at + i))
  }

  /** `answers` is what one call over the batch `all` said about the rows of `part`, which begin at `at`. */
  ghost predicate GivenAt<A, B>(infer: (seq<A>, nat) -> B, part: seq<A>, answers: seq<B>, all: seq<A>, at: nat) {
    && at + |part| <= |all| && all[at..at + |part|] == part
    && answers == Stretch(infer, all, at, |part|)
  }

  /** `answers` is what some call said about exactly these rows. */
  ghost predicate Given<A(!new), B>(infer: (seq<A>, nat) -> B, part: seq<A>, answers: seq<B>) {
    exists all: seq<A>, at: nat :: GivenAt(infer, part, answers, all, at)
  }

  /** The answer to a row does not depend on what shares its batch. */
  ghost predicate RowWise<A(!new), B>(infer: (seq<A>, nat) -> B, f: A -> B) {
    forall all: seq<A>, i: nat :: i < |all| ==> infer(all, i) == f(all[i])
  }

  lemma {:induction false} StartPrefix(sizes: seq<nat>, more: seq<nat>, k: nat)
    requires k <= |sizes|
    ensures Start(sizes + more, k) == Start(sizes, k)
  {
    if k > 0 {
      StartPrefix(sizes, more, k - 1);
    }
  }

  lemma SizesAppend<T>(parts: seq<seq<T>>)
    requires parts != []
    ensures Sizes(parts) == Sizes(parts[..|parts| - 1]) + [|parts[|parts| - 1]|]
  {
  }

  lemma {:induction false} ConcatLength<T>(parts: seq<seq<T>>)
    ensures |Concat(parts)| == Start(Sizes(parts), |parts|)
  {
    if parts != [] {
      ConcatLength(parts[..|parts| - 1]);
      SizesAppend(parts);
      StartPrefix(Sizes(parts[..|parts| - 1]), [|parts[|parts| - 1]|], |parts| - 1);
    }
  }

  /** Appending a part moves none of the earlier starts. */
  lemma StartsKept<T>(parts: seq<seq<T>>, k: nat)
    requires k < |parts|
    ensures Start(Sizes(parts), k) == Start(Sizes(parts[..|parts| - 1]), k)
    ensures Start(Sizes(parts), k + 1) == Start(Sizes(parts), k) + |parts[k]|
  {
    SizesAppend(parts);
    StartPrefix(Sizes(parts[..|parts| - 1]), [|parts[|parts| - 1]|], k);
  }

  lemma LastPartInConcat<T>(parts: seq<seq<T>>)
    requires parts != []
    ensures Start(Sizes(parts), |parts| - 1) == |Concat(parts[..|parts| - 1])|
    ensures Start(Sizes(parts), |parts|) == |Concat(parts)|
    ensures Concat(parts)[|Concat(parts[..|parts| - 1])|..] == parts[|parts| - 1]
  {
    ConcatLength(parts[..|parts| - 1]);
    ConcatLength(parts);
    StartsKept(parts, |parts| - 1);
  }

  /** Each part lies in the concatenation at its own start. */
  lemma {:induction false} PartInConcat<T>(parts: seq<seq<T>>, k: nat)
    requires k < |parts|
    ensures Start(Sizes(parts), k + 1) <= |Concat(parts)|
    ensures Concat(parts)[Start(Sizes(parts), k)..Start(Sizes(parts), k + 1)] == parts[k]
  {
    var front := parts[..|parts| - 1];
    if k == |parts| - 1 {
      LastPartInConcat(parts);
    } else {
      PartInConcat(front, k);
      StartsKept(parts, k);
      StartsKept(parts, k + 1);
      var at, end := Start(Sizes(front), k), Start(Sizes(front), k + 1);
      assert Concat(parts)[at..end] == Concat(front)[at..end];
    }
  }

  /** Splitting undoes concatenating. */
  lemma SplitUndoesConcat<T>(parts: seq<seq<T>>)
    ensures Split(Concat(parts), Sizes(parts)) == parts
  {
    forall k: nat | k < |parts| ensures Piece(Concat(parts), Sizes(parts), k) == parts[k] {
      PartInConcat(parts, k);
    }
  }

  /** Each slot is given what the call said about its own rows, in order. */
  lemma AnswerIsOwn<A(!new), B>(infer: (seq<A>, nat) -> B, parts: seq<seq<A>>, k: nat)
    requires k < |parts|
    ensures |Answer(infer, parts)| == |parts|
    ensures GivenAt(infer, parts[k], Answer(infer, parts)[k], Concat(parts), Start(Sizes(parts), k))
    ensures Given(infer, parts[k], Answer(infer, parts)[k])
  {
    PartInConcat(parts, k);
    var all, sizes, answers := Concat(parts), Sizes(parts), Answer(infer, parts)[k];
    var at := Start(sizes, k);
    assert Start(sizes, k + 1) == at + |parts[k]|;
    assert answers == Piece(InferAll(infer, all), sizes, k);
    StretchOf(infer, all, at, |parts[k]|);
    assert GivenAt(infer, parts[k], answers, all, at);
  }

  lemma StretchOf<A, B>(infer: (seq<A>, nat) -> B, all: seq<A>, at: nat, n: nat)
    requires at + n <= |all|
    ensures Slice(InferAll(infer, all), at, at + n) == Stretch(infer, all, at, n)
  {
  }

  lemma GivenRowWise<A(!new), B>(infer: (seq<A>, nat) -> B, f: A -> B, part: seq<A>, answers: seq<B>)
    requires RowWise(infer, f) && Given(infer, part, answers)
    ensures answers == MapRows(f, part)
  {
    var all: seq<A>, at: nat :| GivenAt(infer, part, answers, all, at);
    forall i: nat | i < |part| ensures answers[i] == f(part[i]) {
      assert all[at + i] == all[at..at + |part|][i];
    }
  }

  /** Batching slots together is invisible to each of them when answers do not depend on the batch. */
  lemma RowWiseIsTransparent<A(!new), B>(infer: (seq<A>, nat) -> B, f: A -> B, parts: seq<seq<A>>)
    requires RowWise(infer, f)
    ensures Answer(infer, parts) == MapParts(f, parts)
  {
    forall k: nat | k < |parts| ensures Answer(infer, parts)[k] == MapRows(f, parts[k]) {
      AnswerIsOwn(infer, parts, k);
      GivenRowWise(infer, f, parts[k], Answer(infer, parts)[k]);
    }
  }

  /** One slot as the handler reads it: its valid rows. */
  type View = seq<Row>

  /** The views with at least one row, in order. */
  function Valid(views: seq<View>): seq<View> {
    if views == [] then []
    else
      var last := views[|views| - 1];
      Valid(views[..|views| - 1]) + (if |last| == 0 then [] else [last])
  }

  lemma ConcatSnoc(views: seq<View>, v: View)
    ensures Concat(views + [v]) == Concat(views) + v
  {
    assert (views + [v])[..|views|] == views;
  }

  lemma ValidSnoc(views: seq<View>, v: View)
    ensures Valid(views + [v]) == Valid(views) + (if |v| == 0 then [] else [v])
  {
    assert (views + [v])[..|views|] == views;
  }

  /** The batch built from the views seen so far. */
  ghost predicate Gathered(seen: seq<View>, rows: seq<Row>, kept: seq<View>, sizes: seq<nat>) {
    rows == Concat(seen) == Concat(kept) && kept == Valid(seen) && sizes == Sizes(kept)
  }

  lemma ViewTaken(seen: seq<View>, rows: seq<Row>, kept: seq<View>, sizes: seq<nat>, v: View)
    requires Gathered(seen, rows, kept, sizes)
    ensures if |v| == 0 then Gathered(seen + [v], rows, kept, sizes)
            else Gathered(seen + [v], rows + v, kept + [v], sizes + [|v|])
  {
    ConcatSnoc(seen, v);
    ConcatSnoc(kept, v);
    ValidSnoc(seen, v);
    assert Sizes(kept + [v]) == Sizes(kept) + [|v|];
  }

  /** Concatenates the non-empty views; an empty one is marked done at once and takes no part. */
  method BuildBatch(views: seq<View>) returns (rows: seq<Row>, sizes: seq<nat>, kept: seq<View>, marked: set<nat>)
    ensures rows == Concat(views) == Concat(kept)
    ensures kept == Valid(views) && sizes == Sizes(kept)
    ensures forall k: nat :: k in marked <==> k < |views| && |views[k]| == 0
  {
    rows, sizes, kept, marked := [], [], [], {};
    ghost var seen: seq<View> := [];
    for i := 0 to |views|
      invariant seen == views[..i]
      invariant Gathered(seen, rows, kept, sizes)
      invariant forall k: nat :: k in marked <==> k < i && |views[k]| == 0
    {
      var v := views[i];
      ViewTaken(seen, rows, kept, sizes, v);
      seen := seen + [v];
      if |v| == 0 {
        marked := marked + {i};
      } else {
        sizes := sizes + [|v|];
        kept := kept + [v];
        rows := rows + v;
      }
    }
    assert seen == views;
  }

  /** The rows each kept slot is given back, as the write-back loop cuts them with a running index. */
  method CutAnswers<T>(results: seq<T>, sizes: seq<nat>) returns (answers: seq<seq<T>>)
    ensures answers == Split(results, sizes)
  {
    answers := [];
    var idx := 0;
    for k := 0 to |sizes|
      invariant idx == Start(sizes, k)
      invariant |answers| == k
      invariant forall j: nat :: j < k ==> answers[j] == Piece(results, sizes, j)
    {
      var cut := Slice(results, idx, idx + sizes[k]);
      assert cut == Piece(results, sizes, k);
      answers := answers + [cut];
      idx := idx + sizes[k];
    }
  }

  // ---- The board as the agent sees it --------------------------------------------------------

  /** One row of the agent's input, its board cut to `layers` layers and `cells` cells. */
  datatype AgentRow = AgentRow(h: nat, w: nat, numAncillas: nat, boards: seq<seq<seq<int>>>, mask: seq<nat>)

  function AgentCell(board: seq<int>, l: nat, c: nat): seq<int>
    requires |board| == BOARD_MAX && l < LOOKAHEAD_MAX && c < GRID_MAX
  {
    board[Offset(l, c, 0)..Offset(l, c, 0) + CELL_FIELDS]
  }

  function AgentLayer(board: seq<int>, l: nat, cells: nat): (s: seq<seq<int>>)
    requires |board| == BOARD_MAX && l < LOOKAHEAD_MAX
    ensures |s| == Min(cells, GRID_MAX)
  {
    seq(Min(cells, GRID_MAX), c requires 0 <= c < Min(cells, GRID_MAX) => AgentCell(board, l, c))
  }

  function AgentView(r: Row, layers: nat, cells: nat): AgentRow
    requires r.Sized() && layers <= LOOKAHEAD_MAX
  {
    AgentRow(r.h, r.w, r.numAncillas,
             seq(layers, l requires 0 <= l < layers => AgentLayer(r.board, l, cells)), r.mask)
  }

  predicate AllSized(rows: seq<Row>) {
    forall i :: 0 <= i < |rows| ==> rows[i].Sized()
  }

  /** The batch's largest grid area, at least one. */
  function MaxArea(rows: seq<Row>): nat {
    if rows == [] then 1
    else
      var rest := MaxArea(rows[..|rows| - 1]);
      var area := rows[|rows| - 1].h * rows[|rows| - 1].w;
      if rest < area then area else rest
  }

  lemma {:induction false} MaxAreaBounds(rows: seq<Row>, i: nat)
    requires i < |rows|
    ensures rows[i].h * rows[i].w <= MaxArea(rows)
  {
    if i < |rows| - 1 {
      MaxAreaBounds(rows[..|rows| - 1], i);
    }
  }

  predicate SameLayer(x: AgentRow, y: AgentRow, l: nat)
    requires l < |x.boards| && l < |y.boards|
  {
    var own := GridCells(x.h, x.w);
    Slice(x.boards[l], 0, own) == Slice(y.boards[l], 0, own)
  }

  /** Two inputs that differ only in cells past the row's own grid. */
  predicate SameGrid(x: AgentRow, y: AgentRow) {
    && x.h == y.h && x.w == y.w && x.numAncillas == y.numAncillas && x.mask == y.mask
    && |x.boards| == |y.boards|
    && forall l: nat :: l < |x.boards| ==> SameLayer(x, y, l)
  }

  /** An agent that answers a row from that row's own grid. */
  ghost predicate PadBlind<R(!new)>(agent: AgentRow -> R) {
    forall x, y :: SameGrid(x, y) ==> agent(x) == agent(y)
  }

  lemma CutKeepsGrid(r: Row, layers: nat, m: nat, n: nat)
    requires r.Sized() && layers <= LOOKAHEAD_MAX && r.h * r.w <= m && r.h * r.w <= n
    ensures SameGrid(AgentView(r, layers, m), AgentView(r, layers, n))
  {
    var x, y := AgentView(r, layers, m), AgentView(r, layers, n);
    var own := GridCells(r.h, r.w);
    forall l: nat | l < layers ensures SameLayer(x, y, l) {
      assert own <= |x.boards[l]| && own <= |y.boards[l]|;
      assert Slice(x.boards[l], 0, own) == Slice(y.boards[l], 0, own);
    }
  }

  /** Sharing a batch with larger grids does not change a row's answer. */
  lemma BatchingIsTransparent<R(!new)>(agent: AgentRow -> R, layers: nat, rows: seq<Row>, i: nat)
    requires PadBlind(agent) && layers <= LOOKAHEAD_MAX && AllSized(rows) && i < |rows|
    ensures agent(AgentView(rows[i], layers, MaxArea(rows))) == agent(AgentView(rows[i], layers, MaxArea([rows[i]])))
  {
    MaxAreaBounds(rows, i);
    MaxAreaBounds([rows[i]], 0);
    CutKeepsGrid(rows[i], layers, MaxArea(rows), MaxArea([rows[i]]));
  }

  /** The largest grid of a batch is one of its grids, or one cell when they are all empty. */
  lemma {:induction false} MaxAreaAttained(rows: seq<Row>)
    ensures MaxArea(rows) >= 1
    ensures MaxArea(rows) == 1 || exists i :: 0 <= i < |rows| && rows[i].h * rows[i].w == MaxArea(rows)
  {
    if rows != [] {
      var before, last := rows[..|rows| - 1], rows[|rows| - 1];
      MaxAreaAttained(before);
      if MaxArea(rows) == last.h * last.w {
        assert rows[|rows| - 1] == last;
      } else if MaxArea(before) != 1 {
        var i :| 0 <= i < |before| && before[i].h * before[i].w == MaxArea(before);
        assert rows[i] == before[i];
      }
    }
  }

  // ---- What the agent sees of an observation -------------------------------------------------

  /** The ten channels of a cell, by position. */
  predicate CellAs(seen: seq<int>, c: Cell) {
    && |seen| == 10
    && seen[0] == c.qubitRole && seen[1] == c.factorKind && seen[2] == c.resourceKind && seen[3] == c.ppGroupRow
    && seen[4] == c.ppGroupCol && seen[5] == c.ancillaIdx && seen[6] == c.lastMoveDir && seen[7] == c.weightInPp
    && seen[8] == c.isHubForPp && seen[9] == c.isYReady
  }

  /** The client's own cell, or zeros where the client sent none. */
  predicate SeesCell(seen: seq<int>, o: Observation, l: nat, c: nat) {
    if l < |o.board| && c < |o.board[l]| then CellAs(seen, o.board[l][c]) else seen == [0, 0, 0, 0, 0, 0, 0, 0, 0, 0]
  }

  predicate SeesLayer(v: AgentRow, o: Observation, cells: nat, l: nat) {
    l < |v.boards| ==>
      && |v.boards[l]| == (if cells < 400 then cells else 400)
      && forall c: nat :: c < |v.boards[l]| ==> SeesCell(v.boards[l][c], o, l, c)
  }

  predicate SeesAction(v: AgentRow, o: Observation, a: nat) {
    a < |v.mask| ==> v.mask[a] == if a < |o.actionMask| && o.actionMask[a] then 1 else 0
  }

  /** The whole input that the agent gets for an observation: its sizes as bytes, its own cells in `layers` layers of `cells`
      cells each, and its own mask. */
  ghost predicate Sees(v: AgentRow, o: Observation, layers: nat, cells: nat) {
    && v.h == o.height % 256 && v.w == o.width % 256 && v.numAncillas == o.numAncillas % 256
    && |v.boards| == layers && (forall l: nat :: SeesLayer(v, o, cells, l))
    && |v.mask| == 301 && (forall a: nat :: SeesAction(v, o, a))
  }

  lemma AgentSeesChannel(o: Observation, l: nat, c: nat, f: nat)
    requires l < LOOKAHEAD_MAX && c < GRID_MAX && f < CELL_FIELDS
    ensures AgentCell(PackRow(o).board, l, c)[f] ==
            if l < |o.board| && c < |o.board[l]| then CellToArray(o.board[l][c])[f] else 0
  {
    Offsets(l, c, f);
    assert AgentCell(PackRow(o).board, l, c)[f] == PackedAt(o.board, Offset(l, c, f));
  }

  lemma CellSeen(seen: seq<int>, o: Observation, l: nat, c: nat)
    requires |seen| == CELL_FIELDS
    requires forall f: nat :: f < CELL_FIELDS ==>
      seen[f] == if l < |o.board| && c < |o.board[l]| then CellToArray(o.board[l][c])[f] else 0
    ensures SeesCell(seen, o, l, c)
  {
    if l < |o.board| && c < |o.board[l]| {
      assert seen == CellToArray(o.board[l][c]);
    } else {
      assert seen == [0, 0, 0, 0, 0, 0, 0, 0, 0, 0];
    }
  }

  lemma AgentSeesCell(o: Observation, l: nat, c: nat)
    requires l < LOOKAHEAD_MAX && c < GRID_MAX
    ensures SeesCell(AgentCell(PackRow(o).board, l, c), o, l, c)
  {
    var seen := AgentCell(PackRow(o).board, l, c);
    forall f: nat | f < CELL_FIELDS
      ensures seen[f] == if l < |o.board| && c < |o.board[l]| then CellToArray(o.board[l][c])[f] else 0
    {
      AgentSeesChannel(o, l, c, f);
    }
    CellSeen(seen, o, l, c);
  }

  /** The agent sees the client's observation and nothing else, whatever the cut. */
  lemma AgentSeesObservation(o: Observation, layers: nat, cells: nat)
    requires layers <= LOOKAHEAD_MAX
    ensures Sees(AgentView(PackRow(o), layers, cells), o, layers, cells)
  {
    var v := AgentView(PackRow(o), layers, cells);
    forall l: nat ensures SeesLayer(v, o, cells, l) {
      if l < layers {
        forall c: nat | c < |v.boards[l]| ensures SeesCell(v.boards[l][c], o, l, c) {
          AgentSeesCell(o, l, c);
        }
      }
    }
    forall a: nat ensures SeesAction(v, o, a) {
    }
  }
}
