/** The playfield: a 24 x 10 grid of cells (20 drawn rows plus a hidden
    buffer), the legality test for a piece, stamping a locked piece, and the
    one-pass row compaction that removes full rows. */
module Playfield {
  import opened Pieces

  const Rows := 24     // rows of the board array; only the lowest 20 are drawn
  const Cols := 10
  const Buffer := 4    // rows Rows .. Rows + 3 exist only as headroom
  const Blk := 7       // the value of an empty cell

  /** The board as rows of cells, row 0 at the bottom. */
  type Grid = seq<seq<int>>

  predicate WellFormed(g: Grid)
  {
    |g| == Rows && forall k :: 0 <= k < |g| ==> |g[k]| == Cols
  }

  function EmptyRow(): seq<int> { seq(Cols, _ => Blk) }

  function EmptyBoard(): Grid { seq(Rows, _ => EmptyRow()) }

  /** The absolute cells of kind `t` in rotation state `r` anchored at (x, y). */
  function Placed(t: int, r: nat, x: int, y: int): (cs: seq<Cell>)
    requires IsKind(t)
    ensures |cs| == 4
  {
    var rel := Rotated(t, r);
    [Cell(rel[0].x + x, rel[0].y + y), Cell(rel[1].x + x, rel[1].y + y),
     Cell(rel[2].x + x, rel[2].y + y), Cell(rel[3].x + x, rel[3].y + y)]
  }

  /** One cell passes the legality test when it is inside the columns,
      inside rows [0, Rows + Buffer), and, if it is a board row, on an empty
      cell; the buffer rows always pass. */
  predicate CellFree(g: Grid, c: Cell)
    requires WellFormed(g)
  {
    0 <= c.x < Cols && 0 <= c.y < Rows + Buffer && (c.y < Rows ==> g[c.y][c.x] == Blk)
  }

  /** The legality test: every cell of the piece passes. */
  predicate Fits(g: Grid, cs: seq<Cell>)
    requires WellFormed(g)
  {
    forall k :: 0 <= k < |cs| ==> CellFree(g, cs[k])
  }

  /** A piece that fits has its anchor at most two rows below the floor. */
  lemma FitsLowerBound(g: Grid, t: int, r: nat, x: int, y: int)
    requires WellFormed(g) && IsKind(t) && Fits(g, Placed(t, r, x, y))
    ensures y >= -2
  {
    RotatedBox(t, r);
    assert CellFree(g, Placed(t, r, x, y)[0]);
  }

  /** On an empty board every kind fits in spawn orientation at column 4,
      at any height whose two rows lie inside the grid and its buffer. */
  lemma SpawnFitsEmpty(t: int, y: int)
    requires IsKind(t) && 0 <= y <= Rows + Buffer - 2
    ensures Fits(EmptyBoard(), Placed(t, 0, 4, y))
  {
    var cs := Placed(t, 0, 4, y);
    forall k | 0 <= k < 4 ensures CellFree(EmptyBoard(), cs[k]) {
      assert cs[k] == Cell(Spawn(t)[k].x + 4, Spawn(t)[k].y + y);
    }
  }

  // ---------------------------------------------------------------------
  // Stamping a locked piece

  /** Writes `v` at cell `c`; cells outside the board are dropped. */
  function StampCell(g: Grid, c: Cell, v: int): (h: Grid)
    requires WellFormed(g)
    ensures WellFormed(h)
  {
    if 0 <= c.x < Cols && 0 <= c.y < Rows then g[c.y := g[c.y][c.x := v]] else g
  }

  /** Writes `v` at each cell of `cs`, in order. */
  function StampCells(g: Grid, cs: seq<Cell>, v: int): (h: Grid)
    requires WellFormed(g)
    ensures WellFormed(h)
    decreases |cs|
  {
    if cs == [] then g else StampCell(StampCells(g, cs[..|cs| - 1], v), cs[|cs| - 1], v)
  }

  function RowsOf(cs: seq<Cell>): set<int> { set c | c in cs :: c.y }

  lemma {:induction false} RowsOfSize(cs: seq<Cell>)
    ensures |RowsOf(cs)| <= |cs|
  {
    if cs != [] {
      var init := cs[..|cs| - 1];
      RowsOfSize(init);
      assert cs == init + [cs[|cs| - 1]];
      assert RowsOf(cs) == RowsOf(init) + {cs[|cs| - 1].y};
    }
  }

  /** Stamping changes only rows that hold one of the stamped cells. */
  lemma {:induction false} StampKeepsOtherRows(g: Grid, cs: seq<Cell>, v: int, k: int)
    requires WellFormed(g) && 0 <= k < Rows && k !in RowsOf(cs)
    ensures StampCells(g, cs, v)[k] == g[k]
    decreases |cs|
  {
    if cs != [] {
      var init := cs[..|cs| - 1];
      assert RowsOf(init) <= RowsOf(cs);
      assert cs[|cs| - 1] in cs;
      StampKeepsOtherRows(g, init, v, k);
    }
  }

  /** After stamping, every cell of `cs` that lies on the board holds `v`. */
  lemma {:induction false} StampWrites(g: Grid, cs: seq<Cell>, v: int, k: int)
    requires WellFormed(g) && 0 <= k < |cs| && 0 <= cs[k].x < Cols && 0 <= cs[k].y < Rows
    ensures StampCells(g, cs, v)[cs[k].y][cs[k].x] == v
    decreases |cs|
  {
    var init := cs[..|cs| - 1];
    if k < |cs| - 1 {
      assert init[k] == cs[k];
      StampWrites(g, init, v, k);
    }
  }

  /** Stamping leaves every cell that is not one of the stamped cells as it
      was. */
  lemma {:induction false} StampKeepsOtherCells(g: Grid, cs: seq<Cell>, v: int, i: int, j: int)
    requires WellFormed(g) && 0 <= i < Rows && 0 <= j < Cols && Cell(j, i) !in cs
    ensures StampCells(g, cs, v)[i][j] == g[i][j]
    decreases |cs|
  {
    if cs != [] {
      var init := cs[..|cs| - 1];
      assert cs == init + [cs[|cs| - 1]];
      StampKeepsOtherCells(g, init, v, i, j);
    }
  }

  /** Once a piece with a cell on the board is stamped with a kind, that
      piece no longer passes the legality test where it was stamped. */
  lemma StampBlocks(g: Grid, cs: seq<Cell>, v: int, k: int)
    requires WellFormed(g) && v != Blk && 0 <= k < |cs| && 0 <= cs[k].x < Cols && 0 <= cs[k].y < Rows
    ensures !Fits(StampCells(g, cs, v), cs)
  {
    StampWrites(g, cs, v, k);
    assert !CellFree(StampCells(g, cs, v), cs[k]);
  }

  // ---------------------------------------------------------------------
  // Full rows and compaction

  /** A row is full when none of its cells is empty. */
  predicate Full(row: seq<int>)
  {
    forall c :: 0 <= c < |row| ==> row[c] != Blk
  }

  predicate NoFullRow(g: Grid)
  {
    forall k :: 0 <= k < |g| ==> !Full(g[k])
  }

  /** The number of full rows. */
  function FullCount(g: Grid): nat
  {
    if g == [] then 0 else FullCount(g[..|g| - 1]) + (if Full(g[|g| - 1]) then 1 else 0)
  }

  /** The rows that are not full, bottom to top. */
  function Kept(g: Grid): Grid
  {
    if g == [] then [] else Kept(g[..|g| - 1]) + (if Full(g[|g| - 1]) then [] else [g[|g| - 1]])
  }

  function FullRows(g: Grid): set<int>
  {
    set k | 0 <= k < |g| && Full(g[k])
  }

  /** The board as the compaction loop leaves it after examining rows
      0 .. y - 1: the kept rows of that prefix packed at the bottom, the rest
      of the prefix blanked if full and untouched otherwise, and the rows
      from y up not yet visited. */
  function Compacting(g: Grid, y: int): Grid
    requires 0 <= y <= |g|
  {
    var kept := Kept(g[..y]);
    seq(|g|, k requires 0 <= k < |g| =>
      if k < |kept| then kept[k] else if k < y && Full(g[k]) then EmptyRow() else g[k])
  }

  /** The board after the whole compaction loop: the non-full rows packed at
      the bottom in their order; above them, a row that was full is blank and
      a row that was not full keeps its old cells. */
  function Compacted(g: Grid): Grid
  {
    var kept := Kept(g);
    seq(|g|, k requires 0 <= k < |g| =>
      if k < |kept| then kept[k] else if Full(g[k]) then EmptyRow() else g[k])
  }

  lemma CompactingDone(g: Grid)
    ensures Compacting(g, |g|) == Compacted(g)
  {
    assert g[..|g|] == g;
  }

  lemma {:induction false} KeptLength(g: Grid)
    ensures |Kept(g)| + FullCount(g) == |g|
  {
    if g != [] { KeptLength(g[..|g| - 1]); }
  }

  lemma {:induction false} KeptNotFull(g: Grid)
    ensures forall k :: 0 <= k < |Kept(g)| ==> !Full(Kept(g)[k]) && Kept(g)[k] in g
  {
    if g != [] {
      var init := g[..|g| - 1];
      KeptNotFull(init);
      forall k | 0 <= k < |Kept(init)| ensures Kept(init)[k] in g {
        assert Kept(init)[k] in init;
      }
    }
  }

  /** The kept rows of a prefix are a prefix of the kept rows. */
  lemma {:induction false} KeptPrefix(g: Grid, j: int)
    requires 0 <= j <= |g|
    ensures Kept(g[..j]) <= Kept(g)
    decreases |g|
  {
    if j < |g| {
      var init := g[..|g| - 1];
      assert init[..j] == g[..j];
      KeptPrefix(init, j);
    } else {
      assert g[..j] == g;
    }
  }

  lemma KeptStep(g: Grid, y: int)
    requires 0 <= y < |g|
    ensures Kept(g[..y + 1]) == Kept(g[..y]) + (if Full(g[y]) then [] else [g[y]])
    ensures FullCount(g[..y + 1]) == FullCount(g[..y]) + (if Full(g[y]) then 1 else 0)
  {
    assert g[..y + 1][..y] == g[..y];
  }

  /** A row that is not full lands exactly as many rows lower as there are
      full rows beneath it. */
  lemma KeptShift(g: Grid, k: int)
    requires 0 <= k < |g| && !Full(g[k])
    ensures 0 <= k - FullCount(g[..k]) < |Kept(g)|
    ensures Kept(g)[k - FullCount(g[..k])] == g[k]
  {
    KeptStep(g, k);
    KeptLength(g[..k]);
    KeptPrefix(g, k + 1);
  }

  /** The board row that the compaction loop has written once it has
      examined rows 0 .. y: either row y blanked in place, or row y copied to
      the first row above the kept rows of the prefix. */
  lemma CompactingStep(g: Grid, y: int)
    requires WellFormed(g) && 0 <= y < |g|
    ensures Compacting(g, y)[y] == g[y]
    ensures var dst := if Full(g[y]) then y else y - FullCount(g[..y]);
      0 <= dst <= y &&
      Compacting(g, y + 1) == Compacting(g, y)[dst := if Full(g[y]) then EmptyRow() else g[y]]
  {
    KeptStep(g, y);
    KeptLength(g[..y]);
    var dst := if Full(g[y]) then y else y - FullCount(g[..y]);
    var a := Compacting(g, y);
    var b := Compacting(g, y + 1);
    var row := if Full(g[y]) then EmptyRow() else g[y];
    forall k | 0 <= k < |g| ensures b[k] == a[dst := row][k] {
    }
  }

  /** Every row below the kept ones holds a row that was not full, in its
      original order; nothing full survives. */
  lemma CompactedShift(g: Grid, k: int)
    requires 0 <= k < |g| && !Full(g[k])
    ensures 0 <= k - FullCount(g[..k]) && Compacted(g)[k - FullCount(g[..k])] == g[k]
  {
    KeptShift(g, k);
  }

  /** Rows that are not full keep their relative order. */
  lemma CompactedOrder(g: Grid, k1: int, k2: int)
    requires 0 <= k1 < k2 < |g| && !Full(g[k1]) && !Full(g[k2])
    ensures k1 - FullCount(g[..k1]) < k2 - FullCount(g[..k2])
  {
    KeptLength(g[..k1]);
    KeptLength(g[..k2]);
    KeptStep(g, k1);
    var h := g[..k2];
    assert h[..k1 + 1] == g[..k1 + 1];
    KeptPrefix(h, k1 + 1);
  }

  /** Above the packed rows, with `FullCount(g)` rows cleared, a row is blank
      if it was full and keeps its old cells if it was not. */
  lemma CompactedTop(g: Grid, k: int)
    requires 0 <= k < |g| && |g| - FullCount(g) <= k
    ensures Compacted(g)[k] == if Full(g[k]) then EmptyRow() else g[k]
  {
    KeptLength(g);
  }

  /** Compaction leaves a well-formed board with no full row. */
  lemma CompactedClean(g: Grid)
    requires WellFormed(g)
    ensures WellFormed(Compacted(g)) && NoFullRow(Compacted(g))
  {
    KeptNotFull(g);
    KeptLength(g);
    var h := Compacted(g);
    forall k | 0 <= k < |h| ensures |h[k]| == Cols && !Full(h[k]) {
      if k < |Kept(g)| {
        assert Kept(g)[k] in g;
      } else if Full(g[k]) {
        assert EmptyRow()[0] == Blk;
      }
    }
  }

  lemma {:induction false} FullCountIsCard(g: Grid)
    ensures FullCount(g) == |FullRows(g)|
  {
    if g != [] {
      var n := |g| - 1;
      var init := g[..n];
      FullCountIsCard(init);
      assert FullRows(init) == set k | 0 <= k < n && Full(g[k]);
      assert n !in FullRows(init);
      assert FullRows(g) == FullRows(init) + (if Full(g[n]) then {n} else {});
    }
  }

  /** Stamping cells onto a board with no full row fills at most as many rows
      as there are cells: a lock clears at most four rows. */
  lemma ClearedAtMost(g: Grid, cs: seq<Cell>, v: int)
    requires WellFormed(g) && NoFullRow(g)
    ensures FullCount(StampCells(g, cs, v)) <= |cs|
  {
    var h := StampCells(g, cs, v);
    assert FullRows(h) <= RowsOf(cs) by {
      forall k | k in FullRows(h) ensures k in RowsOf(cs) {
        if k !in RowsOf(cs) {
          StampKeepsOtherRows(g, cs, v, k);
        }
      }
    }
    FullCountIsCard(h);
    RowsOfSize(cs);
    assert |FullRows(h)| <= |RowsOf(cs)| by {
      SubsetCard(FullRows(h), RowsOf(cs));
    }
  }

  lemma SubsetCard(a: set<int>, b: set<int>)
    requires a <= b
    ensures |a| <= |b|
  {
    assert b == a + (b - a);
  }

  // ---------------------------------------------------------------------
  // Locking a piece

  /** An empty board is well formed and has no full row. */
  lemma EmptyBoardClean()
    ensures WellFormed(EmptyBoard()) && NoFullRow(EmptyBoard())
  {
    var e := EmptyBoard();
    forall k | 0 <= k < Rows ensures !Full(e[k]) {
      assert e[k][0] == Blk;
    }
  }

  /** The board after a piece of kind `v` locks on cells `cs`: stamped, then
      compacted; it is well formed again and holds no full row. */
  function Settle(g: Grid, cs: seq<Cell>, v: int): (h: Grid)
    requires WellFormed(g)
    ensures WellFormed(h) && NoFullRow(h)
  {
    CompactedClean(StampCells(g, cs, v));
    Compacted(StampCells(g, cs, v))
  }

  /** The number of rows a lock clears; on a board with no full row it is at
      most the number of cells locked. */
  function Cleared(g: Grid, cs: seq<Cell>, v: int): (n: nat)
    requires WellFormed(g) && NoFullRow(g)
    ensures n <= |cs|
  {
    ClearedAtMost(g, cs, v);
    FullCount(StampCells(g, cs, v))
  }
}
