/** Piece geometry: the seven tetromino kinds, the template slots they occupy
    when spawned, and the quarter-turn about each kind's pivot.

    Coordinates have y growing upwards (row 0 is the floor of the board).
    The I and O pivots are half-integers; they are stored doubled so that all
    arithmetic stays in `int`. */
module Pieces {

  /** A cell offset relative to a piece's anchor, or an absolute board cell. */
  datatype Cell = Cell(x: int, y: int)

  /** Kinds are indices into "IOJLSZT". */
  const NumKinds := 7
  const LongKind := 0    // I
  const SquareKind := 1  // O

  predicate IsKind(t: int) { 0 <= t < NumKinds }

  /** The seven template slots, numbered
          0 1 2
        3 4 5 6
      with slot 4 at the anchor. */
  const Slots: seq<Cell> :=
    [Cell(-1, 1), Cell(0, 1), Cell(1, 1),
     Cell(-1, 0), Cell(0, 0), Cell(1, 0), Cell(2, 0)]

  /** The four slots of each kind in spawn orientation. */
  const Shapes: seq<seq<int>> :=
    [[3, 4, 5, 6], [1, 2, 4, 5], [0, 3, 4, 5],
     [2, 3, 4, 5], [1, 2, 3, 4], [0, 1, 4, 5], [1, 3, 4, 5]]

  /** Twice each kind's pivot: I turns about (0.5, -0.5), O about (0.5, 0.5),
      the others about the anchor. */
  const Centers2: seq<Cell> :=
    [Cell(1, -1), Cell(1, 1),
     Cell(0, 0), Cell(0, 0), Cell(0, 0), Cell(0, 0), Cell(0, 0)]

  /** The cells of kind `t` in rotation state 0. */
  function Spawn(t: int): (cs: seq<Cell>)
    requires IsKind(t)
    ensures |cs| == 4
    ensures forall k :: 0 <= k < 4 ==> -1 <= cs[k].x <= 2 && 0 <= cs[k].y <= 1
  {
    var sh := Shapes[t];
    [Slots[sh[0]], Slots[sh[1]], Slots[sh[2]], Slots[sh[3]]]
  }

  /** One clockwise quarter-turn about the pivot:
      (x, y) becomes (y - oy + ox, -x + ox + oy). */
  function Turn(t: int, c: Cell): (u: Cell)
    requires IsKind(t)
    ensures var o := Centers2[t];
      2 * u.x - o.x == 2 * c.y - o.y && 2 * u.y - o.y == -(2 * c.x - o.x)
  {
    var o := Centers2[t];
    Cell(c.y + (o.x - o.y) / 2, (o.x + o.y) / 2 - c.x)
  }

  /** Turns each of a piece's four cells. */
  function TurnAll(t: int, cs: seq<Cell>): (ts: seq<Cell>)
    requires IsKind(t) && |cs| == 4
    ensures |ts| == 4
  {
    [Turn(t, cs[0]), Turn(t, cs[1]), Turn(t, cs[2]), Turn(t, cs[3])]
  }

  /** The cells of kind `t` after `r` quarter-turns from the spawn orientation. */
  function Rotated(t: int, r: nat): (cs: seq<Cell>)
    requires IsKind(t)
    ensures |cs| == 4
  {
    if r == 0 then Spawn(t) else TurnAll(t, Rotated(t, r - 1))
  }

  /** The rotation as main.js computes it: start from the spawn cells and
      turn all four cells in place, `r` times over. */
  method RotatedPiece(t: int, r: nat) returns (out: seq<Cell>)
    requires IsKind(t)
    ensures out == Rotated(t, r)
  {
    out := Spawn(t);
    var i := 0;
    while i < r
      invariant 0 <= i <= r && out == Rotated(t, i)
    {
      ghost var prev := out;
      var j := 0;
      while j < 4
        invariant 0 <= j <= 4 && |out| == 4
        invariant forall q :: 0 <= q < j ==> out[q] == Turn(t, prev[q])
        invariant forall q :: j <= q < 4 ==> out[q] == prev[q]
      {
        out := out[j := Turn(t, out[j])];
        j := j + 1;
      }
      assert out == TurnAll(t, prev);
      i := i + 1;
    }
  }

  function CellSet(cs: seq<Cell>): set<Cell> { set c | c in cs }

  /** Distance from the pivot in doubled coordinates, in the maximum norm;
      a quarter-turn preserves it. */
  function Reach(t: int, c: Cell): int
    requires IsKind(t)
  {
    var u := 2 * c.x - Centers2[t].x;
    var v := 2 * c.y - Centers2[t].y;
    var au := if u < 0 then -u else u;
    var av := if v < 0 then -v else v;
    if au < av then av else au
  }

  lemma TurnFourTimes(t: int, c: Cell)
    requires IsKind(t)
    ensures Turn(t, Turn(t, Turn(t, Turn(t, c)))) == c
  {
  }

  lemma TurnAllFourTimes(t: int, cs: seq<Cell>)
    requires IsKind(t) && |cs| == 4
    ensures TurnAll(t, TurnAll(t, TurnAll(t, TurnAll(t, cs)))) == cs
  {
    var q := TurnAll(t, TurnAll(t, TurnAll(t, TurnAll(t, cs))));
    TurnFourTimes(t, cs[0]);
    TurnFourTimes(t, cs[1]);
    TurnFourTimes(t, cs[2]);
    TurnFourTimes(t, cs[3]);
  }

  /** Four quarter-turns give back the cells one started from. */
  lemma {:induction false} RotatedPeriodic(t: int, r: nat)
    requires IsKind(t)
    ensures Rotated(t, r + 4) == Rotated(t, r)
  {
    if r == 0 {
      TurnAllFourTimes(t, Spawn(t));
    } else {
      RotatedPeriodic(t, r - 1);
    }
  }

  lemma TurnKeepsReach(t: int, c: Cell)
    requires IsKind(t)
    ensures Reach(t, Turn(t, c)) == Reach(t, c)
  {
  }

  lemma {:induction false} RotatedReach(t: int, r: nat)
    requires IsKind(t)
    ensures forall k :: 0 <= k < 4 ==> Reach(t, Rotated(t, r)[k]) <= 3
  {
    if r > 0 {
      RotatedReach(t, r - 1);
      forall k | 0 <= k < 4 ensures Reach(t, Rotated(t, r)[k]) <= 3 {
        TurnKeepsReach(t, Rotated(t, r - 1)[k]);
      }
    }
  }

  /** In every rotation state all four cells lie within x in [-1, 2] and
      y in [-2, 2] of the anchor. */
  lemma RotatedBox(t: int, r: nat)
    requires IsKind(t)
    ensures forall k :: 0 <= k < 4 ==>
      -1 <= Rotated(t, r)[k].x <= 2 && -2 <= Rotated(t, r)[k].y <= 2
  {
    RotatedReach(t, r);
  }

  /** The O piece's four cells. */
  function SquareCells(): set<Cell> { {Cell(0, 1), Cell(1, 1), Cell(0, 0), Cell(1, 0)} }

  /** A quarter-turn of four cells that cover the O piece's cells covers
      them again. */
  lemma SquareTurnAll(cs: seq<Cell>)
    requires |cs| == 4 && CellSet(cs) == SquareCells()
    ensures CellSet(TurnAll(SquareKind, cs)) == SquareCells()
  {
    var ts := TurnAll(SquareKind, cs);
    forall c | c in ts ensures c in SquareCells() {
      var j :| 0 <= j < 4 && ts[j] == c;
      assert cs[j] in CellSet(cs);
    }
    forall c | c in SquareCells() ensures c in ts {
      var pre := Cell(1 - c.y, c.x);
      assert Turn(SquareKind, pre) == c;
      assert pre in CellSet(cs);
      var j :| 0 <= j < 4 && cs[j] == pre;
      assert ts[j] == c;
    }
  }

  /** The O piece occupies the same four cells in every rotation state. */
  lemma {:induction false} SquareSymmetric(r: nat)
    ensures CellSet(Rotated(SquareKind, r)) == CellSet(Spawn(SquareKind))
  {
    assert Spawn(SquareKind) == [Cell(0, 1), Cell(1, 1), Cell(0, 0), Cell(1, 0)];
    assert CellSet(Spawn(SquareKind)) == SquareCells();
    if r > 0 {
      SquareSymmetric(r - 1);
      SquareTurnAll(Rotated(SquareKind, r - 1));
    }
  }
}
