/** Wall kicks of the Super Rotation System: the ordered offsets tried when a
    piece turns from one rotation state to an adjacent one. */
module Kicks {
  import opened Pieces

  predicate IsRotation(r: int) { 0 <= r < 4 }

  /** r1 and r2 are one quarter-turn apart, in either direction. */
  predicate Adjacent(r1: int, r2: int)
  {
    IsRotation(r1) && IsRotation(r2) && (r2 == (r1 + 1) % 4 || r1 == (r2 + 1) % 4)
  }

  /** The closed-form kick list: one formula for J, L, S, Z, T and O, another
      for I. On rotation states, `r % 2 == 1` is `r == 1 || r == 3` and the
      bit `r & 2` is set exactly when `r >= 2` (lemma RotationBits); the
      comparisons are written in that form. */
  function Kick(r1: int, r2: int, t: int): (ks: seq<Cell>)
    requires IsRotation(r1) && IsRotation(r2) && IsKind(t)
    ensures |ks| == 5 && ks[0] == Cell(0, 0)
    ensures forall k :: 0 <= k < 5 ==> -2 <= ks[k].x <= 2 && -2 <= ks[k].y <= 2
  {
    var a := if r1 == 1 || r2 == 3 then 1 else -1;
    if t != LongKind then
      var b := if r1 == 1 || r1 == 3 then 1 else -1;
      [Cell(0, 0), Cell(a, 0), Cell(a, -b), Cell(0, 2 * b), Cell(a, 2 * b)]
    else
      var c := if (r1 >= 2) == (r2 >= 2) then 1 else 2;
      var d := if r1 == 0 || r2 == 2 then 1 else -1;
      var e := 3 - c;
      var f := -e * d;
      var g := c * d;
      [Cell(0, 0), Cell(f, 0), Cell(g, 0), Cell(f, c * a), Cell(g, -e * a)]
  }

  /** The tests main.js writes with `%` and `&` are the comparisons `Kick`
      uses: on rotation states, `r1 % 2 == 1` holds exactly for 1 and 3,
      bit `r1 & 2` is set exactly from 2 on, and so `(r1 & 2) == (r2 & 2)`
      holds exactly when r1 and r2 lie on the same side of 2. */
  lemma RotationBits(r1: int, r2: int)
    requires IsRotation(r1) && IsRotation(r2)
    ensures (r1 % 2 == 1) <==> (r1 == 1 || r1 == 3)
    ensures ((r1 as bv8) & 2 == 2) <==> r1 >= 2
    ensures ((r1 as bv8) & 2 == (r2 as bv8) & 2) <==> ((r1 >= 2) == (r2 >= 2))
  {
  }

  /** The published SRS tables, written out row by row (states 0, R, 2, L
      are 0, 1, 2, 3). */
  function SrsTable(long: bool, r1: int, r2: int): seq<Cell>
    requires Adjacent(r1, r2)
  {
    if !long then
      if r1 == 0 && r2 == 1 then [Cell(0, 0), Cell(-1, 0), Cell(-1, 1), Cell(0, -2), Cell(-1, -2)]
      else if r1 == 1 && r2 == 0 then [Cell(0, 0), Cell(1, 0), Cell(1, -1), Cell(0, 2), Cell(1, 2)]
      else if r1 == 1 && r2 == 2 then [Cell(0, 0), Cell(1, 0), Cell(1, -1), Cell(0, 2), Cell(1, 2)]
      else if r1 == 2 && r2 == 1 then [Cell(0, 0), Cell(-1, 0), Cell(-1, 1), Cell(0, -2), Cell(-1, -2)]
      else if r1 == 2 && r2 == 3 then [Cell(0, 0), Cell(1, 0), Cell(1, 1), Cell(0, -2), Cell(1, -2)]
      else if r1 == 3 && r2 == 2 then [Cell(0, 0), Cell(-1, 0), Cell(-1, -1), Cell(0, 2), Cell(-1, 2)]
      else if r1 == 3 && r2 == 0 then [Cell(0, 0), Cell(-1, 0), Cell(-1, -1), Cell(0, 2), Cell(-1, 2)]
      else [Cell(0, 0), Cell(1, 0), Cell(1, 1), Cell(0, -2), Cell(1, -2)]
    else
      if r1 == 0 && r2 == 1 then [Cell(0, 0), Cell(-2, 0), Cell(1, 0), Cell(-2, -1), Cell(1, 2)]
      else if r1 == 1 && r2 == 0 then [Cell(0, 0), Cell(2, 0), Cell(-1, 0), Cell(2, 1), Cell(-1, -2)]
      else if r1 == 1 && r2 == 2 then [Cell(0, 0), Cell(-1, 0), Cell(2, 0), Cell(-1, 2), Cell(2, -1)]
      else if r1 == 2 && r2 == 1 then [Cell(0, 0), Cell(1, 0), Cell(-2, 0), Cell(1, -2), Cell(-2, 1)]
      else if r1 == 2 && r2 == 3 then [Cell(0, 0), Cell(2, 0), Cell(-1, 0), Cell(2, 1), Cell(-1, -2)]
      else if r1 == 3 && r2 == 2 then [Cell(0, 0), Cell(-2, 0), Cell(1, 0), Cell(-2, -1), Cell(1, 2)]
      else if r1 == 3 && r2 == 0 then [Cell(0, 0), Cell(1, 0), Cell(-2, 0), Cell(1, -2), Cell(-2, 1)]
      else [Cell(0, 0), Cell(-1, 0), Cell(2, 0), Cell(-1, 2), Cell(2, -1)]
  }

  function Negated(ks: seq<Cell>): seq<Cell>
  {
    seq(|ks|, k requires 0 <= k < |ks| => Cell(-ks[k].x, -ks[k].y))
  }

  /** For every adjacent transition the formula yields exactly the SRS row
      (the I table for kind 0, the common table for the others). */
  lemma KickIsSrs(r1: int, r2: int, t: int)
    requires Adjacent(r1, r2) && IsKind(t)
    ensures Kick(r1, r2, t) == SrsTable(t == LongKind, r1, r2)
  {
    if t == LongKind {
      if r1 == 0 && r2 == 1 {} else if r1 == 1 && r2 == 0 {} else if r1 == 1 && r2 == 2 {}
      else if r1 == 2 && r2 == 1 {} else if r1 == 2 && r2 == 3 {} else if r1 == 3 && r2 == 2 {}
      else if r1 == 3 && r2 == 0 {} else {}
    } else {
      if r1 == 0 && r2 == 1 {} else if r1 == 1 && r2 == 0 {} else if r1 == 1 && r2 == 2 {}
      else if r1 == 2 && r2 == 1 {} else if r1 == 2 && r2 == 3 {} else if r1 == 3 && r2 == 2 {}
      else if r1 == 3 && r2 == 0 {} else {}
    }
  }

  /** Turning back undoes a kick: the reverse transition tries the same
      offsets negated. */
  lemma KickReversed(r1: int, r2: int, t: int)
    requires Adjacent(r1, r2) && IsKind(t)
    ensures Kick(r2, r1, t) == Negated(Kick(r1, r2, t))
  {
    KickIsSrs(r1, r2, t);
    KickIsSrs(r2, r1, t);
  }
}
