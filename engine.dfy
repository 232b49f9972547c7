/** The game object as main.js runs it. */
module Engine {
  import opened Pieces
  import opened Kicks
  import opened Playfield
  import opened Bag
  import Rules

  /** The 24 x 10 board array; `grid` is its contents as a grid of rows. */
  class Board {
    const B: array2<int>
    ghost var grid: Grid

    ghost predicate Synced()
      reads this, B
    {
      B.Length0 == Rows && B.Length1 == Cols && WellFormed(grid) &&
      forall i, j :: 0 <= i < Rows && 0 <= j < Cols ==> B[i, j] == grid[i][j]
    }

    constructor ()
      ensures Synced() && grid == EmptyBoard() && fresh(B)
    {
      B := new int[Rows, Cols];
      new;
      Blank();
    }

    method Check(t: int, r: int, x: int, y: int) returns (ok: bool)
      requires Synced() && IsKind(t) && r >= 0
      ensures ok == Fits(grid, Placed(t, r, x, y))
    {
      var cs := RotatedPiece(t, r);
      ghost var placed := Placed(t, r, x, y);
      var k := 0;
      while k < 4
        invariant 0 <= k <= 4
        invariant forall q :: 0 <= q < k ==> CellFree(grid, placed[q])
      {
        var y1 := cs[k].y + y;
        var x1 := cs[k].x + x;
        assert placed[k] == Cell(x1, y1);
        if y1 < 0 || y1 >= Rows + Buffer || x1 < 0 || x1 >= Cols || (y1 < Rows && B[y1, x1] != Blk) {
          return false;
        }
        k := k + 1;
      }
      return true;
    }

    /** Step the anchor row down from `y` while the piece still fits one
        row lower, and return the row it stops on. */
    method LandingRow(t: int, r: int, x: int, y: int) returns (yf: int)
      requires Synced() && IsKind(t) && r >= 0
      ensures yf == Rules.Landing(grid, t, r, x, y)
    {
      yf := y - 1;
      var ok := Check(t, r, x, yf);
      if ok {
        FitsLowerBound(grid, t, r, x, yf);
      }
      while ok
        invariant ok == Fits(grid, Placed(t, r, x, yf))
        invariant ok ==> yf >= -2
        invariant Rules.Landing(grid, t, r, x, yf + 1) == Rules.Landing(grid, t, r, x, y)
        decreases yf + 3
      {
        yf := yf - 1;
        ok := Check(t, r, x, yf);
        if ok {
          FitsLowerBound(grid, t, r, x, yf);
        }
      }
      yf := yf + 1;
    }

    /** Try the offsets `ks` in order from the anchor (x, y) and return the
        index of the first at which the piece fits, |ks| when none does. */
    method FirstKick(t: int, r: int, x: int, y: int, ks: seq<Cell>) returns (k: int)
      requires Synced() && IsKind(t) && r >= 0
      ensures k == Rules.FirstFit(grid, t, r, x, y, ks, 0)
    {
      k := 0;
      var found := false;
      while k < |ks| && !found
        invariant 0 <= k <= |ks|
        invariant found ==> k < |ks| && Fits(grid, Placed(t, r, x + ks[k].x, y + ks[k].y))
        invariant forall j :: 0 <= j < k ==> !Fits(grid, Placed(t, r, x + ks[j].x, y + ks[j].y))
        decreases |ks| - k, if found then 0 else 1
      {
        found := Check(t, r, x + ks[k].x, y + ks[k].y);
        if !found {
          k := k + 1;
        }
      }
      Rules.FirstFitAt(grid, t, r, x, y, ks, 0, k);
    }

    method Put(i: int, j: int, v: int)
      requires Synced() && 0 <= i < Rows && 0 <= j < Cols
      modifies this, B
      ensures Synced() && grid == old(grid)[i := old(grid)[i][j := v]]
    {
      B[i, j] := v;
      grid := grid[i := grid[i][j := v]];
    }

    method StampPiece(t: int, r: int, x: int, y: int)
      requires Synced() && IsKind(t) && r >= 0
      modifies this, B
      ensures Synced() && grid == StampCells(old(grid), Placed(t, r, x, y), t)
    {
      var cs := RotatedPiece(t, r);
      ghost var placed := Placed(t, r, x, y);
      ghost var g := grid;
      var k := 0;
      while k < 4
        invariant 0 <= k <= 4
        invariant Synced() && grid == StampCells(g, placed[..k], t)
      {
        var x1 := x + cs[k].x;
        var y1 := y + cs[k].y;
        assert placed[k] == Cell(x1, y1);
        assert placed[..k + 1][..k] == placed[..k];
        if 0 <= x1 < Cols && 0 <= y1 < Rows {
          Put(y1, x1, t);
        }
        k := k + 1;
      }
      assert placed[..4] == placed;
    }

    method RowFilled(i: int) returns (filled: bool)
      requires Synced() && 0 <= i < Rows
      ensures filled == Full(grid[i])
    {
      var j := 0;
      while j < Cols
        invariant 0 <= j <= Cols
        invariant forall q :: 0 <= q < j ==> grid[i][q] != Blk
      {
        if B[i, j] == Blk {
          return false;
        }
        j := j + 1;
      }
      return true;
    }

    method CopyRow(dst: int, src: int, blank: bool)
      requires Synced() && 0 <= dst < Rows && 0 <= src < Rows
      modifies this, B
      ensures Synced() && grid == old(grid)[dst := if blank then EmptyRow() else old(grid)[src]]
    {
      var j := 0;
      while j < Cols
        modifies B
        invariant 0 <= j <= Cols
        invariant forall i, q :: 0 <= i < Rows && 0 <= q < Cols && i != dst ==> B[i, q] == grid[i][q]
        invariant forall q :: 0 <= q < j ==> B[dst, q] == if blank then Blk else grid[src][q]
        invariant forall q :: j <= q < Cols ==> B[dst, q] == grid[dst][q]
      {
        B[dst, j] := if blank then Blk else B[src, j];
        j := j + 1;
      }
      grid := grid[dst := if blank then EmptyRow() else grid[src]];
    }

    method ClearRows() returns (cleared: int)
      requires Synced()
      modifies this, B
      ensures Synced() && grid == Compacted(old(grid)) && cleared == FullCount(old(grid))
    {
      ghost var g := grid;
      cleared := 0;
      var i := 0;
      while i < Rows
        invariant 0 <= i <= Rows
        invariant Synced() && grid == Compacting(g, i)
        invariant cleared == FullCount(g[..i])
      {
        CompactingStep(g, i);
        KeptStep(g, i);
        var filled := RowFilled(i);
        if filled {
          cleared := cleared + 1;
        }
        var dst := if filled then i else i - cleared;
        CopyRow(dst, i, filled);
        i := i + 1;
      }
      CompactingDone(g);
      assert g[..Rows] == g;
    }

    method Blank()
      requires B.Length0 == Rows && B.Length1 == Cols
      modifies this, B
      ensures Synced() && grid == EmptyBoard()
    {
      var i := 0;
      while i < Rows
        modifies B
        invariant 0 <= i <= Rows
        invariant forall a, b :: 0 <= a < i && 0 <= b < Cols ==> B[a, b] == Blk
      {
        var j := 0;
        while j < Cols
          modifies B
          invariant 0 <= j <= Cols
          invariant forall a, b :: 0 <= a < i && 0 <= b < Cols ==> B[a, b] == Blk
          invariant forall b :: 0 <= b < j ==> B[i, b] == Blk
        {
          B[i, j] := Blk;
          j := j + 1;
        }
        i := i + 1;
      }
      grid := EmptyBoard();
    }
  }

  /** The game object: the board, the bag array and the scalar fields of
      main.js's game record `G`, stepped in place. Each method is proved to
      leave the state that its counterpart function in module Rules (named
      in its `ensures`) computes from the state before. */
  class Game {
    const board: Board
    const P: array<int>
    var t: int
    var spare: int
    var cursor: int
    var x: int
    var y: int
    var r: int
    var running: bool
    var lost: bool
    var hold: bool
    var game: int
    var round: int
    var stage: int
    var lines: int
    var score: int

    /** The game state as a value. */
    ghost function Abs(): Rules.State
      reads this, board, P
    {
      Rules.State(Rules.Field(board.grid), Rules.Deck(P[..]), t, spare, cursor, x, y, r,
        running, lost, hold, game, round, stage, lines, score)
    }

    ghost predicate Valid()
      reads this, board, board.B, P
    {
      board.Synced() && P.Length == BagSize && Rules.Inv(Abs())
    }

    /** The record with its start values and the bag in kind order, then
        the first board set up. */
    constructor (js: seq<int>)
      requires |js| == BagSize && ValidSwaps(js)
      ensures Abs() == Rules.ClearBoard(Rules.Initial(), js)
      ensures Valid()
    {
      board := new Board();
      P := new int[BagSize](i => i);
      t, spare, cursor, x, y, r := 0, 0, 0, 0, 0, 0;
      running, lost, hold, game := false, false, true, 0;
      round, stage, lines, score := 1, 1, 0, 0;
      new;
      assert P[..] == [0, 1, 2, 3, 4, 5, 6];
      Rules.ClearBoardKeepsInv(Abs(), js);
      ClearBoard(js);
    }

    method StartPiece()
      modifies this
      ensures Abs() == Rules.StartPiece(old(Abs()))
    {
      x, y, r := Rules.SpawnX, Rules.SpawnY, 0;
    }

    /** Empty the board, reshuffle the bag, deal and respawn. */
    method ClearBoard(js: seq<int>)
      requires board.Synced() && P.Length == BagSize
      requires |js| == BagSize && ValidSwaps(js)
      modifies this, board, board.B, P
      ensures board.Synced()
      ensures Abs() == Rules.ClearBoard(old(Abs()), js)
    {
      ghost var s := Abs();
      board.Blank();
      Shuffle(P, js);
      ghost var b := P[..];
      Rules.ClearBoardSteps(s, js, b);
      t, spare := P[0], P[1];
      cursor := 2;
      StartPiece();
      assert P[..] == b;
    }

    /** Stamp the piece, compact the full rows, and score. */
    method Lock(drop: int)
      requires board.Synced() && NoFullRow(board.grid) && IsKind(t) && r >= 0
      modifies this, board, board.B
      ensures board.Synced()
      ensures Abs() == Rules.Lock(old(Abs()), drop)
    {
      ghost var s := Abs();
      board.StampPiece(t, r, x, y);
      var cleared := board.ClearRows();
      assert board.grid == Settle(s.board.cells, Rules.Piece(s), s.t);
      assert cleared == Cleared(s.board.cells, Rules.Piece(s), s.t);
      lines := lines + cleared;
      score := score + Rules.Points[cleared] + drop;
    }

    method Reshuffle(js: seq<int>)
      requires P.Length == BagSize && |js| == BagSize && ValidSwaps(js)
      modifies this, P
      ensures Abs() == Rules.Refill(old(Abs()), js)
    {
      Shuffle(P, js);
      cursor := 0;
    }

    /** Take the spare kind and the next bag entry; reshuffle when the bag
        is used up. */
    method DrawNext(js: seq<int>)
      requires P.Length == BagSize && 0 <= cursor < BagSize
      requires |js| == BagSize && ValidSwaps(js)
      modifies this, P
      ensures Abs() == Rules.Draw(old(Abs()), js)
    {
      t, spare := spare, P[cursor];
      cursor := cursor + 1;
      if cursor == P.Length {
        Reshuffle(js);
      }
    }

    /** Spawn, re-enable hold, test the new piece; stop on a loss or a
        completed stage. */
    method Respawn()
      requires board.Synced() && IsKind(t)
      modifies this
      ensures Abs() == Rules.Respawn(old(Abs()))
    {
      StartPiece();
      hold := true;
      var ok := board.Check(t, r, x, y);
      lost := !ok;
      if lost || lines >= Rules.WinLines {
        running := false;
        game := game + 1;
      }
    }

    method Place(drop: int, js: seq<int>)
      requires Valid() && drop >= 0 && |js| == BagSize && ValidSwaps(js)
      modifies this, board, board.B, P
      ensures Abs() == Rules.Place(old(Abs()), drop, js)
      ensures Valid()
    {
      Lock(drop);
      DrawNext(js);
      Respawn();
    }

    method Move(d: int)
      requires board.Synced() && IsKind(t) && r >= 0
      modifies this
      ensures Abs() == Rules.Move(old(Abs()), d)
    {
      x := x + d;
      var ok := board.Check(t, r, x, y);
      if !ok {
        x := x - d;
      }
    }

    /** Down one row, or back up and lock. */
    method Fall(js: seq<int>)
      requires Valid() && |js| == BagSize && ValidSwaps(js)
      modifies this, board, board.B, P
      ensures Abs() == Rules.Fall(old(Abs()), js)
      ensures Valid()
    {
      ghost var s := Abs();
      y := y - 1;
      var ok := board.Check(t, r, x, y);
      Rules.FallSteps(s, js, ok);
      if !ok {
        y := y + 1;
        assert Abs() == s;
        Place(0, js);
      }
    }

    /** Turn by `a` quarter-turns and take the first kick that fits; with
        none, step the rotation state by a + 2 more. */
    method Rotate(a: int)
      requires board.Synced() && IsKind(t) && IsRotation(r) && (a == 1 || a == 3)
      modifies this
      ensures Abs() == Rules.Rotate(old(Abs()), a)
    {
      ghost var s := Abs();
      var nr, nx, ny := Turned(a);
      assert Abs() == s;
      r, x, y := nr, nx, ny;
    }

    /** The rotation state and anchor a rotation by `a` ends on, found
        without changing the record. */
    method Turned(a: int) returns (nr: int, nx: int, ny: int)
      requires board.Synced() && IsKind(t) && IsRotation(r) && (a == 1 || a == 3)
      ensures Rules.Rotate(Abs(), a) == Abs().(r := nr, x := nx, y := ny)
    {
      ghost var s := Abs();
      var r1 := (r + a) % 4;
      var ks := Kick(r, r1, t);
      var k := board.FirstKick(t, r1, x, y, ks);
      nx := if k < |ks| then x + ks[k].x else x;
      ny := if k < |ks| then y + ks[k].y else y;
      var ok := board.Check(t, r1, nx, ny);
      nr := if ok then r1 else (r1 + a + 2) % 4;
      assert Abs() == s;
      Rules.RotateSteps(s, a, r1, ks, k, nx, ny, ok, nr);
    }

    /** Fall row by row until the piece no longer fits, step back up, and
        lock with the rows fallen plus one as bonus. */
    method HardDrop(js: seq<int>)
      requires Valid() && |js| == BagSize && ValidSwaps(js)
      modifies this, board, board.B, P
      ensures Abs() == Rules.HardDrop(old(Abs()), js)
      ensures Valid()
    {
      ghost var s := Abs();
      var yf := board.LandingRow(t, r, x, y);
      assert Abs() == s;
      Rules.HardDropSteps(s, js, yf);
      var drop := y + 1 - yf;
      y := yf;
      assert Abs() == s.(y := yf);
      Place(drop, js);
    }

    method HoldPiece()
      modifies this
      ensures Abs() == Rules.HoldSwap(old(Abs()))
    {
      if !hold {
        return;
      }
      t, spare := spare, t;
      StartPiece();
      hold := false;
    }

    /** A gravity tick scheduled in epoch `epoch`. */
    method Update(epoch: int, js: seq<int>)
      requires Valid() && |js| == BagSize && ValidSwaps(js)
      modifies this, board, board.B, P
      ensures Abs() == Rules.Tick(old(Abs()), epoch, js)
      ensures Valid()
    {
      if !running || game != epoch {
        return;
      }
      Fall(js);
    }

    /** The stage, round and score for the next start; lines reset. */
    method Advance()
      modifies this
      ensures Abs() == Rules.Progress(old(Abs())).(lines := 0)
    {
      if lines < Rules.WinLines || (stage == Rules.NumStages && round == Rules.NumRounds) {
        score := 0;
        stage, round := 1, 1;
      } else if stage == Rules.NumStages {
        stage := 1;
        round := round + 1;
      } else {
        stage := stage + 1;
      }
      lines := 0;
    }

    /** The first half of Enter: move on to the next stage and clear the board. */
    method Reset(js: seq<int>)
      requires Valid() && |js| == BagSize && ValidSwaps(js)
      modifies this, board, board.B, P
      ensures board.Synced() && P.Length == BagSize
      ensures Abs() == Rules.Reset(old(Abs()), js)
    {
      ghost var s := Abs();
      Rules.ProgressOutcome(s);
      Advance();
      ClearBoard(js);
    }

    /** Enter: advance, clear the board, toggle running; starting runs a
        tick at once, stopping advances the epoch. */
    method Restart(js: seq<int>)
      requires Valid() && |js| == BagSize && ValidSwaps(js)
      modifies this, board, board.B, P
      ensures Abs() == Rules.Restart(old(Abs()), js)
      ensures Valid()
    {
      Reset(js);
      Toggle();
      if running {
        Update(game, js);
      }
    }

    /** The second half of Enter: toggle running; a start clears the loss,
        a stop advances the epoch. */
    method Toggle()
      modifies this
      ensures Abs() == Rules.Toggle(old(Abs()))
    {
      running := !running;
      if running {
        lost := false;
      } else {
        game := game + 1;
      }
    }

    /** One key press. */
    method Process(cmd: Rules.Command, js: seq<int>)
      requires Valid() && |js| == BagSize && ValidSwaps(js)
      modifies this, board, board.B, P
      ensures Abs() == Rules.Step(old(Abs()), cmd, js)
      ensures Valid()
    {
      if cmd == Rules.Enter {
        Restart(js);
        return;
      }
      if !running {
        return;
      }
      match cmd
      case ArrowLeft => Move(-1);
      case ArrowRight => Move(1);
      case ArrowDown => Fall(js);
      case ArrowUp => Rotate(3);
      case KeyZ => Rotate(1);
      case Space => HardDrop(js);
      case KeyC => HoldPiece();
      case Other =>
      case Enter =>
    }
  }
}
