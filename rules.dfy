/** The game rules as a pure state machine over the whole game state: lock
    and line clear, the piece queue, the player commands, the gravity tick
    and the restart/progression rules. The `Game` class in module Engine
    runs the same steps in place and is proved to agree with these
    functions. */
module Rules {
  import opened Pieces
  import opened Kicks
  import opened Playfield
  import opened Bag

  /** Score for clearing 0, 1, 2, 3 or 4 rows in one lock. */
  const Points: seq<nat> := [0, 40, 100, 300, 1200]
  /** Gravity period in milliseconds, by stage. */
  const Times: seq<int> := [1333, 1083, 833, 667, 533, 417, 333, 283, 250, 217]
  const NumStages := 10
  const NumRounds := 6
  const WinLines := 25
  const SpawnX := 4
  const SpawnY := 20

  /** The keys the game tells apart: Enter starts and stops, the left and
      right arrows move, the down arrow drops one row, Up and Z rotate,
      Space drops all the way, C holds; every other key is `Other`. */
  datatype Command =
    | Enter | ArrowLeft | ArrowRight | ArrowDown
    | ArrowUp    // steps the rotation state by 3
    | KeyZ       // steps the rotation state by 1
    | Space | KeyC | Other

  // The board and the bag are each wrapped in a one-field datatype. The
  // wrappers stand for nothing in main.js; they are there for the verifier,
  // so that the state's two sequence-valued parts are carried and compared
  // as single values when a step leaves them alone.
  datatype Field = Field(cells: Grid)
  datatype Deck = Deck(kinds: seq<int>)

  /** The whole game state. `spare` is the one slot that shows the next
      piece and receives the held one; `cursor` indexes the next kind to
      draw from `bag`; `game` is the epoch that stale gravity ticks are
      compared against. */
  datatype State = State(
    board: Field, bag: Deck,
    t: int, spare: int, cursor: int,
    x: int, y: int, r: int,
    running: bool, lost: bool, hold: bool, game: int,
    round: int, stage: int, lines: int, score: int)

  predicate Counters(s: State)
  {
    1 <= s.stage <= NumStages && 1 <= s.round <= NumRounds &&
    s.lines >= 0 && s.score >= 0 && s.game >= 0 &&
    (s.running ==> s.lines < WinLines) && (s.lost ==> !s.running)
  }

  /** What every reachable state satisfies. */
  predicate Inv(s: State)
  {
    WellFormed(s.board.cells) && NoFullRow(s.board.cells) && IsBag(s.bag.kinds) &&
    IsKind(s.t) && IsKind(s.spare) && 0 <= s.cursor < BagSize && IsRotation(s.r) &&
    Counters(s)
  }

  /** The state the game object starts in, before its first board is set
      up: counters at their start values and the bag in kind order. The
      starting board's contents do not matter: clearing the board, which
      comes first, overwrites every cell. */
  function Initial(): (i: State)
    ensures WellFormed(i.board.cells) && IsBag(i.bag.kinds) && Counters(i)
    ensures !i.running && !i.lost && i.hold && i.lines == 0 && i.score == 0
  {
    State(Field(EmptyBoard()), Deck([0, 1, 2, 3, 4, 5, 6]), 0, 0, 0, 0, 0, 0,
      false, false, true, 0, 1, 1, 0, 0)
  }

  function Piece(s: State): seq<Cell>
    requires IsKind(s.t) && s.r >= 0
  {
    Placed(s.t, s.r, s.x, s.y)
  }

  /** The active piece passes the legality test. */
  predicate Legal(s: State)
    requires WellFormed(s.board.cells) && IsKind(s.t) && s.r >= 0
  {
    Fits(s.board.cells, Piece(s))
  }

  function StartPiece(s: State): State
  {
    s.(x := SpawnX, y := SpawnY, r := 0)
  }

  /** Empty every cell, reshuffle the bag and take its first two kinds as
      the active and the spare piece (the next kind to draw is the third),
      and respawn. */
  function ClearBoard(s: State, js: seq<int>): State
    requires |s.bag.kinds| == BagSize && |js| == BagSize && ValidSwaps(js)
  {
    var bag := Shuffled(s.bag.kinds, js);
    StartPiece(s.(board := Field(EmptyBoard()), bag := Deck(bag), t := bag[0], spare := bag[1], cursor := 2))
  }

  /** A cleared board keeps the invariant: no cell is filled, the bag is
      still a permutation of the seven kinds, and the active and spare
      pieces come from it. */
  lemma ClearBoardKeepsInv(s: State, js: seq<int>)
    requires IsBag(s.bag.kinds) && |js| == BagSize && ValidSwaps(js) && Counters(s)
    ensures Inv(ClearBoard(s, js))
  {
    ShuffledIsBag(s.bag.kinds, js);
    BagHoldsKinds(Shuffled(s.bag.kinds, js));
    EmptyBoardClean();
  }

  /** What clear_board leaves: every cell empty, the bag holding the same
      kinds as before (reordered), its first two entries as the active and
      the spare piece, the third as the next to draw, the piece at column 4,
      row 20 in state 0, and the hold flag, the flags and the counters as
      they were. */
  lemma ClearBoardOutcome(s: State, js: seq<int>)
    requires |s.bag.kinds| == BagSize && |js| == BagSize && ValidSwaps(js)
    ensures var c := ClearBoard(s, js);
      WellFormed(c.board.cells) &&
      (forall i, j :: 0 <= i < Rows && 0 <= j < Cols ==> c.board.cells[i][j] == Blk) &&
      multiset(c.bag.kinds) == multiset(s.bag.kinds) && |c.bag.kinds| == BagSize &&
      c.t == c.bag.kinds[0] && c.spare == c.bag.kinds[1] && c.cursor == 2 &&
      c.x == 4 && c.y == 20 && c.r == 0 &&
      c.hold == s.hold && c.running == s.running && c.lost == s.lost && c.game == s.game &&
      c.stage == s.stage && c.round == s.round && c.lines == s.lines && c.score == s.score
  {
    ShuffleDownPermutes(s.bag.kinds, js, BagSize);
  }

  /** Clearing the board in the terms the engine uses: `b` is the
      reshuffled bag. */
  lemma ClearBoardSteps(s: State, js: seq<int>, b: seq<int>)
    requires |s.bag.kinds| == BagSize && |js| == BagSize && ValidSwaps(js)
    requires b == Shuffled(s.bag.kinds, js)
    ensures |b| == BagSize
    ensures ClearBoard(s, js) == s.(board := Field(EmptyBoard()), bag := Deck(b), t := b[0], spare := b[1],
      cursor := 2, x := SpawnX, y := SpawnY, r := 0)
  {
  }

  /** Stamp the active piece into the board, compact the full rows away,
      and add the rows cleared and their points plus the drop bonus. */
  function Lock(s: State, drop: int): (l: State)
    requires WellFormed(s.board.cells) && NoFullRow(s.board.cells) && IsKind(s.t) && s.r >= 0
    ensures WellFormed(l.board.cells) && NoFullRow(l.board.cells)
    ensures l.lines >= s.lines && l.score >= s.score + drop
    ensures l.bag == s.bag && l.t == s.t && l.spare == s.spare && l.cursor == s.cursor
    ensures l.stage == s.stage && l.round == s.round && l.game == s.game
    ensures l.running == s.running && l.lost == s.lost
    ensures l == s.(board := l.board, lines := l.lines, score := l.score)
  {
    var cleared := Cleared(s.board.cells, Piece(s), s.t);
    s.(board := Field(Settle(s.board.cells, Piece(s), s.t)),
       lines := s.lines + cleared, score := s.score + Points[cleared] + drop)
  }

  /** A fresh permutation of the bag, drawn from its first entry on. */
  function Refill(s: State, js: seq<int>): State
    requires |s.bag.kinds| == BagSize && |js| == BagSize && ValidSwaps(js)
  {
    s.(bag := Deck(Shuffled(s.bag.kinds, js)), cursor := 0)
  }

  /** The spare kind becomes active and the next bag entry the spare; the
      bag is reshuffled once it is used up. */
  function Draw(s: State, js: seq<int>): (d: State)
    requires |s.bag.kinds| == BagSize && 0 <= s.cursor < BagSize && |js| == BagSize && ValidSwaps(js)
    ensures 0 <= d.cursor < BagSize && d.t == s.spare
    ensures d.board == s.board && d.lines == s.lines && d.score == s.score
    ensures d.stage == s.stage && d.round == s.round && d.game == s.game
    ensures d.running == s.running && d.lost == s.lost
  {
    var d := s.(t := s.spare, spare := s.bag.kinds[s.cursor], cursor := s.cursor + 1);
    if d.cursor == BagSize then Refill(d, js) else d
  }

  /** Drawing keeps the bag a permutation of the seven kinds, and the new
      spare piece is one of them. */
  lemma DrawKeepsBag(s: State, js: seq<int>)
    requires IsBag(s.bag.kinds) && 0 <= s.cursor < BagSize && |js| == BagSize && ValidSwaps(js)
    ensures IsBag(Draw(s, js).bag.kinds) && IsKind(Draw(s, js).spare)
  {
    BagHoldsKinds(s.bag.kinds);
    ShuffledIsBag(s.bag.kinds, js);
  }

  /** Hold becomes available again, and the game is lost exactly when the
      active piece does not fit. */
  function Ready(s: State): State
    requires WellFormed(s.board.cells) && IsKind(s.t) && s.r >= 0
  {
    s.(hold := true, lost := !Legal(s))
  }

  /** The game stops and the epoch advances, so pending ticks lapse. */
  function Stop(s: State): State
  {
    s.(running := false, game := s.game + 1)
  }

  /** Spawn the new piece; the game stops when it is lost or when the
      stage's lines are reached. */
  function Respawn(s: State): (n: State)
    requires WellFormed(s.board.cells) && IsKind(s.t)
    ensures n.r == 0 && n.game >= s.game
    ensures (n.running ==> n.lines < WinLines) && (n.lost ==> !n.running)
    ensures n.board == s.board && n.bag == s.bag && n.t == s.t && n.spare == s.spare
    ensures n.cursor == s.cursor && n.stage == s.stage && n.round == s.round
    ensures n.lines == s.lines && n.score == s.score
  {
    var s1 := Ready(StartPiece(s));
    if s1.lost || s1.lines >= WinLines then Stop(s1) else s1
  }

  /** Lock the active piece: stamp it, compact the rows and score, draw the
      next kind (reshuffling when the bag is used up), respawn, and stop the
      game if the new piece does not fit or the stage's lines are reached. */
  function Place(s: State, drop: int, js: seq<int>): (p: State)
    requires Inv(s) && drop >= 0 && |js| == BagSize && ValidSwaps(js)
    ensures Inv(p)
  {
    DrawKeepsBag(Lock(s, drop), js);
    Respawn(Draw(Lock(s, drop), js))
  }

  /** Shift one column; undo the shift if the piece no longer fits. */
  function Move(s: State, d: int): (m: State)
    requires WellFormed(s.board.cells) && IsKind(s.t) && s.r >= 0
    ensures m == s || (m == s.(x := s.x + d) && Legal(m))
    ensures Legal(s.(x := s.x + d)) ==> m == s.(x := s.x + d)
  {
    var m := s.(x := s.x + d);
    if Legal(m) then m else m.(x := m.x - d)
  }

  /** The index of the first offset, from `k` on, at which the piece fits;
      |ks| when there is none. */
  function FirstFit(g: Grid, t: int, r: nat, x: int, y: int, ks: seq<Cell>, k: int): (n: int)
    requires WellFormed(g) && IsKind(t) && 0 <= k <= |ks|
    ensures k <= n <= |ks|
    decreases |ks| - k
  {
    if k == |ks| then k
    else if Fits(g, Placed(t, r, x + ks[k].x, y + ks[k].y)) then k
    else FirstFit(g, t, r, x, y, ks, k + 1)
  }

  /** The offset FirstFit returns fits, and when it is past `k` the piece
      did not fit at `k`. */
  lemma {:induction false} FirstFitFound(g: Grid, t: int, r: nat, x: int, y: int, ks: seq<Cell>, k: int)
    requires WellFormed(g) && IsKind(t) && 0 <= k <= |ks|
    ensures var n := FirstFit(g, t, r, x, y, ks, k);
      (n < |ks| ==> Fits(g, Placed(t, r, x + ks[n].x, y + ks[n].y))) &&
      (n > k ==> !Fits(g, Placed(t, r, x + ks[k].x, y + ks[k].y)))
    decreases |ks| - k
  {
    if k < |ks| && !Fits(g, Placed(t, r, x + ks[k].x, y + ks[k].y)) {
      FirstFitFound(g, t, r, x, y, ks, k + 1);
    }
  }

  /** No offset before the one FirstFit returns fits. */
  lemma {:induction false} FirstFitSkips(g: Grid, t: int, r: nat, x: int, y: int, ks: seq<Cell>, k: int)
    requires WellFormed(g) && IsKind(t) && 0 <= k <= |ks|
    ensures forall j :: k <= j < FirstFit(g, t, r, x, y, ks, k) ==>
      !Fits(g, Placed(t, r, x + ks[j].x, y + ks[j].y))
    decreases |ks| - k
  {
    if k < |ks| && FirstFit(g, t, r, x, y, ks, k) > k {
      FirstFitSkips(g, t, r, x, y, ks, k + 1);
    }
  }

  /** FirstFit is the first fitting offset: when no offset in [k, n) fits
      and the one at `n` does (or `n` is the end), the search from `k`
      stops at `n`. */
  lemma {:induction false} FirstFitAt(g: Grid, t: int, r: nat, x: int, y: int, ks: seq<Cell>, k: int, n: int)
    requires WellFormed(g) && IsKind(t) && 0 <= k <= n <= |ks|
    requires forall j :: k <= j < n ==> !Fits(g, Placed(t, r, x + ks[j].x, y + ks[j].y))
    requires n == |ks| || Fits(g, Placed(t, r, x + ks[n].x, y + ks[n].y))
    ensures FirstFit(g, t, r, x, y, ks, k) == n
    decreases n - k
  {
    if k < n {
      FirstFitAt(g, t, r, x, y, ks, k + 1, n);
    }
  }

  /** The state after turning to `r1` and applying offset `k` of `ks` (none
      when `k` is past the end), with the second test deciding between `r1`
      and `back`. */
  function KickTo(s: State, r1: nat, ks: seq<Cell>, back: int, k: int): State
    requires WellFormed(s.board.cells) && IsKind(s.t)
  {
    var x := if 0 <= k < |ks| then s.x + ks[k].x else s.x;
    var y := if 0 <= k < |ks| then s.y + ks[k].y else s.y;
    var m := s.(r := r1, x := x, y := y);
    if Legal(m) then m else m.(r := back)
  }

  /** KickTo in the terms the key handler uses: the anchor it moves to and
      the result `ok` of the second test decide the new state. */
  lemma KickToSteps(s: State, r1: nat, ks: seq<Cell>, back: int, k: int, x: int, y: int, ok: bool)
    requires WellFormed(s.board.cells) && IsKind(s.t)
    requires x == (if 0 <= k < |ks| then s.x + ks[k].x else s.x)
    requires y == (if 0 <= k < |ks| then s.y + ks[k].y else s.y)
    requires ok == Fits(s.board.cells, Placed(s.t, r1, x, y))
    ensures KickTo(s, r1, ks, back, k) == s.(r := if ok then r1 else back, x := x, y := y)
  {
    assert Piece(s.(r := r1, x := x, y := y)) == Placed(s.t, r1, x, y);
  }

  /** Turn by `a` quarter-turns (Up steps by 3, Z by 1) and move by the
      first kick offset at which the piece fits; when the piece then does
      not fit, step the rotation state by a + 2 more. */
  function Rotate(s: State, a: int): (n: State)
    requires WellFormed(s.board.cells) && IsKind(s.t) && IsRotation(s.r) && (a == 1 || a == 3)
    ensures IsRotation(n.r) && n == s.(r := n.r, x := n.x, y := n.y)
  {
    var r1 := (s.r + a) % 4;
    var ks := Kick(s.r, r1, s.t);
    KickTo(s, r1, ks, (r1 + a + 2) % 4, FirstFit(s.board.cells, s.t, r1, s.x, s.y, ks, 0))
  }

  /** Move down one row, or lock where the piece is (soft drop and gravity). */
  function Fall(s: State, js: seq<int>): (f: State)
    requires Inv(s) && |js| == BagSize && ValidSwaps(js)
    ensures Inv(f)
  {
    var d := s.(y := s.y - 1);
    if Legal(d) then d else Place(s, 0, js)
  }

  /** Fall in the terms the engine uses: `ok` is the test one row down. */
  lemma FallSteps(s: State, js: seq<int>, ok: bool)
    requires Inv(s) && |js| == BagSize && ValidSwaps(js)
    requires ok == Legal(s.(y := s.y - 1))
    ensures ok ==> Fall(s, js) == s.(y := s.y - 1)
    ensures !ok ==> Fall(s, js) == Place(s, 0, js)
  {
    if ok {
      assert Legal(s.(y := s.y - 1));
    }
  }

  /** The anchor row a hard drop from row `y` ends on. */
  function Landing(g: Grid, t: int, r: nat, x: int, y: int): (yf: int)
    requires WellFormed(g) && IsKind(t)
    ensures yf <= y && !Fits(g, Placed(t, r, x, yf - 1))
    ensures forall z :: yf <= z < y ==> Fits(g, Placed(t, r, x, z))
    decreases y + 3
  {
    if Fits(g, Placed(t, r, x, y - 1)) then
      FitsLowerBound(g, t, r, x, y - 1);
      Landing(g, t, r, x, y - 1)
    else y
  }

  /** The piece moved straight down as far as it fits: every row from its
      start down to the landing row fits, the row below does not, and
      nothing else changes. */
  function Drop(s: State): (d: State)
    requires WellFormed(s.board.cells) && IsKind(s.t) && s.r >= 0
    ensures d == s.(y := d.y) && d.y <= s.y
    ensures !Fits(s.board.cells, Placed(s.t, s.r, s.x, d.y - 1))
    ensures forall z :: d.y <= z < s.y ==> Fits(s.board.cells, Placed(s.t, s.r, s.x, z))
  {
    s.(y := Landing(s.board.cells, s.t, s.r, s.x, s.y))
  }

  /** Drop until blocked, then lock with the rows fallen plus one as bonus. */
  function HardDrop(s: State, js: seq<int>): (h: State)
    requires Inv(s) && |js| == BagSize && ValidSwaps(js)
    ensures Inv(h)
  {
    var d := Drop(s);
    Place(d, s.y - d.y + 1, js)
  }

  /** A hard drop in the terms the engine uses: `yf` is the landing row. */
  lemma HardDropSteps(s: State, js: seq<int>, yf: int)
    requires Inv(s) && |js| == BagSize && ValidSwaps(js)
    requires yf == Landing(s.board.cells, s.t, s.r, s.x, s.y)
    ensures Inv(s.(y := yf))
    ensures HardDrop(s, js) == Place(s.(y := yf), s.y + 1 - yf, js)
  {
    assert Drop(s) == s.(y := yf);
  }

  /** Swap the active and the spare piece and respawn, once per lock; the
      new position is not checked. */
  function HoldSwap(s: State): (h: State)
    ensures (h.t == s.t && h.spare == s.spare) || (h.t == s.spare && h.spare == s.t)
    ensures h.r == s.r || h.r == 0
    ensures h.board == s.board && h.bag == s.bag && h.cursor == s.cursor && h.game == s.game
    ensures h.running == s.running && h.lost == s.lost && h.lines == s.lines && h.score == s.score
    ensures h.stage == s.stage && h.round == s.round
  {
    if !s.hold then s else StartPiece(s.(t := s.spare, spare := s.t)).(hold := false)
  }

  /** A gravity tick scheduled in epoch `epoch`. */
  function Tick(s: State, epoch: int, js: seq<int>): (n: State)
    requires Inv(s) && |js| == BagSize && ValidSwaps(js)
    ensures Inv(n)
  {
    if !s.running || s.game != epoch then s else Fall(s, js)
  }

  /** The stage, round and score the Enter key moves to. */
  function Progress(s: State): (p: State)
    ensures p.board.cells == s.board.cells && p.bag.kinds == s.bag.kinds && p.running == s.running && p.game == s.game
  {
    if s.lines < WinLines || (s.stage == NumStages && s.round == NumRounds) then
      s.(score := 0, stage := 1, round := 1)
    else if s.stage == NumStages then s.(stage := 1, round := s.round + 1)
    else s.(stage := s.stage + 1)
  }

  /** The first half of Enter: the stage moves on, lines are reset and the
      board is cleared. */
  function Reset(s: State, js: seq<int>): (c: State)
    requires Inv(s) && |js| == BagSize && ValidSwaps(js)
    ensures Inv(c) && c.lines == 0 && c.running == s.running && c.game == s.game && c.lost == s.lost
  {
    ProgressOutcome(s);
    ClearBoardKeepsInv(Progress(s).(lines := 0), js);
    ClearBoard(Progress(s).(lines := 0), js)
  }

  /** The second half of Enter: running flips; a start clears the loss, a
      stop advances the epoch so that pending ticks are ignored. */
  function Toggle(s: State): (u: State)
    ensures u.running == !s.running && u.board == s.board && u.bag == s.bag
    ensures u.running ==> !u.lost && u.game == s.game
    ensures !u.running ==> u.lost == s.lost && u.game == s.game + 1
    ensures Inv(s) && s.lines < WinLines ==> Inv(u)
  {
    if s.running then s.(running := false, game := s.game + 1) else s.(running := true, lost := false)
  }

  /** Enter: move to the next stage, round or a fresh game, clear the board,
      and toggle running; starting runs one gravity tick at once. */
  function Restart(s: State, js: seq<int>): (n: State)
    requires Inv(s) && |js| == BagSize && ValidSwaps(js)
    ensures Inv(n)
  {
    var u := Toggle(Reset(s, js));
    if u.running then Tick(u, u.game, js) else u
  }

  /** One key press. Every press keeps the invariant: the bag stays a
      permutation of the seven kinds, the active and spare pieces stay
      kinds, the cursor stays inside the bag, stage and round stay in range,
      no row is full, and a running game has fewer lines than the target. */
  function Step(s: State, cmd: Command, js: seq<int>): (n: State)
    requires Inv(s) && |js| == BagSize && ValidSwaps(js)
    ensures Inv(n)
  {
    if cmd == Enter then Restart(s, js)
    else if !s.running then s
    else match cmd
      case ArrowLeft => Move(s, -1)
      case ArrowRight => Move(s, 1)
      case ArrowDown => Fall(s, js)
      case ArrowUp => Rotate(s, 3)
      case KeyZ => Rotate(s, 1)
      case Space => HardDrop(s, js)
      case KeyC => HoldSwap(s)
      case Other => s
      case Enter => s
  }

  /** Gravity period of the current stage. */
  function Period(s: State): (ms: int)
    requires Inv(s)
    ensures ms in Times
  {
    Times[s.stage - 1]
  }

  // ---------------------------------------------------------------------
  // Properties

  /** Later stages fall faster. */
  lemma TimesDecrease(i: int, j: int)
    requires 0 <= i < j < |Times|
    ensures Times[i] > Times[j]
  {
  }

  /** Locking: at most four rows clear (so the score table is never indexed
      past its end), the board is the stamped board compacted, lines and
      score grow by the rows cleared, their points and the drop bonus, the
      spare kind becomes active and the next bag entry the spare, the new
      piece spawns at (4, 20, 0) with hold available again, `lost` says
      exactly whether it fits, and the game stops, advancing the epoch, iff
      it is lost or the stage's lines are reached. */
  lemma PlaceOutcome(s: State, drop: int, js: seq<int>)
    requires Inv(s) && drop >= 0 && |js| == BagSize && ValidSwaps(js)
    ensures var stamped := StampCells(s.board.cells, Piece(s), s.t);
      var cleared := FullCount(stamped);
      var p := Place(s, drop, js);
      cleared <= 4 && p.board.cells == Compacted(stamped) &&
      p.lines == s.lines + cleared && p.score == s.score + Points[cleared] + drop &&
      p.t == s.spare && p.spare == s.bag.kinds[s.cursor] &&
      (s.cursor < BagSize - 1 ==> p.bag.kinds == s.bag.kinds && p.cursor == s.cursor + 1) &&
      (s.cursor == BagSize - 1 ==> p.bag.kinds == Shuffled(s.bag.kinds, js) && p.cursor == 0) &&
      p.x == SpawnX && p.y == SpawnY && p.r == 0 && p.hold &&
      p.lost == !Legal(p) &&
      (p.running <==> s.running && !p.lost && p.lines < WinLines) &&
      p.game == (if p.lost || p.lines >= WinLines then s.game + 1 else s.game) &&
      p.stage == s.stage && p.round == s.round
  {
    ClearedAtMost(s.board.cells, Piece(s), s.t);
  }

  /** Trying kicks whose first offset is (0, 0): the offset taken is the
      one FirstFit finds, the first in list order at which the piece fits,
      and the piece is then legal; when no offset fits, the piece stays
      where it was and only the rotation state changes, to `back`. */
  lemma KickToOutcome(s: State, r1: nat, ks: seq<Cell>, back: int)
    requires WellFormed(s.board.cells) && IsKind(s.t) && |ks| > 0 && ks[0] == Cell(0, 0)
    ensures var k := FirstFit(s.board.cells, s.t, r1, s.x, s.y, ks, 0);
      var n := KickTo(s, r1, ks, back, k);
      (k == |ks| ==> n == s.(r := back)) &&
      (k < |ks| ==> n == s.(r := r1, x := s.x + ks[k].x, y := s.y + ks[k].y) && Legal(n))
  {
    var k := FirstFit(s.board.cells, s.t, r1, s.x, s.y, ks, 0);
    FirstFitFound(s.board.cells, s.t, r1, s.x, s.y, ks, 0);
    if k < |ks| {
      var n := s.(r := r1, x := s.x + ks[k].x, y := s.y + ks[k].y);
      assert Piece(n) == Placed(s.t, r1, s.x + ks[k].x, s.y + ks[k].y);
    } else {
      assert Piece(s.(r := r1)) == Placed(s.t, r1, s.x + ks[0].x, s.y + ks[0].y);
    }
  }

  /** A rotation by `a` tries the SRS kicks for r -> (r + a) % 4 and, when
      none fits, the extra a + 2 steps bring the rotation state back: the
      state is then exactly as before. */
  lemma RotateOutcome(s: State, a: int)
    requires WellFormed(s.board.cells) && IsKind(s.t) && IsRotation(s.r) && (a == 1 || a == 3)
    ensures var r1 := (s.r + a) % 4; var ks := Kick(s.r, r1, s.t);
      Rotate(s, a) == KickTo(s, r1, ks, s.r, FirstFit(s.board.cells, s.t, r1, s.x, s.y, ks, 0))
  {
    TurnBack(s.r, a);
  }

  /** Stepping by a + 2 more after a turn by `a` gives back the rotation
      state one started from. */
  lemma TurnBack(r: int, a: int)
    requires IsRotation(r) && (a == 1 || a == 3)
    ensures ((r + a) % 4 + a + 2) % 4 == r
  {
    if a == 1 {
      assert (r + 1) % 4 == if r < 3 then r + 1 else 0;
    } else {
      assert (r + 3) % 4 == if r < 1 then r + 3 else r - 1;
    }
  }

  /** Rotate as the key handler computes it: `r1` is the new rotation
      state, `ks` its kicks, `k` the first that fits, `(x, y)` the anchor
      it gives and `ok` the second test. */
  lemma RotateSteps(s: State, a: int, r1: nat, ks: seq<Cell>, k: int, x: int, y: int, ok: bool, r: int)
    requires WellFormed(s.board.cells) && IsKind(s.t) && IsRotation(s.r) && (a == 1 || a == 3)
    requires r1 == (s.r + a) % 4 && ks == Kick(s.r, r1, s.t)
    requires k == FirstFit(s.board.cells, s.t, r1, s.x, s.y, ks, 0)
    requires x == (if 0 <= k < |ks| then s.x + ks[k].x else s.x)
    requires y == (if 0 <= k < |ks| then s.y + ks[k].y else s.y)
    requires ok == Fits(s.board.cells, Placed(s.t, r1, x, y))
    requires r == if ok then r1 else (r1 + a + 2) % 4
    ensures Rotate(s, a) == s.(r := r, x := x, y := y)
  {
    TurnBack(s.r, a);
    RotateOutcome(s, a);
    KickToSteps(s, r1, ks, s.r, k, x, y, ok);
  }

  /** A rotation either changes nothing or ends on a legal piece. */
  lemma RotateKeepsLegal(s: State, a: int)
    requires WellFormed(s.board.cells) && IsKind(s.t) && IsRotation(s.r) && (a == 1 || a == 3)
    ensures Rotate(s, a) == s || Legal(Rotate(s, a))
  {
    var r1 := (s.r + a) % 4;
    RotateOutcome(s, a);
    KickToOutcome(s, r1, Kick(s.r, r1, s.t), s.r);
  }

  /** Hold swaps the active and spare kinds and respawns when it is
      available, and is then used up: a second hold before the next lock
      changes nothing. */
  lemma HoldOnce(s: State)
    ensures s.hold ==> HoldSwap(s) == s.(t := s.spare, spare := s.t, x := SpawnX, y := SpawnY, r := 0, hold := false)
    ensures !s.hold ==> HoldSwap(s) == s
    ensures HoldSwap(HoldSwap(s)) == HoldSwap(s)
  {
  }

  /** A tick does nothing once the game stopped or was restarted after it
      was scheduled. */
  lemma StaleTickIgnored(s: State, epoch: int, js: seq<int>)
    requires Inv(s) && |js| == BagSize && ValidSwaps(js)
    requires !s.running || epoch != s.game
    ensures Tick(s, epoch, js) == s
  {
  }

  /** While the game is stopped, every key but Enter is ignored. */
  lemma StoppedIgnoresKeys(s: State, cmd: Command, js: seq<int>)
    requires Inv(s) && |js| == BagSize && ValidSwaps(js)
    requires !s.running && cmd != Enter
    ensures Step(s, cmd, js) == s
  {
  }

  /** The stage and round Enter moves to: the next stage after a completed
      one (the first stage of the next round after the last stage), with
      the score kept; a fresh game, score 0, after a failed stage or after
      the last stage of the last round. */
  lemma ProgressOutcome(s: State)
    requires Inv(s)
    ensures var n := Progress(s);
      ((s.lines < WinLines || (s.stage == NumStages && s.round == NumRounds)) ==>
        n.score == 0 && n.stage == 1 && n.round == 1) &&
      ((s.lines >= WinLines && s.stage < NumStages) ==>
        n.score == s.score && n.stage == s.stage + 1 && n.round == s.round) &&
      ((s.lines >= WinLines && s.stage == NumStages && s.round < NumRounds) ==>
        n.score == s.score && n.stage == 1 && n.round == s.round + 1) &&
      Counters(n.(lines := 0))
  {
  }

  /** Enter on a running game: it stops on a fresh board, the epoch
      advances so that pending ticks are ignored. */
  lemma RestartStops(s: State, js: seq<int>)
    requires Inv(s) && |js| == BagSize && ValidSwaps(js) && s.running
    ensures Restart(s, js) == Reset(s, js).(running := false, game := s.game + 1)
  {
    assert Toggle(Reset(s, js)) == Reset(s, js).(running := false, game := s.game + 1);
  }

  /** Enter on a stopped game: it starts on a fresh board, not lost, and the
      immediate gravity tick has already moved the new piece down one row. */
  lemma RestartStarts(s: State, js: seq<int>)
    requires Inv(s) && |js| == BagSize && ValidSwaps(js) && !s.running
    ensures Restart(s, js) == Reset(s, js).(running := true, lost := false, y := SpawnY - 1)
  {
    var c := Reset(s, js);
    SpawnFitsEmpty(c.t, SpawnY - 1);
    assert Legal(c.(running := true, lost := false, y := SpawnY - 1));
  }

  /** The fresh board of a restart: empty, with the bag reshuffled and its
      first two kinds as the active and spare piece, spawned in rotation
      state 0 at column 4; lines are reset. */
  lemma RestartBoard(s: State, js: seq<int>)
    requires Inv(s) && |js| == BagSize && ValidSwaps(js)
    ensures var n := Restart(s, js);
      n.board.cells == EmptyBoard() && n.bag.kinds == Shuffled(s.bag.kinds, js) &&
      n.t == n.bag.kinds[0] && n.spare == n.bag.kinds[1] && n.cursor == 2 &&
      n.x == SpawnX && n.r == 0 && n.lines == 0 && n.running == !s.running
  {
    if s.running { RestartStops(s, js); } else { RestartStarts(s, js); }
  }

  /** The stage-completion scenario: a running game one line short of the
      target whose lock clears at least one row stops, and Enter then opens
      the next stage of the same round with the score kept. */
  lemma StageCompletion(s: State, drop: int, js: seq<int>, js2: seq<int>)
    requires Inv(s) && drop >= 0 && |js| == BagSize && ValidSwaps(js) && |js2| == BagSize && ValidSwaps(js2)
    requires s.running && s.lines == WinLines - 1 && s.stage < NumStages
    requires FullCount(StampCells(s.board.cells, Piece(s), s.t)) >= 1
    ensures var p := Place(s, drop, js);
      !p.running &&
      Restart(p, js2).stage == s.stage + 1 && Restart(p, js2).round == s.round &&
      Restart(p, js2).lines == 0 && Restart(p, js2).running &&
      Restart(p, js2).score == p.score
  {
    PlaceOutcome(s, drop, js);
    var p := Place(s, drop, js);
    ProgressOutcome(p);
    RestartStarts(p, js2);
  }

  /** A fall either moves down to a legal position or locks, after which
      the new piece is legal unless the game is lost. */
  lemma FallKeepsLegal(s: State, js: seq<int>)
    requires Inv(s) && |js| == BagSize && ValidSwaps(js)
    ensures Legal(Fall(s, js)) || Fall(s, js).lost
  {
    if !Legal(s.(y := s.y - 1)) { PlaceOutcome(s, 0, js); }
  }

  lemma HardDropKeepsLegal(s: State, js: seq<int>)
    requires Inv(s) && |js| == BagSize && ValidSwaps(js)
    ensures Legal(HardDrop(s, js)) || HardDrop(s, js).lost
  {
    var d := Drop(s);
    PlaceOutcome(d, s.y - d.y + 1, js);
  }

  /** A hard drop scores the rows fallen plus one, so at least one point
      even when the piece cannot fall at all. */
  lemma HardDropBonus(s: State, js: seq<int>)
    requires Inv(s) && |js| == BagSize && ValidSwaps(js)
    ensures var d := Drop(s);
      d.y <= s.y && HardDrop(s, js).score >= s.score + (s.y - d.y) + 1
  {
    var d := Drop(s);
    PlaceOutcome(d, s.y - d.y + 1, js);
  }

  lemma RestartKeepsLegal(s: State, js: seq<int>)
    requires Inv(s) && |js| == BagSize && ValidSwaps(js)
    ensures Legal(Restart(s, js))
  {
    RestartBoard(s, js);
    var n := Restart(s, js);
    if s.running { RestartStops(s, js); } else { RestartStarts(s, js); }
    SpawnFitsEmpty(n.t, n.y);
  }

  /** Every key but Hold keeps the active piece legal, unless the game has
      just been lost: moves and rotations only accept fitting positions,
      and a lock respawns a piece that fits or sets `lost`. */
  lemma StepKeepsPieceLegal(s: State, cmd: Command, js: seq<int>)
    requires Inv(s) && |js| == BagSize && ValidSwaps(js) && Legal(s) && cmd != KeyC
    ensures var n := Step(s, cmd, js); Legal(n) || n.lost
  {
    if cmd == Enter {
      RestartKeepsLegal(s, js);
    } else if s.running {
      match cmd
      case ArrowDown => FallKeepsLegal(s, js);
      case Space => HardDropKeepsLegal(s, js);
      case ArrowUp => RotateKeepsLegal(s, 3);
      case KeyZ => RotateKeepsLegal(s, 1);
      case _ =>
    }
  }
}
