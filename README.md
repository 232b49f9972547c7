# Tetris game-rule engine, modelled in Dafny

This project models the rule engine of the browser Tetris game in `main.js`. It covers:

- the seven piece kinds and their quarter-turns;
- the Super Rotation System wall kicks;
- the legality test against the 24 x 10 board;
- locking a piece, with the one-pass row compaction and scoring;
- the seven-piece bag and its in-place shuffle;
- the player commands, the gravity tick guarded by the game epoch, and the Enter key's restart/progression rules.

The model has two layers.

- **Pure layer.** Modules `Pieces`, `Kicks`, `Playfield`, `Bag` and `Rules` describe the game as a pure state machine (`Rules.State`, `Rules.Step`, `Rules.Tick`) and prove the game's properties about it.
- **Imperative layer.** Module `Engine` holds the game object as `main.js` runs it.
  - `Engine.Game` keeps the scalar fields of the game record, the bag as an `array<int>` shuffled in place, and the board as an `array2<int>` in a `Board` object. The board's row-compaction loop rewrites rows in place, as `place` in `main.js` does.
  - Every method of `Game` is proved to leave exactly the state (`Abs()`) that its counterpart function in `Rules`, named in the method's row of the table below, computes from the state before. The names differ in places (`HoldPiece` is `Rules.HoldSwap`, `Update` is `Rules.Tick`, `Process` is `Rules.Step`, `DrawNext` is `Rules.Draw`, `Reshuffle` is `Rules.Refill`, `Advance` is `Rules.Progress` with lines set to 0). `Game.Turned` returns values rather than changing the state, and the constructor ends in `Rules.ClearBoard(Rules.Initial(), js)`. The composite methods also keep the invariant `Valid()`.

Modelling decisions:

- Randomness comes in as a parameter. `js[i]` is the index the shuffle swaps with at step `i`, as `Math.floor(Math.random() * i)` yields it: 0 at step 0 and some `j < i` otherwise (`Bag.ValidSwaps`).
- Key codes become the `Rules.Command` datatype. Up is `ArrowUp` (steps the rotation state by 3), Z is `KeyZ` (by 1), and every other key is `Other`.
- The slot `t_`, which is both the "next" and the "held" piece, is the field `spare`.
- The pivots of I and O are half-integers, so they are stored doubled (`Pieces.Centers2`) and all arithmetic stays in `int`.
- JavaScript numbers are doubles, but every value here is a small integer, so it is modelled as `int`.

Where the code departs from standard Tetris (the rules of the Tetris guideline: a uniform 7-bag, refilled empty rows on top, hold available again for each new piece, a hard-drop bonus per row fallen), the model follows the code as written:

- **Compaction.** After compaction, a row above the packed rows that was full is blank. A row there that was not full keeps its old cells; it is not refilled empty (`Playfield.CompactedTop`).
- **Shuffle.** The shuffle draws `j < i`. That is Sattolo's variant, not a uniform Fisher–Yates: no kind ever keeps its slot from one bag to the next (`Bag.ShuffledMovesEveryKind`).
- **Up key.** The Up key is commented "rotate CW", but it steps the rotation state by 3, i.e. one counter-clockwise turn in the model's quarter-turn direction.
- **Hold across Enter.** `clear_board` and the Enter handler never set `G.hold` back to true, so a hold used before Enter stays used up on the new board until the first lock. The guideline hold rule has hold become available again with each new piece. The model follows the code: `Rules.ClearBoard` leaves `hold` as it was (`Rules.ClearBoardOutcome`).
- **Hard-drop bonus.** The Space handler scores `y0 - yf + 1` for a drop from row `y0` to row `yf` (main.js:213-216), one more than the rows fallen, so a hard drop that falls no row still scores 1 (`Rules.HardDropBonus`).
- **Enter after a loss.** Enter decides between a fresh game and the next stage from `lines`, `stage` and `round` alone. A lock that reaches 25 lines and also blocks the next spawn (so the game is lost) is still followed by the next stage.

## Model

| member | source | states |
|---|---|---|
| Pieces.Spawn | main.js:7-11 | each kind's spawn orientation is four template slots, all within columns -1..2 and rows 0..1 of the anchor |
| Pieces.Turn | main.js:365 | one quarter-turn about the kind's pivot: in doubled coordinates relative to the pivot, the offset (u, v) becomes (v, -u); its other properties are in `Pieces.TurnKeepsReach` and `Pieces.RotatedPeriodic` |
| Pieces.Rotated | main.js:359-369 | the cells after `r` quarter-turns: its own contract states only that there are four; its meaning is stated by `Pieces.RotatedPiece`, `Pieces.RotatedPeriodic`, `Pieces.RotatedReach` and `Pieces.RotatedBox` |
| Pieces.RotatedPiece | main.js:359-369 | the in-place loop that turns all four cells `r` times yields `Rotated(t, r)`, the quarter-turn about the kind's centre applied `r` times to the spawn cells |
| Pieces.RotatedPeriodic | main.js:359-369 | four quarter-turns give back the cells one started from |
| Pieces.TurnKeepsReach | main.js:359-369 | a quarter-turn keeps each cell's distance from the centre (maximum norm) |
| Pieces.RotatedReach | main.js:359-369 | in every rotation state every cell is within distance 3 (doubled units) of the centre |
| Pieces.RotatedBox | main.js:359-369 | in every rotation state all four cells lie within columns -1..2 and rows -2..2 of the anchor |
| Pieces.SquareSymmetric | main.js:13-14 | the O piece, turning about (0.5, 0.5), occupies the same cell set in every rotation state |
| Kicks.Kick | main.js:17-28 | the kick list has exactly five offsets, the first is (0, 0), and all lie in [-2, 2] x [-2, 2] |
| Kicks.RotationBits | main.js:20-23 | on rotation states, the test `r1 % 2 == 1` holds exactly for 1 and 3, bit `r1 & 2` (on `bv8`) is set exactly when r1 >= 2, and `(r1 & 2) == (r2 & 2)` holds exactly when r1 and r2 are on the same side of 2; these are the forms `Kicks.Kick` uses |
| Kicks.KickIsSrs | main.js:16-28 | for every adjacent transition and kind, the closed form equals the published SRS table row (the I table for I, the common table otherwise) |
| Kicks.KickReversed | main.js:17-28 | the reverse transition tries the same offsets negated |
| Playfield.CellFree | main.js:235-237 | no contract of its own: the per-cell condition of `check` (inside columns 0..9 and rows 0..27, and on an empty cell below row 24); `Engine.Board.Check` is proved to decide it |
| Playfield.Fits | main.js:229-241 | no contract of its own: every cell of the piece passes `CellFree`; `Engine.Board.Check` is proved to compute it, and `Playfield.StampBlocks` shows a locked piece no longer passes it |
| Playfield.FitsLowerBound | main.js:229-241 | a piece that passes the test has its anchor at most two rows below the floor, so a hard drop stops |
| Playfield.SpawnFitsEmpty | main.js:229-241 | on an empty board every kind passes the test in spawn orientation at column 4 at any height up to row 26 |
| Playfield.StampCell | main.js:312-321 | writing one cell, or dropping it when it is off the board, keeps the board 24 x 10 |
| Playfield.StampCells | main.js:312-324 | stamping every cell in order keeps the board 24 x 10; what it writes is stated by `Playfield.StampWrites` and `Playfield.StampKeepsOtherCells` |
| Playfield.StampKeepsOtherRows | main.js:312-321 | stamping changes only rows that hold one of the stamped cells |
| Playfield.StampWrites | main.js:312-324 | after stamping, every stamped cell that lies on the board holds the stamped value |
| Playfield.StampKeepsOtherCells | main.js:312-324 | after stamping, every board cell that is not one of the stamped cells holds what it held before |
| Playfield.StampBlocks | main.js:324 | once a piece with a cell on the board is stamped with its kind, the same piece no longer passes the legality test |
| Playfield.Compacted | main.js:327-341 | no contract of its own: the board the compaction loop leaves; its meaning is stated by `Playfield.CompactedShift`, `Playfield.CompactedOrder`, `Playfield.CompactedTop` and `Playfield.CompactedClean` |
| Playfield.CompactingStep | main.js:328-341 | a loop iteration only reads row y, which is still unchanged, and writes exactly one row: row y blanked if full, else row y copied to y minus the full rows below |
| Playfield.CompactedShift | main.js:328-341 | a row that was not full moves down by the number of full rows beneath it |
| Playfield.CompactedOrder | main.js:328-341 | rows that were not full keep their relative order |
| Playfield.CompactedTop | main.js:328-341 | with `total` rows cleared, each of the top `total` rows is blank if it was full and keeps its old cells if it was not |
| Playfield.CompactedClean | main.js:328-341 | compaction leaves a 24 x 10 board with no full row |
| Playfield.KeptLength | main.js:328-341 | the rows kept plus the rows cleared are all the rows |
| Playfield.FullCountIsCard | main.js:336 | the cleared counter equals the number of full rows |
| Playfield.ClearedAtMost | main.js:324-343 | stamping onto a board with no full row fills at most as many rows as cells stamped, so at most four rows clear and `POINTS[cleared]` is in range |
| Playfield.EmptyBoardClean | main.js:298-305 | the blank board is 24 x 10 with no full row |
| Playfield.Settle | main.js:324-341 | the stamped and compacted board is 24 x 10 with no full row |
| Playfield.Cleared | main.js:324-341 | the rows a lock clears are at most the cells locked |
| Bag.ShuffleDown | main.js:243-248 | the swap steps from `n - 1` down to 0 keep the length; `Bag.ShuffleDownPermutes` states that they keep the multiset |
| Bag.Shuffled | main.js:243-248 | no contract of its own: the whole shuffle; `Bag.Shuffle` is proved to compute it and `Bag.ShuffledIsBag`/`Bag.ShuffledMovesEveryKind` state what it yields |
| Bag.Shuffle | main.js:243-248 | the in-place swap loop leaves the array equal to `Shuffled(old contents, js)` |
| Bag.ShuffleDownPermutes | main.js:243-248 | every run of the loop's swaps keeps the multiset of the contents |
| Bag.ShuffledIsBag | main.js:243-248 | whatever the draws, a permutation of the seven kinds stays one |
| Bag.BagHoldsKinds | main.js:86 | every slot of the bag holds a kind 0..6 |
| Bag.BagDistinct | main.js:86 | no kind appears twice in the bag |
| Bag.ShuffledMovesEveryKind | main.js:243-248 | with draws below the step index, the new bag order shares no position with the previous one |
| Rules.Initial | main.js:84-89 | the game record before its first board: a 24 x 10 board, the bag 0..6 (a permutation of the seven kinds), counters in range, stopped, not lost, hold available, lines and score 0 |
| Rules.StartPiece | main.js:156 | no contract of its own: the assignment of (4, 20, 0) to the piece; `Engine.Game.StartPiece` is proved equal to it |
| Rules.ClearBoardOutcome | main.js:298-310 | after clear_board every cell of the 24 x 10 board is empty; the bag holds the same multiset of kinds as before; the active and spare kinds are its first two entries and the cursor is 2; the piece is at (4, 20) in state 0; hold, the flags and the counters are as they were |
| Rules.ClearBoardKeepsInv | main.js:298-310 | a cleared board keeps the invariant: no full row, the bag a permutation, active and spare pieces kinds |
| Rules.Lock | main.js:324-343 | locking leaves a 24 x 10 board with no full row, never lowers lines or score (score gains at least the drop bonus), and changes nothing but board, lines and score: piece position, rotation state, hold, bag, kinds, cursor, flags, stage, round and epoch are as they were; the exact gains in lines and score are stated by `Rules.PlaceOutcome` |
| Rules.Refill | main.js:345-348 | no contract of its own: the reshuffle and `G.i = 0` at the end of the bag; `Rules.Draw` and `Rules.DrawKeepsBag` state its effect, and `Engine.Game.Reshuffle` is proved equal to it |
| Rules.Draw | main.js:344-348 | the spare kind becomes active, the cursor stays inside the bag, board and counters are unchanged |
| Rules.DrawKeepsBag | main.js:344-348 | drawing keeps the bag a permutation of the seven kinds and the new spare piece a kind |
| Rules.Ready | main.js:350-351 | no contract of its own: hold becomes available and `lost` is set to the failed legality test; `Rules.Respawn` and `Rules.PlaceOutcome` state its effect |
| Rules.Stop | main.js:352-355 | no contract of its own: running stops and the epoch advances; `Rules.Respawn` and `Rules.PlaceOutcome` state its effect |
| Rules.Respawn | main.js:349-356 | respawn sets state 0, never lowers the epoch, leaves a running game below 25 lines and a lost game stopped, and keeps board, bag, kinds, cursor and counters |
| Rules.Place | main.js:323-357 | a lock keeps the whole invariant |
| Rules.PlaceOutcome | main.js:323-357 | at most four rows clear; the board is the stamped board compacted; lines and score grow by the rows cleared, their points and the drop bonus; the spare becomes active and the next bag entry the spare, the bag reshuffled exactly when used up; the piece respawns at (4, 20, 0) with hold available; `lost` is exactly "the new piece does not fit"; the game stops and the epoch advances iff lost or 25 lines are reached |
| Rules.Move | main.js:190-195 | a shift either changes nothing or moves the piece by d columns to a legal position, and when the shifted piece fits it is always moved |
| Rules.FirstFit | main.js:205-209 | the search from offset `k` ends between `k` and the end of the list; which offset it returns is stated by `Rules.FirstFitFound`, `Rules.FirstFitSkips` and `Rules.FirstFitAt` |
| Rules.FirstFitFound | main.js:205-209 | the offset the kick search returns fits, and any offset it passes over did not |
| Rules.FirstFitSkips | main.js:205-209 | no offset before the one the search returns fits |
| Rules.FirstFitAt | main.js:205-209 | the search returns the first fitting offset in list order (or the end when none fits) |
| Rules.KickTo | main.js:205-210 | no contract of its own: the anchor after the kick loop and the final legality test that keeps the turn or steps the rotation state back; `Rules.KickToOutcome` states its effect |
| Rules.KickToOutcome | main.js:205-210 | with kicks from (0, 0): the offset taken is the first that fits and the piece is then legal; when none fits the position is where it was and only the rotation state changes |
| Rules.Rotate | main.js:200-211 | a rotation ends in a rotation state 0..3 and changes only rotation state and position |
| Rules.TurnBack | main.js:204-210 | for a in {1, 3}, stepping by a + 2 after a step by a gives back the starting state |
| Rules.RotateOutcome | main.js:200-211 | when no kick fits, the rotation state returns to the one before the key, so the whole state is unchanged |
| Rules.RotateKeepsLegal | main.js:200-211 | a rotation changes nothing or ends on a legal piece |
| Rules.Fall | main.js:144-150 | moving down one row or locking keeps the invariant |
| Rules.FallSteps | main.js:196-199 | when the row below fits the piece moves down one row; otherwise it stays where it was and locks with no bonus |
| Rules.Landing | main.js:213-215 | the landing row is at or below the start; every row from it to the start fits and the row below it does not |
| Rules.Drop | main.js:213-215 | a hard drop moves the piece straight down to the landing row and changes nothing else |
| Rules.HardDrop | main.js:212-217 | a hard drop keeps the invariant |
| Rules.HardDropBonus | main.js:212-217 | the bonus is the rows fallen plus one, so the score grows by at least one even with no fall |
| Rules.HoldSwap | main.js:219-224 | hold either keeps or swaps the active and spare kinds, keeps the rotation state or resets it to 0, and keeps board, bag, cursor, counters and flags |
| Rules.HoldOnce | main.js:219-224 | an available hold swaps the kinds, respawns at (4, 20, 0) without a legality test and uses up hold; an unavailable hold changes nothing; so holding twice equals holding once |
| Rules.Tick | main.js:144-154 | a gravity tick keeps the invariant |
| Rules.StaleTickIgnored | main.js:144-145 | a tick scheduled in another epoch, or one arriving while stopped, changes nothing |
| Rules.Progress | main.js:161-173 | the stage change keeps board, bag, running flag and epoch |
| Rules.ProgressOutcome | main.js:161-173 | fewer than 25 lines or the last stage of the last round: score 0, stage 1, round 1; otherwise the next stage with the score kept, or after stage 10 the first stage of the next round; stage and round stay in range |
| Rules.Reset | main.js:161-175 | after the stage change and board clear, the invariant holds, lines are 0, and running, lost and the epoch are unchanged |
| Rules.Toggle | main.js:176-185 | running flips and board and bag are kept; a start clears `lost` and keeps the epoch; a stop keeps `lost` and advances the epoch; the invariant is kept when it held before and lines are below 25 (as they are after the Enter handler resets them) |
| Rules.Restart | main.js:160-187 | Enter keeps the invariant |
| Rules.RestartStops | main.js:176-185 | Enter on a running game stops it on the fresh board with the epoch advanced |
| Rules.RestartStarts | main.js:176-181 | Enter on a stopped game starts it on the fresh board, not lost, with the piece already one row down from the immediate tick |
| Rules.RestartBoard | main.js:160-187 | after Enter the board is empty, the bag is the previous bag reshuffled, the first two kinds are active and spare, the cursor is 2, the piece is at column 4 in state 0, lines are 0 and running has flipped |
| Rules.RestartKeepsLegal | main.js:160-187 | after Enter the active piece is legal |
| Rules.StageCompletion | main.js:342-356 | a running game one line short of 25 whose lock clears a row stops; Enter then opens the next stage of the same round, running, with lines 0 and the score kept |
| Rules.Step | main.js:158-227 | every key press keeps the invariant: bag a permutation, kinds in range, cursor in the bag, stage 1..10, round 1..6, no full row, a running game below 25 lines, a lost game stopped |
| Rules.StoppedIgnoresKeys | main.js:188 | while the game is stopped every key but Enter changes nothing |
| Rules.FallKeepsLegal | main.js:144-150 | after a fall the piece is legal unless the game was just lost |
| Rules.HardDropKeepsLegal | main.js:212-217 | after a hard drop the new piece is legal unless the game was just lost |
| Rules.StepKeepsPieceLegal | main.js:158-227 | every key but hold keeps the active piece legal, unless the game has just been lost |
| Rules.Period | main.js:153 | the gravity period is an entry of the `TIMES` table (the stage index is in range) |
| Rules.TimesDecrease | main.js:34 | later stages have strictly shorter gravity periods |
| Engine.Board.Check | main.js:229-241 | the loop returns true exactly when every cell of the piece is inside columns 0..9 and rows 0..27 and, below row 24, on an empty cell |
| Engine.Board.LandingRow | main.js:213-215 | the do-while loop stops on `Rules.Landing`, the landing row |
| Engine.Board.FirstKick | main.js:205-209 | the kick loop stops at `Rules.FirstFit`, the first offset in order at which the piece fits |
| Engine.Board.StampPiece | main.js:312-324 | the loop writes the piece's kind at each of its on-board cells, in order, and leaves the array in step with the grid |
| Engine.Board.Put | main.js:324 | the write `G.B[y][x] = G.t`: exactly that cell of the grid changes, and the array stays in step with the grid |
| Engine.Board.RowFilled | main.js:329-335 | the scan reports exactly whether the row is full |
| Engine.Board.CopyRow | main.js:338-340 | the copy writes one row (blank or the source row) and no other |
| Engine.Board.ClearRows | main.js:327-341 | the in-place pass leaves `Compacted(old board)` and returns the number of full rows |
| Engine.Board.Blank | main.js:301-305 | every cell of the array becomes `BLK` |
| Engine.Game.constructor | main.js:84-139 | the game record starts at its initial values with the bag 0..6; after the first board clear, the state is `Rules.ClearBoard(Rules.Initial(), js)` and the invariant holds |
| Engine.Game.StartPiece | main.js:156 | the piece moves to (4, 20) in state 0 |
| Engine.Game.ClearBoard | main.js:298-310 | the state becomes `Rules.ClearBoard` of the old state |
| Engine.Game.Lock | main.js:324-343 | the state becomes `Rules.Lock` of the old state |
| Engine.Game.Reshuffle | main.js:345-348 | the state becomes `Rules.Refill` of the old state (bag shuffled in place, cursor 0) |
| Engine.Game.DrawNext | main.js:344-348 | the state becomes `Rules.Draw` of the old state |
| Engine.Game.Respawn | main.js:349-356 | the state becomes `Rules.Respawn` of the old state |
| Engine.Game.Place | main.js:323-357 | the state becomes `Rules.Place` of the old state, and the invariant holds |
| Engine.Game.Move | main.js:190-195 | the state becomes `Rules.Move` of the old state |
| Engine.Game.Fall | main.js:196-199 | the state becomes `Rules.Fall` of the old state, and the invariant holds |
| Engine.Game.Turned | main.js:202-210 | the rotation state and anchor computed are those of `Rules.Rotate` |
| Engine.Game.Rotate | main.js:200-211 | the state becomes `Rules.Rotate` of the old state |
| Engine.Game.HardDrop | main.js:212-217 | the state becomes `Rules.HardDrop` of the old state, and the invariant holds |
| Engine.Game.HoldPiece | main.js:219-224 | the state becomes `Rules.HoldSwap` of the old state |
| Engine.Game.Update | main.js:144-152 | the state becomes `Rules.Tick` of the old state for the tick's epoch, and the invariant holds |
| Engine.Game.Advance | main.js:161-174 | the state becomes `Rules.Progress` of the old state, with lines 0 |
| Engine.Game.Reset | main.js:161-175 | the state becomes `Rules.Reset` of the old state |
| Engine.Game.Toggle | main.js:176-185 | the state becomes `Rules.Toggle` of the old state |
| Engine.Game.Restart | main.js:160-187 | the state becomes `Rules.Restart` of the old state, and the invariant holds |
| Engine.Game.Process | main.js:158-227 | the state becomes `Rules.Step` of the old state for the command, and the invariant holds |

## Left out

- Drawing: `main`'s page setup, `draw`, `draw_cell`, `fill_el`, `print_board`, the end-of-game message, and the `draw` calls after each key and tick. They are output only.
- The field `m` (20 drawn rows). Only drawing reads it; the legality test uses all 24 rows of the board.
- Audio: `play_note`, the note tables and the oscillator calls on start, stop and loss. They go through a foreign API with floating-point durations.
- The timer: `update` reschedules itself with `window.setTimeout` while running. A tick is a call of `Engine.Game.Update` carrying its epoch, and the scheduling itself is not modelled.
- Randomness: `Math.random` in `shuffle` is replaced by the swap indices `js`. No claim about the distribution of bags is made.
- Key-code decoding: the codes 13, 37, 39, 40, 38, 90, 32 and 67 are the constructors of `Rules.Command`.
- Engine.Board.constructor: it starts the array blank, while the cells of `G.B` in `main.js` start undefined. The first `clear_board` overwrites every cell before any read, so nothing observable differs.
- Engine.Game.Turned: the kick loop computes the new anchor in local variables and stores it once. `main.js` moves `G.x`/`G.y` on each trial and moves them back. Nothing runs between the trials, so the state after the key is the same.
- Engine.Board.LandingRow: the hard-drop do-while steps a local row rather than `G.y`, for the same reason.
- Rules.KickToSteps, Rules.RotateSteps, Rules.FallSteps, Rules.HardDropSteps: these restate `Rules.KickTo`, `Rules.Rotate`, `Rules.Fall` and `Rules.HardDrop` in the values the engine's methods compute, for those methods' proofs. They add no property of their own; `Rules.FallSteps` has a row because it states both branches of the soft drop.
- Rules.ClearBoard: the function carries no contract of its own. What it does is stated by `Rules.ClearBoardOutcome` and `Rules.ClearBoardKeepsInv`. `Rules.ClearBoardSteps` only restates the function in the terms of the engine's `ClearBoard` method, for that method's proof, and has no row.
