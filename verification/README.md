# Tic-tac-toe against a one-move-lookahead computer, in Dafny

This project models the game logic of a browser tic-tac-toe page (`tictactoe.js`). The human plays `X` and the computer plays `O`. The model covers:

- **Win detection** (`checkWin`). The board is nine squares. The function scans a fixed table of eight lines: three rows, three columns, two diagonals. It reports the first line whose three squares hold the same non-empty mark, together with that mark.
- **The computer's move** (`nextMove`). It tries, in square order, every empty square where an `O` would complete a line. If there is none, it tries every empty square where an `X` would complete a line (a block). If there is none of those either, it picks a random empty square. Each probe writes the mark into the board, calls `checkWin`, and writes the empty square back.
- **`placeRandom`**. It drops `count` marks into distinct, randomly chosen empty squares.
- **The page's state**. This is `boardState`, `gameActive` and `firstMover`, and how they change under `initGame`, the square click handler and the control button ("Start" / "Clear").

Modules:

- `Wrappers`: `Option`, used for the source's `null` / `undefined`.
- `Board`: cells, the line table, `CheckWin`, and its characterisation.
- `MoveEngine`: the empty-square list, probes, `NextMove` as a pure function, and `NextMoveInPlace`. The method follows the source's write-probe-restore loops and is proved equal to the pure function.
- `Placement`: `PlaceRandom`.
- `Game`: `State`, `InitGame`, `Click`, `Control`, and the invariant they keep.
- `Scenarios`: concrete positions.

Randomness is a parameter. Each `Math.random()` call becomes a `real` roll in `[0, 1)`. The chosen list position is `Floor(roll * n)`, which is the source's `Math.floor(Math.random() * n)`. `FallbackReachesEveryEmpty` shows that this parameterisation rules out no empty square.

Four behaviours a reader might expect are not what `tictactoe.js` does, and the model follows the code:

- There is no `applyMove(state, idx)` operation, no alternating `turn` field and no saved `{board, turn}` format. The human's move is written inside the click handler, and the computer replies in the same handler.
- The computer looks one move ahead, once for each mark. It does not search two plies.
- A full board with no line is not a terminal state: `gameActive` stays true. Further clicks change nothing only because every square is occupied. `Click` states exactly that.
- The move engine does mutate its input: it writes each probe into the board and writes the empty square back. `NextMoveInPlace` models the mutation and proves that the board afterwards equals the board before.

## Model

| member | source | states |
|---|---|---|
| Board.FirstWinFinds | tictactoe.js:18-24 | Scanning the table from position `from` finds nothing exactly when no line at or after `from` is complete. Otherwise it returns the first complete line at or after `from`, with the mark on its first square as winner. |
| Board.CheckWinFinds | tictactoe.js:12-25 | `checkWin` returns null exactly when none of the eight lines has three equal non-empty squares. Otherwise the winner is non-empty, all three squares of `combo` hold it, and `combo` is the first complete line in table order (rows, then columns, then diagonals). |
| Board.LinesHaveThreeCells | tictactoe.js:13-17 | Every entry of the line table covers three distinct squares. |
| Board.FewMarksNoWin | tictactoe.js:20 | A line is won only with three squares of one mark, so a board with at most two `X` and at most two `O` has no winner. |
| MoveEngine.Empties | tictactoe.js:48 | The `empties` list holds exactly the empty squares, in strictly ascending order. |
| MoveEngine.EmptiesCount | tictactoe.js:71 | The `empties` list has one entry per empty square. |
| MoveEngine.Pick | tictactoe.js:49 | `Math.floor(r * n)` with `r` in `[0, 1)` and `n > 0` is a valid position `j < n`, with `j <= r * n < j + 1`. |
| MoveEngine.FirstProbe | tictactoe.js:34-40 | One probing loop returns the smallest square at or after `from` that is empty and where placing the mark makes `checkWin` report a line. It returns nothing exactly when no such square exists. |
| MoveEngine.NextMove | tictactoe.js:33-50 | The result is an empty square, and there is one exactly when the board has an empty square. If some `O` placement completes a line, the result is the smallest such square. Otherwise, if some `X` placement completes a line, the result is the smallest such square. |
| MoveEngine.ProbeRestores | tictactoe.js:36-38 | Writing `''` back into a probed square that was empty restores the board exactly. |
| MoveEngine.NextMoveInPlace | tictactoe.js:33-50 | Run as written, with marks placed in the board and removed again on both the return path and the continue path, `nextMove` hands back the board unchanged. Its answer equals `NextMove`. |
| MoveEngine.ProbeCompletesLineThrough | tictactoe.js:35-37 | Take a board with no completed line. A probe with mark `m` on an empty square succeeds exactly when some line through that square has its other two squares holding `m`. The reported winner is then `m`, and the reported line passes through the probed square. |
| MoveEngine.ProbesAreCompletions | tictactoe.js:35-37 | On a board with no completed line, the squares where a probe with `m` succeeds are exactly the empty squares that finish a line already holding two `m`s. |
| MoveEngine.NextMoveTakesWin | tictactoe.js:34-40 | During play (no line complete), if `i` is the smallest empty square that finishes a line of `O`s, the computer plays `i`. |
| MoveEngine.NextMoveBlocks | tictactoe.js:41-47 | During play, if no empty square finishes a line of `O`s and `i` is the smallest empty square that finishes a line of `X`s, the computer blocks at `i`. |
| MoveEngine.EmptiesEmptyIffFull | tictactoe.js:48-49 | The `empties` list is empty exactly when the board has no empty square. |
| MoveEngine.FallbackReachesEveryEmpty | tictactoe.js:48-49 | When no placement of either mark wins, every empty square is the computer's move for some roll. |
| Placement.RemoveAtKeepsAscending | tictactoe.js:73 | Splicing one entry out of the ascending `empties` list leaves an ascending list that is one shorter. It contains every other entry and not the removed one. |
| Placement.PlaceRandom | tictactoe.js:70-76 | Only squares in `placed` change. Each of them was empty and now holds `mark`. Their number is `count` (0 if negative), or the number of empty squares if `count` is larger. |
| Game.Render | tictactoe.js:58-68 | `render()` changes neither the board nor `firstMover`. Afterwards the game is active exactly when it was active and no line of the table is complete. |
| Game.DropTwo | tictactoe.js:84-90 | After clearing and `placeRandom(boardState, mark, 2)`, the board holds exactly two squares of `mark`, none of the other mark, and still has an empty square. |
| Game.HumanOpening | tictactoe.js:84-87 | After two random `X`s and the computer's reply, the board has exactly two `X` and one `O`. The `O` is on the square `nextMove` returns for the two-`X` board, so it is a forced block when the two `X`s share a line. |
| Game.InitGame | tictactoe.js:78-92 | `initGame` keeps `firstMover` and leaves the game active with no completed line. The board holds two `X` and one `O` when the human opened, and two `O` and no `X` otherwise. When the human opened, the `O` is `nextMove`'s answer on the board with the two `X`s. |
| Game.Click | tictactoe.js:94-112 | Outside a game, the first click starts one with the human as opener (with `InitGame`'s opening, the computer's reply included), and later clicks change nothing. In a game, a click on an occupied square changes nothing. A click on an empty square puts `X` there and overwrites no mark. If that `X` wins, the computer does not reply. Otherwise the computer replies at an empty square chosen by `NextMove`. Afterwards the game is active exactly when no line is complete. Each click preserves `Consistent`. |
| Game.Control | tictactoe.js:114-126 | With no opener recorded, the button starts a game with the computer as opener. Otherwise it resets to an all-empty board, `gameActive` false and `firstMover` null. It preserves `Consistent`. |
| Game.WonGameIsOver | tictactoe.js:63-66 | In a consistent state, a board on which `checkWin` reports a line belongs to a begun game that is no longer active, so clicks leave it alone until "Clear". |
| Scenarios.WinBeatsBlock | tictactoe.js:34-40 | On `O O _ / X X _ / _ _ _` the computer plays square 2, taking the win rather than blocking. |
| Scenarios.BlockTopRow | tictactoe.js:41-47 | On a board with only `X X _` in the top row, the computer blocks at square 2. |
| Scenarios.FullBoardDraw | tictactoe.js:18-24 | `X O X / X O O / O X X` has no completed line and no empty square. |
| Scenarios.OneEmptySquare | tictactoe.js:48-49 | With one empty square left, the computer plays there for every roll. |

## Left out

- DOM work is not modelled: cell text, the `win` highlight class, the button's label and `disabled` flag, and listener wiring (tictactoe.js:52-53, 58-62, 65, 81-82, 94, 105, 114, 123-124). Only the effects on `boardState`, `gameActive` and `firstMover` are kept.
- `render()` is kept only for its effect on state (`Game.Render`). Its drawing of the cells and the highlight is not modelled.
- The distribution of `Math.random` is not modelled. Each call becomes a roll in `[0, 1)` passed in by the caller. IEEE doubles are idealised as reals.
- The click handler reads the square number from `cell.dataset.cell`. The model takes it as an `Index` in `0..8`, which is all the page's nine cells can supply.
- `applyMove`, turn alternation and JSON persistence are not modelled, because `tictactoe.js` has none of them.
- Game.InitGame: states which square the computer's reply takes (`nextMove`'s answer), but for the two random marks only how many there are, not which squares. Those squares depend on the rolls. `Placement.PlaceRandom` states that they were empty and now hold the mark, not where they are.
- Placement.PlaceRandom: takes one roll per round, so it needs at least `count` rolls. Running out of empty squares is modelled (no square changes), and so is a negative `count`.
