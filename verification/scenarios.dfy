/** Concrete positions: the behaviour the game is expected to show on them. */
module Scenarios {
  import opened Wrappers
  import opened Board
  import opened MoveEngine

  /** With `O O _ / X X _ / _ _ _`, the computer takes square 2 and wins rather than blocking at 5. */
  lemma WinBeatsBlock(roll: real)
    requires 0.0 <= roll < 1.0
    ensures NextMove([O, O, Empty, X, X, Empty, Empty, Empty, Empty], roll) == Some(2)
  {
    var board: Board := [O, O, Empty, X, X, Empty, Empty, Empty, Empty];
    assert Complete(board[2 := O], LineAt(0));
    CheckWinFinds(board[2 := O]);
    assert Probe(board, O, 2);
    assert LeastProbe(board, O, 2);
  }

  /** With `X X _` on the top row and nothing else, the computer blocks at square 2. */
  lemma BlockTopRow(roll: real)
    requires 0.0 <= roll < 1.0
    ensures NextMove([X, X, Empty, Empty, Empty, Empty, Empty, Empty, Empty], roll) == Some(2)
  {
    var board: Board := [X, X, Empty, Empty, Empty, Empty, Empty, Empty, Empty];
    CheckWinFinds(board);
    forall i: Index
      ensures !Probe(board, O, i)
    {
      if board[i] == Empty {
        ProbeCompletesLineThrough(board, O, i);
      }
    }
    assert Complete(board[2 := X], LineAt(0));
    CheckWinFinds(board[2 := X]);
    assert LeastProbe(board, X, 2);
  }

  /** `X O X / X O O / O X X` is full and has no completed line: a draw. */
  lemma FullBoardDraw()
    ensures CheckWin([X, O, X, X, O, O, O, X, X]).None?
    ensures !HasEmpty([X, O, X, X, O, O, O, X, X])
  {
    var board: Board := [X, O, X, X, O, O, O, X, X];
    CheckWinFinds(board);
  }

  /** With a single empty square left, the computer plays there whatever the roll. */
  lemma OneEmptySquare(board: Board, i: Index, roll: real)
    requires 0.0 <= roll < 1.0
    requires board[i] == Empty
    requires forall j: Index :: j != i ==> board[j] != Empty
    ensures NextMove(board, roll) == Some(i)
  {
  }
}
