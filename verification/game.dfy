/**
 * The page's game state (`boardState`, `gameActive`, `firstMover`) and the
 * changes the square click handler and the control button make to it, with
 * the page's text, styling and button labels left out.
 */
module Game {
  import opened Wrappers
  import opened Board
  import opened MoveEngine
  import opened Placement

  /** Who opened the game: a click on a square (`'human'`) or the control button (`'computer'`). */
  datatype Mover = Human | Computer

  /** `boardState`, `gameActive` and `firstMover` (`None` is `null`). */
  datatype State = State(board: Board, active: bool, firstMover: Option<Mover>)

  /** The state when the page loads. */
  const Start := State(EmptyBoard, false, None)

  /** The `Math.random()` values one handler call may consume: two for `placeRandom`, one for `nextMove`. */
  datatype Rolls = Rolls(place: seq<real>, pick: real)

  predicate RollsValid(rolls: Rolls) {
    |rolls.place| == 2 && ValidRolls(rolls.place) && 0.0 <= rolls.pick < 1.0
  }

  /** The part of `render()` that touches state: a detected win ends the game. */
  function Render(s: State): (r: State)
    ensures r.board == s.board && r.firstMover == s.firstMover
    ensures r.active <==> s.active && NoLineComplete(s.board)
  {
    CheckWinFinds(s.board);
    if CheckWin(s.board).Some? then s.(active := false) else s
  }

  /**
   * What the handlers maintain: before any game the board is clear and
   * nothing is active, and an active game has no completed line.
   */
  predicate Consistent(s: State) {
    && (s.firstMover.None? ==> s.board == EmptyBoard && !s.active)
    && (s.active ==> CheckWin(s.board).None?)
  }

  /**
   * Once `checkWin` reports a line, the game is over and was begun: the
   * click handler then leaves the state alone until the control button
   * clears it.
   */
  lemma WonGameIsOver(s: State)
    requires Consistent(s) && CheckWin(s.board).Some?
    ensures !s.active && s.firstMover.Some?
  {
    EmptyBoardIsClear();
    CheckWinFinds(EmptyBoard);
  }

  /** An opening position: two marks of the opener, plus the computer's reply when the human opened. */
  predicate Opening(s: State) {
    && s.active
    && CheckWin(s.board).None?
    && (s.firstMover == Some(Human) ==> |Marks(s.board, X)| == 2 && |Marks(s.board, O)| == 1)
    && (s.firstMover != Some(Human) ==> |Marks(s.board, O)| == 2 && Marks(s.board, X) == {})
  }

  /**
   * The board of the human's opening: the computer's reply, as `nextMove`
   * chooses it, on a board holding two `X`s and no `O`.
   */
  ghost predicate HumanReply(board: Board, pick: real) {
    && 0.0 <= pick < 1.0
    && exists b: Board, c: Index ::
         && |Marks(b, X)| == 2 && Marks(b, O) == {}
         && NextMove(b, pick) == Some(c)
         && board == b[c := O]
  }

  /** Some square outside a two-element set. */
  lemma OutsideTwo(placed: set<Index>)
    requires |placed| == 2
    ensures exists i: Index :: i !in placed
  {
    if 0 in placed && 1 in placed && 2 in placed {
      SubsetCardinality({0, 1, 2}, placed);
      assert false;
    }
  }

  /** After marks are dropped on a clear board, the marked squares are exactly the placed ones. */
  lemma MarksOnClearBoard(board: Board, mark: Cell, placed: set<Index>)
    requires mark != Empty
    requires forall i: Index :: i in placed ==> board[i] == mark
    requires forall i: Index :: i !in placed ==> board[i] == Empty
    ensures Marks(board, mark) == placed
    ensures forall m: Cell :: m != mark && m != Empty ==> Marks(board, m) == {}
  {
  }

  /** The computer's reply on an empty square adds one `O` and no `X`. */
  lemma MarksAfterReply(board: Board, c: Index)
    requires board[c] == Empty
    ensures Marks(board[c := O], X) == Marks(board, X)
    ensures Marks(board[c := O], O) == Marks(board, O) + {c}
  {
  }

  /** `placeRandom(boardState, mark, 2)` on the cleared board: two squares of `mark`, nothing else. */
  method DropTwo(mark: Cell, place: seq<real>) returns (board: Board)
    requires mark != Empty
    requires |place| == 2 && ValidRolls(place)
    ensures |Marks(board, mark)| == 2
    ensures forall m: Cell :: m != mark && m != Empty ==> Marks(board, m) == {}
    ensures HasEmpty(board)
  {
    EmptyBoardIsClear();
    EmptyBoardHasNineEmpty();
    var placed: set<Index>;
    board, placed := PlaceRandom(EmptyBoard, mark, 2, place);
    MarksOnClearBoard(board, mark, placed);
    OutsideTwo(placed);
  }

  /** The human-opener branch of `initGame()`: two random `X`s, then the computer's reply. */
  method HumanOpening(rolls: Rolls) returns (board: Board)
    requires RollsValid(rolls)
    ensures |Marks(board, X)| == 2 && |Marks(board, O)| == 1
    ensures HumanReply(board, rolls.pick)
  {
    board := DropTwo(X, rolls.place);
    var comp;
    comp, board := NextMoveInPlace(board, rolls.pick);
    assert comp.Some?;
    if comp.Some? {
      MarksAfterReply(board, comp.value);
      board := board[comp.value := O];
    }
  }

  /**
   * `initGame()`: clear the board, mark the game active, drop two random
   * marks of the opener, and when the human opened let the computer reply.
   * No line can be complete with at most two marks of each kind, so the game
   * stays active.
   */
  method InitGame(s: State, rolls: Rolls) returns (t: State)
    requires RollsValid(rolls)
    ensures t.firstMover == s.firstMover
    ensures Opening(t)
    ensures s.firstMover == Some(Human) ==> HumanReply(t.board, rolls.pick)
  {
    var board: Board;
    if s.firstMover == Some(Human) {
      board := HumanOpening(rolls);
    } else {
      board := DropTwo(O, rolls.place);
    }
    FewMarksNoWin(board);
    t := Render(State(board, true, s.firstMover));
  }

  /**
   * The click handler for square `i`. Outside a game, the first click
   * starts one with the human as opener and later clicks do nothing. In a
   * game, a click on an occupied square does nothing; on an empty square the
   * human's `X` goes there, and unless that ends the game the computer
   * answers with `nextMove`.
   */
  method Click(s: State, i: Index, rolls: Rolls) returns (t: State)
    requires RollsValid(rolls)
    ensures !s.active && s.firstMover.None? ==>
      t.firstMover == Some(Human) && Opening(t) && HumanReply(t.board, rolls.pick)
    ensures !s.active && s.firstMover.Some? ==> t == s
    ensures s.active && s.board[i] != Empty ==> t == s
    ensures s.active && s.board[i] == Empty ==>
      && t.firstMover == s.firstMover
      && t.board[i] == X
      && (forall j: Index :: s.board[j] != Empty ==> t.board[j] == s.board[j])
      && (t.active <==> CheckWin(t.board).None?)
    ensures s.active && s.board[i] == Empty && CheckWin(s.board[i := X]).Some? ==>
      t.board == s.board[i := X]
    ensures s.active && s.board[i] == Empty && CheckWin(s.board[i := X]).None? && HasEmpty(s.board[i := X]) ==>
      exists c: Index :: && c != i && s.board[c] == Empty
                         && NextMove(s.board[i := X], rolls.pick) == Some(c)
                         && t.board == s.board[i := X][c := O]
    ensures s.active && s.board[i] == Empty && !HasEmpty(s.board[i := X]) ==>
      t.board == s.board[i := X]
    ensures Consistent(s) ==> Consistent(t)
  {
    if !s.active {
      if s.firstMover.None? {
        t := InitGame(s.(firstMover := Some(Human)), rolls);
      } else {
        t := s;
      }
      return;
    }
    if s.board[i] == Empty {
      t := Render(s.(board := s.board[i := X]));
      if t.active {
        var comp, board := NextMoveInPlace(t.board, rolls.pick);
        if comp.Some? {
          board := board[comp.value := O];
        }
        t := Render(t.(board := board));
      }
    } else {
      t := s;
    }
  }

  /**
   * The control button. With no game begun it starts one with the computer
   * as opener; otherwise it is "Clear": the board is emptied, the game is
   * not active, and no opener is recorded.
   */
  method Control(s: State, rolls: Rolls) returns (t: State)
    requires RollsValid(rolls)
    ensures s.firstMover.None? ==> t.firstMover == Some(Computer) && Opening(t)
    ensures s.firstMover.Some? ==> t == Start
    ensures Consistent(s) ==> Consistent(t)
  {
    if s.firstMover.None? {
      t := InitGame(s.(firstMover := Some(Computer)), rolls);
    } else {
      FewMarksNoWin(EmptyBoard);
      t := Render(State(EmptyBoard, false, None));
    }
  }
}
