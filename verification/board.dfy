/** The 3x3 board, its eight winning lines, and win detection (`checkWin`). */
module Board {
  import opened Wrappers

  /** One square: the source stores '' (falsy), 'X' or 'O'. */
  datatype Cell = Empty | X | O

  /** A square's position, row-major: row = i / 3, column = i % 3. */
  type Index = i: int | 0 <= i < 9

  /** The board is always nine squares long. */
  type Board = b: seq<Cell> | |b| == 9
    witness [Empty, Empty, Empty, Empty, Empty, Empty, Empty, Empty, Empty]

  /** `Array(9).fill('')`. */
  const EmptyBoard: Board := [Empty, Empty, Empty, Empty, Empty, Empty, Empty, Empty, Empty]

  /** Every square of the clear board is empty. */
  lemma EmptyBoardIsClear()
    ensures forall i: Index :: EmptyBoard[i] == Empty
  {
    forall i: Index
      ensures EmptyBoard[i] == Empty
    {
      assert i in {0, 1, 2, 3, 4, 5, 6, 7, 8};
    }
  }

  /** The clear board has nine empty squares. */
  lemma EmptyBoardHasNineEmpty()
    ensures |Marks(EmptyBoard, Empty)| == 9
  {
    EmptyBoardIsClear();
    assert Marks(EmptyBoard, Empty) == {0, 1, 2, 3, 4, 5, 6, 7, 8};
  }

  /** A winning line, the source's three-element `combo` array `[a, b, c]`. */
  datatype Line = Line(a: Index, b: Index, c: Index)

  /** The `{ winner, combo }` object returned by `checkWin`. */
  datatype Win = Win(winner: Cell, combo: Line)

  /** Entry `k` of the fixed table scanned by `checkWin`: three rows, three columns, two diagonals. */
  function LineAt(k: nat): Line
    requires k < LineCount
  {
    if k == 0 then Line(0, 1, 2)
    else if k == 1 then Line(3, 4, 5)
    else if k == 2 then Line(6, 7, 8)
    else if k == 3 then Line(0, 3, 6)
    else if k == 4 then Line(1, 4, 7)
    else if k == 5 then Line(2, 5, 8)
    else if k == 6 then Line(0, 4, 8)
    else Line(2, 4, 6)
  }

  /** The number of entries in the table. */
  const LineCount := 8

  /** The squares a line covers. */
  function Cells(l: Line): set<Index> {
    {l.a, l.b, l.c}
  }

  /** The test on each line: the first square is non-empty and the other two equal it. */
  predicate Complete(board: Board, l: Line) {
    board[l.a] != Empty && board[l.a] == board[l.b] && board[l.a] == board[l.c]
  }

  /** No line of the table is complete. */
  predicate NoLineComplete(board: Board) {
    forall k :: 0 <= k < LineCount ==> !Complete(board, LineAt(k))
  }

  /** `k` is the first complete line at or after position `from` of the table. */
  predicate FirstCompleteFrom(board: Board, from: nat, k: int) {
    && from <= k < LineCount
    && Complete(board, LineAt(k))
    && forall j :: from <= j < k ==> !Complete(board, LineAt(j))
  }

  /** The squares holding mark `m`. */
  function Marks(board: Board, m: Cell): set<Index> {
    set i: Index | 0 <= i < 9 && board[i] == m
  }

  /** The scan of the table from position `from` onwards; `FirstWinFinds` states what it returns. */
  function FirstWin(board: Board, from: nat): Option<Win>
    requires from <= LineCount
    decreases LineCount - from
  {
    if from == LineCount then None
    else if Complete(board, LineAt(from)) then Some(Win(board[LineAt(from).a], LineAt(from)))
    else FirstWin(board, from + 1)
  }

  /** `checkWin(board)`; `CheckWinFinds` states what it returns. */
  function CheckWin(board: Board): Option<Win> {
    FirstWin(board, 0)
  }

  /** The scan from `from` reports the first complete line at or after `from`, or nothing when there is none. */
  lemma {:induction false} FirstWinFinds(board: Board, from: nat)
    requires from <= LineCount
    ensures FirstWin(board, from).None? <==> forall k :: from <= k < LineCount ==> !Complete(board, LineAt(k))
    ensures FirstWin(board, from).Some? ==>
      exists k :: FirstCompleteFrom(board, from, k) && FirstWin(board, from).value == Win(board[LineAt(k).a], LineAt(k))
    decreases LineCount - from
  {
    if from < LineCount && !Complete(board, LineAt(from)) {
      FirstWinFinds(board, from + 1);
      var r := FirstWin(board, from + 1);
      if r.Some? {
        var k :| FirstCompleteFrom(board, from + 1, k) && r.value == Win(board[LineAt(k).a], LineAt(k));
        assert FirstCompleteFrom(board, from, k);
      }
    }
  }

  /**
   * `checkWin` reports a line exactly when some line of the table is complete;
   * the line it reports is the first complete one in table order, and the
   * winner is the mark on all three of its squares.
   */
  lemma CheckWinFinds(board: Board)
    ensures CheckWin(board).None? <==> NoLineComplete(board)
    ensures CheckWin(board).Some? ==>
      && CheckWin(board).value.winner != Empty
      && board[CheckWin(board).value.combo.a] == CheckWin(board).value.winner
      && board[CheckWin(board).value.combo.b] == CheckWin(board).value.winner
      && board[CheckWin(board).value.combo.c] == CheckWin(board).value.winner
    ensures CheckWin(board).Some? ==>
      exists k :: FirstCompleteFrom(board, 0, k) && CheckWin(board).value.combo == LineAt(k)
  {
    FirstWinFinds(board, 0);
  }

  /** Every line covers three distinct squares. */
  lemma LinesHaveThreeCells(k: nat)
    requires k < LineCount
    ensures |Cells(LineAt(k))| == 3
  {
  }

  /** A winning line needs three squares of its mark, so a board with at most two of each mark has no winner. */
  lemma FewMarksNoWin(board: Board)
    requires |Marks(board, X)| < 3 && |Marks(board, O)| < 3
    ensures CheckWin(board).None?
  {
    var r := CheckWin(board);
    CheckWinFinds(board);
    if r.Some? {
      var k :| FirstCompleteFrom(board, 0, k) && r.value.combo == LineAt(k);
      var l := r.value.combo;
      LinesHaveThreeCells(k);
      assert Cells(l) <= Marks(board, r.value.winner);
      SubsetCardinality(Cells(l), Marks(board, r.value.winner));
      assert false;
    }
  }

  /** A subset is no larger than its superset. */
  lemma SubsetCardinality<T>(s: set<T>, t: set<T>)
    requires s <= t
    ensures |s| <= |t|
  {
    assert t == s + (t - s);
  }
}
