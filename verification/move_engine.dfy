/** The computer player (`nextMove`): win if possible, else block, else a random empty square. */
module MoveEngine {
  import opened Wrappers
  import opened Board

  /** Some square is still empty. */
  predicate HasEmpty(board: Board) {
    exists i: Index :: board[i] == Empty
  }

  /** Strictly increasing, hence without repeats. */
  predicate Ascending(s: seq<Index>) {
    forall j, k :: 0 <= j < k < |s| ==> s[j] < s[k]
  }

  /** The empty squares from `from` onwards, in ascending order. */
  function EmptiesFrom(board: Board, from: nat): (e: seq<Index>)
    requires from <= 9
    ensures forall j :: 0 <= j < |e| ==> from <= e[j] && board[e[j]] == Empty
    ensures forall i: Index :: from <= i && board[i] == Empty ==> i in e
    ensures Ascending(e)
    decreases 9 - from
  {
    if from == 9 then []
    else if board[from] == Empty then [from] + EmptiesFrom(board, from + 1)
    else EmptiesFrom(board, from + 1)
  }

  /** The source's `empties` list: indices of the empty squares, in ascending order. */
  function Empties(board: Board): (e: seq<Index>)
    ensures forall i: Index :: i in e <==> board[i] == Empty
    ensures Ascending(e)
  {
    EmptiesFrom(board, 0)
  }

  /** The `empties` list is empty exactly when the board is full. */
  lemma EmptiesEmptyIffFull(board: Board)
    ensures |Empties(board)| == 0 <==> !HasEmpty(board)
  {
    if HasEmpty(board) {
      var i: Index :| board[i] == Empty;
      assert i in Empties(board);
    }
  }

  /** The empty squares numbered `from` or more. */
  function EmptyAtOrAfter(board: Board, from: nat): set<Index> {
    set i | i in Marks(board, Empty) && from <= i
  }

  /** Peeling square `from` off the set of empty squares numbered `from` or more. */
  lemma EmptyAtOrAfterStep(board: Board, from: nat)
    requires from < 9
    ensures board[from] == Empty ==>
      EmptyAtOrAfter(board, from) == {from} + EmptyAtOrAfter(board, from + 1) &&
      from !in EmptyAtOrAfter(board, from + 1)
    ensures board[from] != Empty ==> EmptyAtOrAfter(board, from) == EmptyAtOrAfter(board, from + 1)
  {
  }

  /** The list from `from` onwards has one entry per empty square numbered `from` or more. */
  lemma {:induction false} EmptiesFromCount(board: Board, from: nat)
    requires from <= 9
    ensures |EmptiesFrom(board, from)| == |EmptyAtOrAfter(board, from)|
    decreases 9 - from
  {
    if from == 9 {
      assert EmptyAtOrAfter(board, from) == {};
    } else {
      EmptiesFromCount(board, from + 1);
      EmptyAtOrAfterStep(board, from);
    }
  }

  /** The `empties` list is as long as there are empty squares. */
  lemma EmptiesCount(board: Board)
    ensures |Empties(board)| == |Marks(board, Empty)|
  {
    EmptiesFromCount(board, 0);
    assert Marks(board, Empty) == EmptyAtOrAfter(board, 0);
  }

  /** `Math.floor(roll * n)` for a roll in [0, 1): a position in a list of `n` items. */
  function Pick(roll: real, n: nat): (j: nat)
    requires 0.0 <= roll < 1.0 && n > 0
    ensures j < n
    ensures j as real <= roll * n as real < j as real + 1.0
  {
    var x := roll * n as real;
    assert x < n as real;
    x.Floor
  }

  /** Placing `m` on the empty square `i` gives a board on which `checkWin` reports a line. */
  predicate Probe(board: Board, m: Cell, i: Index) {
    board[i] == Empty && CheckWin(board[i := m]).Some?
  }

  /** `i` is the smallest square whose probe with `m` succeeds. */
  predicate LeastProbe(board: Board, m: Cell, i: Index) {
    Probe(board, m, i) && forall j: Index :: j < i ==> !Probe(board, m, j)
  }

  /** One probing loop of `nextMove`, from square `from` onwards. */
  function FirstProbe(board: Board, m: Cell, from: nat): (r: Option<Index>)
    requires from <= 9
    ensures r.None? <==> forall i: Index :: from <= i ==> !Probe(board, m, i)
    ensures r.Some? ==>
      && from <= r.value
      && Probe(board, m, r.value)
      && forall i: Index :: from <= i < r.value ==> !Probe(board, m, i)
    decreases 9 - from
  {
    if from == 9 then None
    else if Probe(board, m, from) then Some(from)
    else FirstProbe(board, m, from + 1)
  }

  /** `nextMove(board)`, with the random fallback drawn from `roll`. */
  function NextMove(board: Board, roll: real): (r: Option<Index>)
    requires 0.0 <= roll < 1.0
    ensures r.Some? <==> HasEmpty(board)
    ensures r.Some? ==> board[r.value] == Empty
    ensures (exists i: Index :: Probe(board, O, i)) ==> r.Some? && LeastProbe(board, O, r.value)
    ensures (forall i: Index :: !Probe(board, O, i)) && (exists i: Index :: Probe(board, X, i)) ==>
              r.Some? && LeastProbe(board, X, r.value)
  {
    match FirstProbe(board, O, 0)
    case Some(i) => Some(i)
    case None =>
      match FirstProbe(board, X, 0)
      case Some(i) => Some(i)
      case None =>
        EmptiesEmptyIffFull(board);
        var e := Empties(board);
        if |e| == 0 then None else Some(e[Pick(roll, |e|)])
  }

  /** Writing the empty square back after a probe restores the board. */
  lemma ProbeRestores(board: Board, m: Cell, i: Index)
    requires board[i] == Empty
    ensures board[i := m][i := Empty] == board
  {
  }

  /** A probing loop that finds `i` first answers `i`. */
  lemma FirstProbeIsLeast(board: Board, m: Cell, i: Index)
    requires LeastProbe(board, m, i)
    ensures FirstProbe(board, m, 0) == Some(i)
  {
    var r := FirstProbe(board, m, 0);
    assert r.Some?;
    assert !(r.value < i);
    assert !(i < r.value);
  }

  /**
   * `nextMove` as the source runs it: each probe writes the mark into the
   * board, asks `checkWin`, and writes the empty square back, both before
   * returning and before moving on. The board handed back is the caller's
   * board after the call.
   */
  method NextMoveInPlace(board0: Board, roll: real) returns (move: Option<Index>, board: Board)
    requires 0.0 <= roll < 1.0
    ensures board == board0
    ensures move == NextMove(board0, roll)
  {
    board := board0;
    var i := 0;
    while i < 9
      invariant 0 <= i <= 9
      invariant board == board0
      invariant forall j: Index :: j < i ==> !Probe(board0, O, j)
    {
      if board[i] == Empty {
        board := board[i := O];
        if CheckWin(board).Some? {
          board := board[i := Empty];
          FirstProbeIsLeast(board0, O, i);
          return Some(i), board;
        }
        board := board[i := Empty];
      }
      i := i + 1;
    }
    var o := FirstProbe(board0, O, 0);
    assert o.None?;
    i := 0;
    while i < 9
      invariant 0 <= i <= 9
      invariant board == board0
      invariant forall j: Index :: j < i ==> !Probe(board0, X, j)
    {
      if board[i] == Empty {
        board := board[i := X];
        if CheckWin(board).Some? {
          board := board[i := Empty];
          FirstProbeIsLeast(board0, X, i);
          return Some(i), board;
        }
        board := board[i := Empty];
      }
      i := i + 1;
    }
    var x := FirstProbe(board0, X, 0);
    assert x.None?;
    var empties := Empties(board);
    if |empties| == 0 {
      // `empties[0]` of an empty list is `undefined`; callers test `comp != null`.
      move := None;
    } else {
      move := Some(empties[Pick(roll, |empties|)]);
    }
  }

  /** Line `l` passes through square `i`, and its other two squares hold `m`. */
  predicate Threat(board: Board, l: Line, i: Index, m: Cell) {
    || (l.a == i && board[l.b] == m && board[l.c] == m)
    || (l.b == i && board[l.a] == m && board[l.c] == m)
    || (l.c == i && board[l.a] == m && board[l.b] == m)
  }

  /**
   * On a board with no completed line, a probe succeeds exactly when some
   * line through the probed square already holds the probing mark on its
   * other two squares; the reported winner is then that mark, on a line
   * through the probed square.
   */
  lemma ProbeCompletesLineThrough(board: Board, m: Cell, i: Index)
    requires NoLineComplete(board) && board[i] == Empty && m != Empty
    ensures Probe(board, m, i) <==> exists k :: 0 <= k < LineCount && Threat(board, LineAt(k), i, m)
    ensures Probe(board, m, i) ==>
      CheckWin(board[i := m]).value.winner == m && i in Cells(CheckWin(board[i := m]).value.combo)
  {
    CheckWinFinds(board[i := m]);
  }

  /** Square `i` is empty and `m` there would finish a line that already holds two `m`s. */
  predicate Completes(board: Board, i: Index, m: Cell) {
    board[i] == Empty && exists k :: 0 <= k < LineCount && Threat(board, LineAt(k), i, m)
  }

  /** On a board with no completed line, probing succeeds exactly at the squares that complete a line. */
  lemma ProbesAreCompletions(board: Board, m: Cell)
    requires NoLineComplete(board) && m != Empty
    ensures forall i: Index :: Probe(board, m, i) <==> Completes(board, i, m)
  {
    forall i: Index
      ensures Probe(board, m, i) <==> Completes(board, i, m)
    {
      if board[i] == Empty {
        ProbeCompletesLineThrough(board, m, i);
      }
    }
  }

  /**
   * During play (no line complete yet), if `i` is the smallest square that
   * completes a line of `O`s, the computer plays `i`.
   */
  lemma NextMoveTakesWin(board: Board, roll: real, i: Index)
    requires NoLineComplete(board) && 0.0 <= roll < 1.0
    requires Completes(board, i, O) && forall j: Index :: j < i ==> !Completes(board, j, O)
    ensures NextMove(board, roll) == Some(i)
  {
    ProbesAreCompletions(board, O);
  }

  /**
   * During play, when no square completes a line of `O`s and `i` is the
   * smallest square that completes a line of `X`s, the computer blocks at `i`.
   */
  lemma NextMoveBlocks(board: Board, roll: real, i: Index)
    requires NoLineComplete(board) && 0.0 <= roll < 1.0
    requires forall j: Index :: !Completes(board, j, O)
    requires Completes(board, i, X) && forall j: Index :: j < i ==> !Completes(board, j, X)
    ensures NextMove(board, roll) == Some(i)
  {
    ProbesAreCompletions(board, O);
    ProbesAreCompletions(board, X);
  }

  /** The roll `j / n` picks position `j` of a list of `n` items. */
  lemma PickHits(j: nat, n: nat)
    requires j < n
    ensures 0.0 <= j as real / n as real < 1.0
    ensures Pick(j as real / n as real, n) == j
  {
    var roll := j as real / n as real;
    assert roll * n as real == j as real;
  }

  /** With nothing to win or block, every empty square is the answer for some roll. */
  lemma FallbackReachesEveryEmpty(board: Board, i: Index)
    requires forall j: Index :: !Probe(board, O, j) && !Probe(board, X, j)
    requires board[i] == Empty
    ensures exists roll: real :: 0.0 <= roll < 1.0 && NextMove(board, roll) == Some(i)
  {
    var e := Empties(board);
    assert i in e;
    var j :| 0 <= j < |e| && e[j] == i;
    PickHits(j, |e|);
    var roll := j as real / |e| as real;
    var o := FirstProbe(board, O, 0);
    var x := FirstProbe(board, X, 0);
    assert o.None? && x.None?;
    assert NextMove(board, roll) == Some(i);
  }
}
