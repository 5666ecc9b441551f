/** `placeRandom`: dropping a number of marks into distinct, randomly chosen empty squares. */
module Placement {
  import opened Board
  import opened MoveEngine

  function Min(a: int, b: int): int {
    if a <= b then a else b
  }

  /** Splicing entry `j` out of an ascending list leaves an ascending list without that entry. */
  lemma RemoveAtKeepsAscending(s: seq<Index>, j: nat)
    requires j < |s| && Ascending(s)
    ensures Ascending(s[..j] + s[j + 1..])
    ensures |s[..j] + s[j + 1..]| == |s| - 1
    ensures forall x :: x in s[..j] + s[j + 1..] <==> x in s && x != s[j]
  {
    var rest := s[..j] + s[j + 1..];
    assert forall p :: 0 <= p < |rest| ==> rest[p] == (if p < j then s[p] else s[p + 1]);
    forall x | x in s && x != s[j]
      ensures x in rest
    {
      var p :| 0 <= p < |s| && s[p] == x;
      if p < j { assert rest[p] == x; } else { assert rest[p - 1] == x; }
    }
  }

  /** Every roll is a value `Math.random` can return. */
  predicate ValidRolls(rolls: seq<real>) {
    forall k :: 0 <= k < |rolls| ==> 0.0 <= rolls[k] < 1.0
  }

  /**
   * `placeRandom(board, mark, count)`, with `rolls[k]` the value of
   * `Math.random()` in round `k`. Each round splices one entry out of the
   * list of empty squares and writes `mark` there. Once the list is used
   * up, the source's `empties.splice(...)[0]` is `undefined` and the write
   * lands on a property that is not a square, so no square changes.
   * `placed` is the set of squares written.
   */
  method PlaceRandom(board0: Board, mark: Cell, count: int, rolls: seq<real>)
    returns (board: Board, placed: set<Index>)
    requires count <= |rolls| && ValidRolls(rolls)
    ensures |placed| == Min(if count < 0 then 0 else count, |Marks(board0, Empty)|)
    ensures forall i: Index :: i in placed ==> board0[i] == Empty && board[i] == mark
    ensures forall i: Index :: i !in placed ==> board[i] == board0[i]
  {
    var e0 := Empties(board0);
    EmptiesCount(board0);
    var empties := e0;
    board := board0;
    placed := {};
    var k := 0;
    while k < count
      invariant 0 <= k <= (if count < 0 then 0 else count)
      invariant |empties| + |placed| == |e0|
      invariant |placed| == Min(k, |e0|)
      invariant Ascending(empties)
      invariant forall x :: x in empties ==> board0[x] == Empty && x !in placed
      invariant forall i: Index :: i in placed ==> board0[i] == Empty && board[i] == mark
      invariant forall i: Index :: i !in placed ==> board[i] == board0[i]
    {
      if |empties| > 0 {
        var j := Pick(rolls[k], |empties|);
        var idx := empties[j];
        RemoveAtKeepsAscending(empties, j);
        empties := empties[..j] + empties[j + 1..];
        board := board[idx := mark];
        placed := placed + {idx};
      }
      k := k + 1;
    }
  }
}
