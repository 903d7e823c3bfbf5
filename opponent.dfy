/** The computer opponent: it plays O on the first empty cell. */
module Opponent {
  import opened Rules

  /** `findIndex` over the cells from `k` on: the first empty cell at or after `k`, or -1. */
  function FirstEmptyFrom(squares: Board, k: nat): (r: int)
    requires k <= 9
    ensures r == -1 || k <= r < 9
    ensures r == -1 <==> forall j | k <= j < 9 :: squares[j] != Empty
    ensures r != -1 ==> squares[r] == Empty && forall j | k <= j < r :: squares[j] != Empty
    decreases 9 - k
  {
    if k == 9 then -1
    else if squares[k] == Empty then k
    else FirstEmptyFrom(squares, k + 1)
  }

  /**
   * The opponent's choice: the smallest index of an empty cell, or -1 (not a "no move"
   * value of another kind) when the board is full. It never names an occupied cell.
   */
  function GetBestMove(squares: Board): (r: int)
    ensures -1 <= r < 9
    ensures r == -1 <==> Full(squares)
    ensures r != -1 ==> squares[r] == Empty && forall j | 0 <= j < r :: squares[j] != Empty
  {
    FirstEmptyFrom(squares, 0)
  }

  /**
   * The board the opponent's timer records, as the code is written: the guard compares the
   * chosen index with `null`, which `findIndex` never returns, so a board is recorded even
   * when the index is -1; the write to index -1 then touches no cell.
   */
  function AIMoveAsWritten(squares: Board): (next: Board)
    ensures Full(squares) ==> next == squares
    ensures !Full(squares) ==>
      exists i | 0 <= i < 9 ::
        && squares[i] == Empty
        && next == squares[i := Marked(O)]
        && forall j | 0 <= j < i :: squares[j] != Empty
  {
    var m := GetBestMove(squares);
    if m == -1 then squares else squares[m := Marked(O)]
  }

  /**
   * The opponent's move with the guard against the value `findIndex` really returns: no board
   * when the board is full, otherwise the board with O on the first empty cell.
   */
  function AIMove(squares: Board): (next: Option<Board>)
    ensures next.None? <==> Full(squares)
    ensures next.Some? ==>
      exists i | 0 <= i < 9 ::
        && squares[i] == Empty
        && next.value == squares[i := Marked(O)]
        && forall j | 0 <= j < i :: squares[j] != Empty
  {
    var m := GetBestMove(squares);
    if m == -1 then None else Some(squares[m := Marked(O)])
  }
}
