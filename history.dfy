/** The game timeline: a sequence of boards, each one move after the one before it. */
module History {
  import opened Rules
  import opened Opponent

  /**
   * `after` is `before` with one previously empty cell given the mark of the player to move at
   * move number `move`; moves are only made on a board nobody has won.
   */
  predicate IsMove(before: Board, after: Board, move: nat) {
    && CalculateWinner(before).None?
    && exists i | 0 <= i < 9 :: before[i] == Empty && after == before[i := Marked(TurnMark(move))]
  }

  /** Entry 0 is the empty board and entry k is entry k-1 after move number k-1. */
  predicate ValidHistory(history: seq<Board>) {
    && |history| >= 1
    && history[0] == EmptyBoard
    && forall k | 1 <= k < |history| :: IsMove(history[k - 1], history[k], k - 1)
  }

  /**
   * `handlePlay` on the timeline: keep entries 0..upto, drop the rest, append `next`.
   * The kept entries are unchanged and `next` becomes the last entry, at index `upto + 1`.
   */
  function RecordMove(history: seq<Board>, upto: nat, next: Board): (r: seq<Board>)
    requires upto < |history|
    ensures |r| == upto + 2
    ensures forall k | 0 <= k <= upto :: r[k] == history[k]
    ensures r[upto + 1] == next
  {
    history[..upto + 1] + [next]
  }

  /** Recording a move made from any entry keeps the timeline valid. */
  lemma RecordMoveKeepsValid(history: seq<Board>, upto: nat, next: Board)
    requires ValidHistory(history) && upto < |history|
    requires IsMove(history[upto], next, upto)
    ensures ValidHistory(RecordMove(history, upto, next))
  {
    var r := RecordMove(history, upto, next);
    forall k | 1 <= k < |r| ensures IsMove(r[k - 1], r[k], k - 1) {
      if k <= upto {
        assert r[k - 1] == history[k - 1] && r[k] == history[k];
      }
    }
  }

  /** Entry k holds (k+1)/2 X marks, k/2 O marks and 9-k empty cells. */
  lemma {:induction false} MarkCounts(history: seq<Board>, k: nat)
    requires ValidHistory(history) && k < |history|
    ensures Count(history[k], Marked(X)) == (k + 1) / 2
    ensures Count(history[k], Marked(O)) == k / 2
    ensures Count(history[k], Empty) == 9 - k
  {
    if k > 0 {
      MarkCounts(history, k - 1);
      var before := history[k - 1];
      var p := TurnMark(k - 1);
      assert IsMove(before, history[k], k - 1);
      var i :| 0 <= i < 9 && before[i] == Empty && history[k] == before[i := Marked(p)];
      CountPlace(before, i, p, Marked(X));
      CountPlace(before, i, p, Marked(O));
      CountPlace(before, i, p, Empty);
    }
  }

  /** A timeline never has more than ten entries: the empty board and at most nine moves. */
  lemma HistoryBounded(history: seq<Board>)
    requires ValidHistory(history)
    ensures |history| <= 10
  {
    MarkCounts(history, |history| - 1);
  }

  /** X's turn on a recorded board is exactly when X and O have the same number of marks. */
  lemma TurnMatchesMarks(history: seq<Board>, k: nat)
    requires ValidHistory(history) && k < |history|
    ensures XIsNext(k) <==> Count(history[k], Marked(X)) == Count(history[k], Marked(O))
    ensures !XIsNext(k) <==> Count(history[k], Marked(X)) == Count(history[k], Marked(O)) + 1
  {
    MarkCounts(history, k);
  }

  /** A mark, once placed, stays in its cell in every later entry. */
  lemma {:induction false} MarksPersist(history: seq<Board>, k: nat, j: nat, i: Index)
    requires ValidHistory(history) && k <= j < |history|
    requires history[k][i] != Empty
    ensures history[j][i] == history[k][i]
    decreases j - k
  {
    if k < j {
      MarksPersist(history, k, j - 1, i);
      assert IsMove(history[j - 1], history[j], j - 1);
    }
  }

  /** A move can complete lines only for the player who made it. */
  lemma MoveWinsOnlyForMover(before: Board, after: Board, move: nat)
    requires IsMove(before, after, move)
    ensures !Wins(after, Other(TurnMark(move)))
  {
    var q := Other(TurnMark(move));
    var i :| 0 <= i < 9 && before[i] == Empty && after == before[i := Marked(TurnMark(move))];
    forall k | 0 <= k < |Lines| ensures !Holds(after, Lines[k], q) {
      assert !Holds(before, Lines[k], q);
    }
  }

  /**
   * On a recorded board at most one player has a complete line, and it is the player who made
   * the last move; so the winner reported does not depend on the order lines are checked in.
   */
  lemma WinnerIsLastMover(history: seq<Board>, k: nat)
    requires ValidHistory(history) && k < |history|
    ensures k == 0 ==> CalculateWinner(history[k]).None?
    ensures k > 0 ==> !Wins(history[k], Other(TurnMark(k - 1)))
    ensures k > 0 && CalculateWinner(history[k]).Some? ==> CalculateWinner(history[k]).value == TurnMark(k - 1)
  {
    if k == 0 {
      assert !Wins(EmptyBoard, X) && !Wins(EmptyBoard, O);
    } else {
      MoveWinsOnlyForMover(history[k - 1], history[k], k - 1);
    }
  }

  /** Nobody can have won before move 5, when X puts down a third mark. */
  lemma NoWinBeforeMoveFive(history: seq<Board>, k: nat)
    requires ValidHistory(history) && k < |history| && k < 5
    ensures CalculateWinner(history[k]).None?
  {
    MarkCounts(history, k);
    if Wins(history[k], X) {
      WinNeedsThreeMarks(history[k], X);
    }
    if Wins(history[k], O) {
      WinNeedsThreeMarks(history[k], O);
    }
  }

  /** Only the last entry of a timeline can show a won game. */
  lemma OnlyLastEntryWon(history: seq<Board>, k: nat)
    requires ValidHistory(history) && k + 1 < |history|
    ensures !Wins(history[k], X) && !Wins(history[k], O)
  {
    assert IsMove(history[k], history[k + 1], k);
  }

  /** The corrected opponent move, made on O's turn on a board nobody has won, is a move. */
  lemma AIMoveIsMove(squares: Board, move: nat)
    requires !XIsNext(move) && CalculateWinner(squares).None?
    ensures AIMove(squares).Some? ==> IsMove(squares, AIMove(squares).value, move)
  {
  }

  /** The opponent's step as written: it always records `AIMoveAsWritten` of the current entry. */
  function AIRecordAsWritten(history: seq<Board>, current: nat): (r: seq<Board>)
    requires current < |history|
    ensures |r| == current + 2 && r[..current + 1] == history[..current + 1]
    ensures r[current + 1] == AIMoveAsWritten(history[current])
  {
    RecordMove(history, current, AIMoveAsWritten(history[current]))
  }

  /**
   * As written, the opponent's step on a full board records a copy of the current board, which
   * is not a move: the timeline stops being valid.
   */
  lemma AsWrittenBreaksHistory(history: seq<Board>, current: nat)
    requires ValidHistory(history) && current < |history| && Full(history[current])
    ensures !ValidHistory(AIRecordAsWritten(history, current))
  {
    var r := AIRecordAsWritten(history, current);
    assert r[current] == history[current];
    assert !IsMove(r[current], r[current + 1], current);
  }

  /** A drawn game, board by board: nine moves, every cell filled, no line complete. */
  const D1: Board := [Empty, Empty, Empty, Empty, Marked(X), Empty, Empty, Empty, Empty]
  const D2: Board := [Marked(O), Empty, Empty, Empty, Marked(X), Empty, Empty, Empty, Empty]
  const D3: Board := [Marked(O), Empty, Marked(X), Empty, Marked(X), Empty, Empty, Empty, Empty]
  const D4: Board := [Marked(O), Marked(O), Marked(X), Empty, Marked(X), Empty, Empty, Empty, Empty]
  const D5: Board := [Marked(O), Marked(O), Marked(X), Marked(X), Marked(X), Empty, Empty, Empty, Empty]
  const D6: Board := [Marked(O), Marked(O), Marked(X), Marked(X), Marked(X), Marked(O), Empty, Empty, Empty]
  const D7: Board := [Marked(O), Marked(O), Marked(X), Marked(X), Marked(X), Marked(O), Empty, Empty, Marked(X)]
  const D8: Board := [Marked(O), Marked(O), Marked(X), Marked(X), Marked(X), Marked(O), Marked(O), Empty, Marked(X)]
  const D9: Board := [Marked(O), Marked(O), Marked(X), Marked(X), Marked(X), Marked(O), Marked(O), Marked(X), Marked(X)]
  const DrawnGame: seq<Board> := [EmptyBoard, D1, D2, D3, D4, D5, D6, D7, D8, D9]

  /** Nobody owns a line on the last board of `DrawnGame`. */
  lemma LastBoardUndecided()
    ensures !Wins(D9, X) && !Wins(D9, O)
  {
    forall k, p | 0 <= k < |Lines| ensures !Holds(D9, Lines[k], p) {
      var line := Lines[k];
      assert D9[line.a] != D9[line.b] || D9[line.a] != D9[line.c];
    }
  }

  /** A board whose marks all appear on the last board of `DrawnGame` carries no complete line. */
  lemma UndecidedBelowLastBoard(b: Board)
    requires Extends(D9, b)
    ensures CalculateWinner(b).None?
  {
    LastBoardUndecided();
    if Wins(b, X) {
      WinsPersist(b, D9, X);
    }
    if Wins(b, O) {
      WinsPersist(b, D9, O);
    }
  }

  /** No board of `DrawnGame` carries a complete line: its last board keeps every earlier mark and has none. */
  lemma DrawnGameUndecided()
    ensures forall k | 0 <= k < |DrawnGame| :: CalculateWinner(DrawnGame[k]).None?
  {
    forall k | 0 <= k < |DrawnGame| ensures CalculateWinner(DrawnGame[k]).None? {
      assert Extends(D9, DrawnGame[k]);
      UndecidedBelowLastBoard(DrawnGame[k]);
    }
  }

  /** Move `k - 1` of `DrawnGame` is made on the empty cell `cell`. */
  lemma DrawnGameStep(k: nat, cell: Index)
    requires 1 <= k < |DrawnGame| && DrawnGame[k - 1][cell] == Empty
    requires DrawnGame[k] == DrawnGame[k - 1][cell := Marked(TurnMark(k - 1))]
    ensures IsMove(DrawnGame[k - 1], DrawnGame[k], k - 1)
  {
    DrawnGameUndecided();
  }

  /** `DrawnGame` is a valid timeline. */
  lemma DrawnGameValid()
    ensures ValidHistory(DrawnGame)
  {
    forall k | 1 <= k < |DrawnGame| ensures IsMove(DrawnGame[k - 1], DrawnGame[k], k - 1) {
      var cells := [4, 0, 2, 1, 3, 5, 8, 6, 7];
      DrawnGameStep(k, cells[k - 1]);
    }
  }

  /** Every O in `DrawnGame` is where the opponent's first-empty-cell rule puts it. */
  lemma DrawnGameOpponentMoves()
    ensures AIMove(D1) == Some(D2) && AIMove(D3) == Some(D4)
    ensures AIMove(D5) == Some(D6) && AIMove(D7) == Some(D8)
  {
    assert D2 == D1[0 := Marked(O)];
    assert D4 == D3[1 := Marked(O)];
    assert D6 == D5[5 := Marked(O)];
    assert D8 == D7[6 := Marked(O)];
  }

  /**
   * The input on which the code as written goes wrong is reachable: a valid timeline whose
   * entry 9 is a full board nobody won, at an odd move number, where the opponent is due;
   * recording the opponent's step there as written breaks the timeline.
   */
  lemma DrawnGameReachesFullBoard()
    ensures ValidHistory(DrawnGame) && |DrawnGame| == 10
    ensures Full(DrawnGame[9]) && CalculateWinner(DrawnGame[9]).None? && !XIsNext(9)
    ensures !ValidHistory(AIRecordAsWritten(DrawnGame, 9))
  {
    DrawnGameValid();
    assert DrawnGame[9] == D9;
    UndecidedBelowLastBoard(D9);
    AsWrittenBreaksHistory(DrawnGame, 9);
  }
}
