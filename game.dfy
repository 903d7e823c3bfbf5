/** The `Game` component's state: mode, timeline, viewed move and the opponent-turn flag. */
module GameState {
  import opened Rules
  import opened Opponent
  import opened History

  /** The game mode; `NoMode` is the `null` before a choice is made in the menu. */
  datatype Mode = NoMode | VsPlayer | VsAI

  class Game {
    var mode: Mode
    var history: seq<Board>
    var currentMove: nat
    var isAITurn: bool

    /**
     * The timeline is valid, the viewed move is one of its entries, and the opponent-turn flag
     * is only set while the opponent is due to move.
     */
    ghost predicate Valid()
      reads this
    {
      && ValidHistory(history)
      && currentMove < |history|
      && (isAITurn ==> AIDue())
    }

    /** The board of the viewed move. */
    function CurrentSquares(): Board
      reads this
      requires currentMove < |history|
    {
      history[currentMove]
    }

    /** The opponent is due: mode 'ai', O to move, and nobody has won the viewed board. */
    predicate AIDue()
      reads this
    {
      && mode == VsAI
      && !XIsNext(currentMove)
      && currentMove < |history|
      && CalculateWinner(history[currentMove]).None?
    }

    /** The reasons a click on cell `i` is ignored: a won board, an occupied cell, or the opponent's turn. */
    predicate ClickIgnored(i: Index)
      reads this
      requires currentMove < |history|
    {
      CalculateWinner(CurrentSquares()).Some? || CurrentSquares()[i] != Empty || isAITurn
    }

    /** A new game: no mode chosen, one empty board, viewing move 0. */
    constructor ()
      ensures Valid()
      ensures mode == NoMode && history == [EmptyBoard] && currentMove == 0 && !isAITurn
    {
      mode := NoMode;
      history := [EmptyBoard];
      currentMove := 0;
      isAITurn := false;
    }

    /** The menu's choice; the menu is shown only while no mode is chosen. */
    method SelectMode(m: Mode)
      requires Valid() && mode == NoMode && m != NoMode
      modifies this`mode
      ensures Valid() && mode == m
    {
      mode := m;
    }

    /**
     * Drop the entries after the viewed one, append `next` and view it. The timeline stays
     * valid whenever `next` is a move made on the viewed board.
     */
    method HandlePlay(next: Board)
      requires currentMove < |history|
      modifies this`history, this`currentMove
      ensures history == RecordMove(old(history), old(currentMove), next)
      ensures currentMove == old(currentMove) + 1 == |history| - 1
      ensures ValidHistory(old(history)) && IsMove(old(CurrentSquares()), next, old(currentMove)) ==> ValidHistory(history)
    {
      if ValidHistory(history) && IsMove(history[currentMove], next, currentMove) {
        RecordMoveKeepsValid(history, currentMove, next);
      }
      history := history[..currentMove + 1] + [next];
      currentMove := |history| - 1;
    }

    /** View entry `move`; the timeline is kept until the next move is played. */
    method JumpTo(move: nat)
      requires Valid() && move < |history|
      modifies this`currentMove, this`isAITurn
      ensures Valid()
      ensures currentMove == move && !isAITurn && history == old(history)
    {
      currentMove := move;
      isAITurn := false;
    }

    /**
     * A click on cell `i`: ignored on a won board, an occupied cell or during the opponent's
     * turn; otherwise the viewed board with the mover's mark on `i` is recorded after it.
     */
    method HandleSquareClick(i: Index)
      requires Valid()
      modifies this`history, this`currentMove
      ensures Valid()
      ensures old(ClickIgnored(i)) ==> history == old(history) && currentMove == old(currentMove)
      ensures !old(ClickIgnored(i)) ==>
        && history == RecordMove(old(history), old(currentMove), old(CurrentSquares())[i := Marked(TurnMark(old(currentMove)))])
        && currentMove == old(currentMove) + 1
        && IsMove(history[currentMove - 1], history[currentMove], currentMove - 1)
    {
      var squares := history[currentMove];
      if CalculateWinner(squares).Some? || squares[i] != Empty || isAITurn {
        return;
      }
      var next := squares[i := Marked(if XIsNext(currentMove) then X else O)];
      assert IsMove(squares, next, currentMove);
      HandlePlay(next);
    }

    /**
     * The synchronous part of the effect, run after every change of mode, turn, board or move:
     * the opponent-turn flag is raised exactly when the opponent is due, cleared otherwise.
     */
    method RunAIEffect()
      requires Valid()
      modifies this`isAITurn
      ensures Valid() && isAITurn == AIDue()
    {
      if mode == VsAI && !XIsNext(currentMove) && CalculateWinner(history[currentMove]).None? {
        isAITurn := true;
      } else {
        isAITurn := false;
      }
    }

    /**
     * The opponent's delayed move, run while the flag raised by the effect is still set: O goes
     * on the first empty cell of the viewed board and the flag is cleared. On a full board no
     * entry is recorded (the guard as intended; see `AIMove`).
     */
    method AITimerFires()
      requires Valid() && isAITurn
      modifies this`history, this`currentMove, this`isAITurn
      ensures Valid() && !isAITurn
      ensures Full(old(CurrentSquares())) ==> history == old(history) && currentMove == old(currentMove)
      ensures !Full(old(CurrentSquares())) ==>
        && history == RecordMove(old(history), old(currentMove), AIMove(old(CurrentSquares())).value)
        && currentMove == old(currentMove) + 1
        && IsMove(history[currentMove - 1], history[currentMove], currentMove - 1)
    {
      var squares := history[currentMove];
      var aiMove := GetBestMove(squares);
      if aiMove != -1 {
        var next := squares[aiMove := Marked(O)];
        assert AIMove(squares) == Some(next);
        AIMoveIsMove(squares, currentMove);
        HandlePlay(next);
      }
      isAITurn := false;
    }

    /** The status line for the viewed board. */
    function StatusLine(): (s: string)
      reads this
      requires Valid()
      ensures IsWinnerMessage(s) <==> CalculateWinner(CurrentSquares()).Some?
      ensures IsWinnerMessage(s) ==> exists p :: Wins(CurrentSquares(), p) && s[|s| - 1] == Symbol(p)
      ensures IsWinnerMessage(s) ==> currentMove > 0 && s == WinnerPrefix + [Symbol(TurnMark(currentMove - 1))]
      ensures !IsWinnerMessage(s) ==> s == NextPrefix + [if XIsNext(currentMove) then 'X' else 'O']
    {
      WinnerIsLastMover(history, currentMove);
      Status(CurrentSquares(), currentMove)
    }
  }

  /** Two humans: X takes the top row while O plays 4 and 7; the status then names X. */
  method PlayerVsPlayerWin()
  {
    var g := new Game();
    g.SelectMode(VsPlayer);
    NoWinBeforeMoveFive(g.history, g.currentMove);
    g.HandleSquareClick(0);
    assert g.currentMove == 1 && g.CurrentSquares() == [Marked(X), Empty, Empty, Empty, Empty, Empty, Empty, Empty, Empty];
    NoWinBeforeMoveFive(g.history, g.currentMove);
    g.HandleSquareClick(4);
    assert g.currentMove == 2 && g.CurrentSquares() == [Marked(X), Empty, Empty, Empty, Marked(O), Empty, Empty, Empty, Empty];
    NoWinBeforeMoveFive(g.history, g.currentMove);
    g.HandleSquareClick(1);
    FinishTopRow(g);
  }

  /** The rest of the game above, from X's second mark on: O plays 7, X completes the top row. */
  method FinishTopRow(g: Game)
    requires g.Valid() && g.mode == VsPlayer && !g.isAITurn && g.currentMove == 3
    requires g.CurrentSquares() == [Marked(X), Marked(X), Empty, Empty, Marked(O), Empty, Empty, Empty, Empty]
    modifies g
  {
    NoWinBeforeMoveFive(g.history, g.currentMove);
    g.HandleSquareClick(7);
    assert g.currentMove == 4 && g.CurrentSquares() == [Marked(X), Marked(X), Empty, Empty, Marked(O), Empty, Empty, Marked(O), Empty];
    NoWinBeforeMoveFive(g.history, g.currentMove);
    g.HandleSquareClick(2);
    var won: Board := [Marked(X), Marked(X), Marked(X), Empty, Marked(O), Empty, Empty, Marked(O), Empty];
    assert g.currentMove == 5 && |g.history| == 6 && g.CurrentSquares() == won;
    AfterTopRowWin(g);
  }

  /** After X's win: the status names X, a click on the won board is ignored; jumping back to move 0 and playing drops the game. */
  method AfterTopRowWin(g: Game)
    requires g.Valid() && g.mode == VsPlayer && !g.isAITurn && g.currentMove == 5 && |g.history| == 6
    requires g.CurrentSquares() == [Marked(X), Marked(X), Marked(X), Empty, Marked(O), Empty, Empty, Marked(O), Empty]
    modifies g
  {
    assert Complete(g.CurrentSquares(), Lines[0]);
    assert g.StatusLine() == "Winner: X";
    g.HandleSquareClick(5);
    assert g.currentMove == 5 && |g.history| == 6;
    g.JumpTo(0);
    NoWinBeforeMoveFive(g.history, g.currentMove);
    g.HandleSquareClick(8);
    assert |g.history| == 2 && g.history[1] == EmptyBoard[8 := Marked(X)];
  }

  /** Against the opponent: X plays 0, the flag is raised, a click meanwhile is ignored, and O answers on cell 1. */
  method PlayerVsAIFirstMove()
  {
    var afterX: Board := [Marked(X), Empty, Empty, Empty, Empty, Empty, Empty, Empty, Empty];
    var afterO: Board := [Marked(X), Marked(O), Empty, Empty, Empty, Empty, Empty, Empty, Empty];
    var g := new Game();
    g.SelectMode(VsAI);
    g.RunAIEffect();
    NoWinBeforeMoveFive(g.history, g.currentMove);
    g.HandleSquareClick(0);
    assert g.currentMove == 1 && g.CurrentSquares() == afterX;
    NoWinBeforeMoveFive(g.history, g.currentMove);
    g.RunAIEffect();
    assert g.isAITurn;
    g.HandleSquareClick(5);
    assert g.currentMove == 1;
    assert GetBestMove(afterX) == 1 by {
      assert afterX[0] != Empty && afterX[1] == Empty;
    }
    assert afterX[1 := Marked(O)] == afterO;
    g.AITimerFires();
    assert g.currentMove == 2 && !g.isAITurn && g.CurrentSquares() == afterO;
    g.RunAIEffect();
    assert !g.isAITurn;
  }
}
