# Tic-tac-toe game state, modelled in Dafny

This project models the game-state engine of the tic-tac-toe component in
`react_app_cdk/tik-tak-toe-2/src/App.js`. That engine covers:

- win detection over the eight lines of a nine-cell board;
- the computer opponent, which plays the first empty cell;
- the `Game` component's state: the game mode, the move history (the timeline of boards), the
  index of the viewed move, and the flag that blocks input while the opponent is about to move.

Four modules:

- `Rules` (`rules.dfy`) defines marks, boards and the line order. It models `calculateWinner`,
  the turn parity `xIsNext` and the status string as functions. It also gives a reference
  definition of a win (`Wins`) and proves the scan agrees with it.
- `Opponent` (`opponent.dfy`) models `getBestMove` as the code's `findIndex`, returning -1 on a
  full board. It also gives the opponent's board update twice: as written and as intended.
- `History` (`history.dfy`) defines what a valid timeline is. Entry 0 is the empty board. Each
  later entry is its predecessor with one empty cell marked by the player whose turn it was, and
  only on a board nobody had won. It models `handlePlay`'s truncate-and-append on values and
  proves facts about every valid timeline.
- `GameState` (`game.dfy`) holds the class `Game`, with the component's four state variables as
  fields. Its methods are `handlePlay`, `jumpTo`, `handleSquareClick`, the menu's mode choice and
  the two halves of the opponent's effect. Each method except `HandlePlay` keeps the invariant
  `Valid()`: the timeline is valid, the viewed move exists, and the flag is only set while the
  opponent is due. `HandlePlay` is the helper both move paths call; it keeps the timeline valid
  whenever the board it records is a move made on the viewed board.
  Two client methods replay whole games through these methods: a human game that X wins on the
  top row, and the opening of a game against the opponent.

The effect at lines 96-119 is split into two atomic methods with no timer:
- `RunAIEffect` is the synchronous part. It raises the flag when the opponent is due and clears it
  otherwise.
- `AITimerFires` is the delayed callback. It may run only while the flag is set.

## Model

| member | source | states |
|---|---|---|
| `Rules.WinnerFrom` | react_app_cdk/tik-tak-toe-2/src/App.js:180-185 | the scan from line k on finds nothing exactly when no remaining line is owned; a result is the owner of a line with no complete line before it |
| `Rules.CalculateWinner` | react_app_cdk/tik-tak-toe-2/src/App.js:169-186 | null exactly when neither player owns a row, column or diagonal; a result is a player who owns one; the first complete line in the listed order decides the mark |
| `Rules.FirstCompleteLineDecides` | react_app_cdk/tik-tak-toe-2/src/App.js:170-185 | the full scan agrees with the reference definition of a win and with "first complete line wins" |
| `Rules.TurnsAlternate` | react_app_cdk/tik-tak-toe-2/src/App.js:59 | move 0 is X's, X moves exactly at the even move numbers, and the mark alternates from one move number to the next |
| `Rules.Status` | react_app_cdk/tik-tak-toe-2/src/App.js:135-138 | "Winner: m" exactly when some player owns a line, and m then owns one, namely the owner of the first complete line in the listed order; otherwise "Next player: X/O" by parity, a full board nobody won included |
| `Rules.WinNeedsThreeMarks` | react_app_cdk/tik-tak-toe-2/src/App.js:181 | a player who owns a line has at least three marks on the board |
| `Opponent.FirstEmptyFrom` | react_app_cdk/tik-tak-toe-2/src/App.js:190 | the first empty cell at or after k, or -1 exactly when there is none |
| `Opponent.GetBestMove` | react_app_cdk/tik-tak-toe-2/src/App.js:189-191 | the smallest index of an empty cell; -1 exactly when the board is full; never an occupied cell |
| `Opponent.AIMoveAsWritten` | react_app_cdk/tik-tak-toe-2/src/App.js:105-109 | as written, a board is always produced: on a full board it is the board itself, otherwise O on the first empty cell and nothing else changed |
| `Opponent.AIMove` | react_app_cdk/tik-tak-toe-2/src/App.js:105-109 | as intended, no board exactly when the board is full, otherwise O on the first empty cell and nothing else changed |
| `History.RecordMove` | react_app_cdk/tik-tak-toe-2/src/App.js:64-68 | entries 0..upto are kept unchanged, the new length is upto+2, and the new board is the last entry |
| `History.RecordMoveKeepsValid` | react_app_cdk/tik-tak-toe-2/src/App.js:64-68 | recording a move from any viewed entry keeps the timeline valid, later entries being dropped |
| `History.MarkCounts` | react_app_cdk/tik-tak-toe-2/src/App.js:86-88 | entry k holds (k+1)/2 X marks, k/2 O marks and 9-k empty cells |
| `History.HistoryBounded` | react_app_cdk/tik-tak-toe-2/src/App.js:65 | a valid timeline has at most ten entries |
| `History.TurnMatchesMarks` | react_app_cdk/tik-tak-toe-2/src/App.js:59 | the turn derived from the move number agrees with the board: X to move exactly when X and O have as many marks |
| `History.MarksPersist` | react_app_cdk/tik-tak-toe-2/src/App.js:86-87 | a mark once placed keeps its cell in every later entry |
| `History.MoveWinsOnlyForMover` | react_app_cdk/tik-tak-toe-2/src/App.js:84-88 | a move completes lines only for the player who made it |
| `History.WinnerIsLastMover` | react_app_cdk/tik-tak-toe-2/src/App.js:135-137 | on a recorded board only the last mover can own a line, so the mark reported does not depend on the line order |
| `History.NoWinBeforeMoveFive` | react_app_cdk/tik-tak-toe-2/src/App.js:84 | no entry before move 5 has a winner |
| `History.OnlyLastEntryWon` | react_app_cdk/tik-tak-toe-2/src/App.js:84 | every entry that has a successor is a board nobody won |
| `History.AIMoveIsMove` | react_app_cdk/tik-tak-toe-2/src/App.js:102-109 | on O's turn on a board nobody won, the intended opponent move is a legal move for the timeline |
| `History.AIRecordAsWritten` | react_app_cdk/tik-tak-toe-2/src/App.js:104-110 | as written, the timer always keeps the entries up to the viewed one and records a new last entry, the output of the as-written opponent move |
| `History.AsWrittenBreaksHistory` | react_app_cdk/tik-tak-toe-2/src/App.js:105-109 | as written, the timer on a full board appends a copy of the board, and the timeline stops being valid |
| `History.DrawnGameOpponentMoves` | react_app_cdk/tik-tak-toe-2/src/App.js:189-191 | in the drawn game below, every O is the first-empty-cell choice |
| `History.DrawnGameReachesFullBoard` | react_app_cdk/tik-tak-toe-2/src/App.js:102-109 | a valid game reaches a full board nobody won at move 9, where the opponent is due; the as-written timer then breaks the timeline |
| `GameState.Game.constructor` | react_app_cdk/tik-tak-toe-2/src/App.js:52-55 | no mode, a single empty board, move 0 viewed, flag clear |
| `GameState.Game.SelectMode` | react_app_cdk/tik-tak-toe-2/src/App.js:143 | the menu's choice sets the mode, which is only offered while no mode is set |
| `GameState.Game.HandlePlay` | react_app_cdk/tik-tak-toe-2/src/App.js:64-68 | the history becomes `RecordMove` of the old history at the viewed move, and the viewed move is the new last index; the timeline stays valid when `next` is a move on the viewed board |
| `GameState.Game.JumpTo` | react_app_cdk/tik-tak-toe-2/src/App.js:73-76 | sets the viewed move, clears the flag and leaves the history untouched |
| `GameState.Game.HandleSquareClick` | react_app_cdk/tik-tak-toe-2/src/App.js:82-89 | no change on a won board, an occupied cell or a raised flag; otherwise the viewed board with the mover's mark at i is recorded after the viewed move, and this is a legal move |
| `GameState.Game.RunAIEffect` | react_app_cdk/tik-tak-toe-2/src/App.js:102-118 | the flag is raised exactly when the mode is 'ai', O is to move and nobody has won; otherwise it is cleared |
| `GameState.Game.AITimerFires` | react_app_cdk/tik-tak-toe-2/src/App.js:104-111 | O is recorded on the first empty cell of the viewed board as a legal move, or nothing is recorded on a full board; the flag ends clear and the invariant holds |
| `GameState.Game.StatusLine` | react_app_cdk/tik-tak-toe-2/src/App.js:135-138 | for the viewed board: a winner message exactly when `calculateWinner` finds one, and it is "Winner: m" with m the player who made the last move; otherwise "Next player" by parity |

## Findings

| source | as written | input that shows it | evidently intended | confidence | as-written member | corrected member |
|---|---|---|---|---|---|---|
| react_app_cdk/tik-tak-toe-2/src/App.js:105-109 | the opponent's move is recorded when `aiMove !== null`, but `getBestMove` uses `findIndex`, which returns -1 rather than `null` on a full board; the write to index -1 changes no cell and the unchanged board is appended | mode 'ai'; X plays 4, O plays 0, X plays 2, O plays 1, X plays 3, O plays 5, X plays 8, O plays 6, X plays 7: the board is full at move 9 with no winner, so O is due and an extra identical entry "Go to move #10" is appended | record nothing when no cell is empty, and only clear the flag | high; not executed | `History.AsWrittenBreaksHistory` | `GameState.Game.AITimerFires` |

The rest of the model uses the corrected behaviour: `GameState.Game.AITimerFires` calls
`Opponent.GetBestMove` and records a board only when the index is not -1. The as-written move is
`Opponent.AIMoveAsWritten`, and `History.AIRecordAsWritten` records it. `History.DrawnGameReachesFullBoard`
proves the drawn game above is a valid timeline that reaches a full board nobody won, and
`History.DrawnGameOpponentMoves` proves that every O in it is the opponent's choice.

Two points where the model keeps the code's behaviour rather than a tidier one:
- The opponent returns -1, not a separate "no move" value, on a full board.
- `jumpTo` does no range check. The model puts the range in `JumpTo`'s precondition instead of
  ignoring out-of-range jumps.

## Left out

- Rendering is not modelled: `Square`, `Board`, `Menu`, `InfoPanel`, the move list, the final
  render and the image URL. They only present state.
- The 500 ms `setTimeout`, its `clearTimeout` cleanup and React's re-running of the effect are not
  modelled. The environment is expected to call `RunAIEffect` after each change of mode, move or
  board. `AITimerFires` may run only while the flag is set, which stands in for "the timer was
  not cancelled".
- GameState.Game.AITimerFires: does not cover the timer surviving a jump to the move already
  viewed. Such a jump clears the flag without re-running the effect, so the pending timer is not
  cancelled; the model does not let the timer fire once the flag is clear.
- JavaScript's write to the array property "-1" is modelled as "no cell changes".
- GameState.Game.JumpTo: requires the move to exist. The code relies on the move list offering
  only existing entries.
- GameState.Game.SelectMode: requires that no mode is set yet. The menu is rendered only then.
- Clicks before a mode is chosen are not excluded. The board is not rendered then, and the
  invariant holds either way.
