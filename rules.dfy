/** Marks, the nine-cell board, win detection, turn parity and the status line of the game. */
module Rules {

  datatype Option<+T> = None | Some(value: T)

  /** The mark a player puts on the board. */
  datatype Player = X | O

  /** One cell of the board; `Empty` is the `null` every cell of a fresh board holds. */
  datatype Square = Empty | Marked(player: Player)

  /** A board always has nine cells; cell `3 * row + col` is at row `row`, column `col`. */
  type Board = b: seq<Square> | |b| == 9
    witness [Empty, Empty, Empty, Empty, Empty, Empty, Empty, Empty, Empty]

  /** A cell index. */
  type Index = i: int | 0 <= i < 9

  /** The board the game starts from. */
  const EmptyBoard: Board := [Empty, Empty, Empty, Empty, Empty, Empty, Empty, Empty, Empty]

  /** Three cells in a row, a column or a diagonal. */
  datatype Line = Line(a: Index, b: Index, c: Index)

  /** The eight winning lines, in the order they are checked: rows, columns, diagonals. */
  const Lines: seq<Line> := [
    Line(0, 1, 2), Line(3, 4, 5), Line(6, 7, 8),
    Line(0, 3, 6), Line(1, 4, 7), Line(2, 5, 8),
    Line(0, 4, 8), Line(2, 4, 6)
  ]

  function Other(p: Player): Player {
    if p == X then O else X
  }

  /** The test made on each line: its first cell is marked and the other two cells equal it. */
  predicate Complete(squares: Board, line: Line) {
    squares[line.a] != Empty && squares[line.a] == squares[line.b] && squares[line.a] == squares[line.c]
  }

  /** All three cells of `line` carry `p`'s mark. */
  predicate Holds(squares: Board, line: Line, p: Player) {
    squares[line.a] == Marked(p) && squares[line.b] == Marked(p) && squares[line.c] == Marked(p)
  }

  /** Reference definition of a win: `p` owns a whole row, column or diagonal. */
  predicate Wins(squares: Board, p: Player) {
    exists k | 0 <= k < |Lines| :: Holds(squares, Lines[k], p)
  }

  /** No cell is empty. */
  predicate Full(squares: Board) {
    forall i | 0 <= i < 9 :: squares[i] != Empty
  }

  /** The scan of `Lines` from position `k` on, returning at the first complete line. */
  function WinnerFrom(squares: Board, k: nat): (r: Option<Player>)
    requires k <= |Lines|
    ensures r.None? <==> forall j, p | k <= j < |Lines| :: !Holds(squares, Lines[j], p)
    ensures r.Some? ==>
      exists j | k <= j < |Lines| ::
        Holds(squares, Lines[j], r.value) && forall j' | k <= j' < j :: !Complete(squares, Lines[j'])
    decreases |Lines| - k
  {
    if k == |Lines| then None
    else
      var line := Lines[k];
      if Complete(squares, line) then
        assert Holds(squares, line, squares[line.a].player);
        Some(squares[line.a].player)
      else
        assert forall p :: !Holds(squares, line, p);
        WinnerFrom(squares, k + 1)
  }

  /**
   * The mark on the first complete line of the board, or `None` when no line is complete.
   * The result is `None` exactly when neither player wins, otherwise it is a player who wins,
   * namely the owner of the earliest complete line in the order of `Lines`.
   */
  function CalculateWinner(squares: Board): (r: Option<Player>)
    ensures r.None? <==> !Wins(squares, X) && !Wins(squares, O)
    ensures r.Some? ==> Wins(squares, r.value)
    ensures forall j | 0 <= j < |Lines| && Complete(squares, Lines[j]) ::
      (forall j' | 0 <= j' < j :: !Complete(squares, Lines[j'])) ==> r == Some(squares[Lines[j].a].player)
  {
    FirstCompleteLineDecides(squares);
    WinnerFrom(squares, 0)
  }

  /** What the full scan of `Lines` means, in terms of `Wins` and of the first complete line. */
  lemma FirstCompleteLineDecides(squares: Board)
    ensures var r := WinnerFrom(squares, 0);
      && (r.None? <==> !Wins(squares, X) && !Wins(squares, O))
      && (r.Some? ==> Wins(squares, r.value))
      && forall j | 0 <= j < |Lines| && Complete(squares, Lines[j]) ::
           (forall j' | 0 <= j' < j :: !Complete(squares, Lines[j'])) ==> r == Some(squares[Lines[j].a].player)
  {
    var r := WinnerFrom(squares, 0);
    if r.Some? {
      var p := r.value;
      var j0 :| 0 <= j0 < |Lines| && Holds(squares, Lines[j0], p)
        && forall j' | 0 <= j' < j0 :: !Complete(squares, Lines[j']);
      assert Complete(squares, Lines[j0]);
      assert Wins(squares, p);
      match p
      case X => assert Wins(squares, X);
      case O => assert Wins(squares, O);
      forall j | 0 <= j < |Lines| && Complete(squares, Lines[j]) && (forall j' | 0 <= j' < j :: !Complete(squares, Lines[j']))
        ensures r == Some(squares[Lines[j].a].player)
      {
        assert j == j0;
      }
    } else {
      forall j | 0 <= j < |Lines| ensures !Complete(squares, Lines[j]) {
        assert squares[Lines[j].a] == Empty || !Holds(squares, Lines[j], squares[Lines[j].a].player);
      }
    }
  }

  /** `xIsNext`: X moves when the move number is even. */
  function XIsNext(move: nat): bool {
    move % 2 == 0
  }

  /** The mark the player to move puts down at move number `move`. */
  function TurnMark(move: nat): Player {
    if XIsNext(move) then X else O
  }

  /** Turns alternate, starting with X: X moves at the even move numbers, O at the odd ones. */
  lemma TurnsAlternate(move: nat)
    ensures TurnMark(0) == X
    ensures TurnMark(move) == X <==> move % 2 == 0
    ensures TurnMark(move + 1) == Other(TurnMark(move))
    ensures TurnMark(move + 2) == TurnMark(move)
  {
  }

  function Symbol(p: Player): char {
    if p == X then 'X' else 'O'
  }

  const WinnerPrefix: string := "Winner: "
  const NextPrefix: string := "Next player: "

  predicate IsWinnerMessage(s: string) {
    |WinnerPrefix| <= |s| && s[..|WinnerPrefix|] == WinnerPrefix
  }

  /**
   * The status line: it announces a winner exactly when some player owns a line, and then
   * names the owner of the first complete line in the order of `Lines`; otherwise it names the
   * player whose turn it is by parity, including on a full board nobody won.
   */
  function Status(squares: Board, move: nat): (s: string)
    ensures IsWinnerMessage(s) <==> Wins(squares, X) || Wins(squares, O)
    ensures IsWinnerMessage(s) ==> |s| == |WinnerPrefix| + 1 && exists p :: Wins(squares, p) && s[|s| - 1] == Symbol(p)
    ensures forall j | 0 <= j < |Lines| && Complete(squares, Lines[j]) ::
      (forall j' | 0 <= j' < j :: !Complete(squares, Lines[j'])) ==> s == WinnerPrefix + [Symbol(squares[Lines[j].a].player)]
    ensures !IsWinnerMessage(s) ==> s == NextPrefix + [if XIsNext(move) then 'X' else 'O']
  {
    var winner := CalculateWinner(squares);
    if winner.Some? then
      var s := WinnerPrefix + [Symbol(winner.value)];
      assert s[|s| - 1] == Symbol(winner.value);
      s
    else
      var s := NextPrefix + [Symbol(TurnMark(move))];
      assert s[..|WinnerPrefix|] != WinnerPrefix by {
        assert s[0] == 'N';
      }
      s
  }

  /** `later` keeps every mark of `earlier` in its cell. */
  predicate Extends(later: Board, earlier: Board) {
    forall i | 0 <= i < 9 :: earlier[i] != Empty ==> later[i] == earlier[i]
  }

  /** A line owned on a board stays owned on every board that keeps its marks. */
  lemma WinsPersist(earlier: Board, later: Board, p: Player)
    requires Extends(later, earlier) && Wins(earlier, p)
    ensures Wins(later, p)
  {
    var k :| 0 <= k < |Lines| && Holds(earlier, Lines[k], p);
    assert Holds(later, Lines[k], p);
  }

  /** The number of cells of `squares` equal to `s`. */
  function Count(squares: seq<Square>, s: Square): (n: nat)
    ensures n <= |squares|
  {
    if squares == [] then 0
    else (if squares[0] == s then 1 else 0) + Count(squares[1..], s)
  }

  /** Marking an empty cell with `p` adds one `p`, removes one `Empty` and leaves every other count alone. */
  lemma {:induction false} CountPlace(squares: seq<Square>, i: int, p: Player, s: Square)
    requires 0 <= i < |squares| && squares[i] == Empty
    ensures s == Marked(p) ==> Count(squares[i := Marked(p)], s) == Count(squares, s) + 1
    ensures s == Empty ==> Count(squares[i := Marked(p)], s) + 1 == Count(squares, s)
    ensures s != Marked(p) && s != Empty ==> Count(squares[i := Marked(p)], s) == Count(squares, s)
  {
    var t := squares[i := Marked(p)];
    if i > 0 {
      assert t[1..] == squares[1..][i - 1 := Marked(p)];
      CountPlace(squares[1..], i - 1, p, s);
    } else {
      assert t[1..] == squares[1..];
    }
  }

  /** `s` sits at every index of the strictly increasing index list `idx`: `squares` holds at least `|idx|` of them. */
  lemma {:induction false} CountAtLeast(squares: seq<Square>, s: Square, idx: seq<int>)
    requires forall t | 0 <= t < |idx| :: 0 <= idx[t] < |squares| && squares[idx[t]] == s
    requires forall t | 0 < t < |idx| :: idx[t - 1] < idx[t]
    ensures Count(squares, s) >= |idx|
    decreases |squares|
  {
    if idx != [] {
      assert 0 <= idx[0] < |squares|;
      if idx[0] == 0 {
        var rest := seq(|idx| - 1, t requires 0 <= t < |idx| - 1 => idx[t + 1] - 1);
        assert forall t | 0 < t < |idx| :: idx[0] < idx[t] by {
          forall t | 0 < t < |idx| ensures idx[0] < idx[t] {
            IncreasingFromFirst(idx, t);
          }
        }
        CountAtLeast(squares[1..], s, rest);
      } else {
        var shifted := seq(|idx|, t requires 0 <= t < |idx| => idx[t] - 1);
        assert forall t | 0 < t < |idx| :: idx[0] <= idx[t] by {
          forall t | 0 < t < |idx| ensures idx[0] <= idx[t] {
            IncreasingFromFirst(idx, t);
          }
        }
        CountAtLeast(squares[1..], s, shifted);
      }
    }
  }

  /** In a strictly increasing list, the first element is below every later one. */
  lemma {:induction false} IncreasingFromFirst(idx: seq<int>, t: nat)
    requires forall u | 0 < u < |idx| :: idx[u - 1] < idx[u]
    requires 0 < t < |idx|
    ensures idx[0] < idx[t]
  {
    if t > 1 {
      IncreasingFromFirst(idx, t - 1);
    }
  }

  /** A player who owns a line has at least three marks on the board. */
  lemma WinNeedsThreeMarks(squares: Board, p: Player)
    requires Wins(squares, p)
    ensures Count(squares, Marked(p)) >= 3
  {
    var k :| 0 <= k < |Lines| && Holds(squares, Lines[k], p);
    var line := Lines[k];
    assert line.a < line.b < line.c;
    CountAtLeast(squares, Marked(p), [line.a, line.b, line.c]);
  }
}
