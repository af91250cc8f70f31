/**
 * Cells, players, outcomes and the classification of an N x N grid.
 *
 * A grid is a sequence of rows; a cell is empty or carries player one's
 * mark `x` or player two's mark `o`. Classification looks for a line that
 * one player fills completely, in a fixed order: every row, then every
 * column, then the main diagonal, then the anti-diagonal, and on each line
 * player one before player two. Without such a line the game is undecided
 * while some cell is empty and a tie once the grid is full.
 */
module Board {

  datatype Option<T> = None | Some(value: T)

  /** The contents of one cell; `Empty` is the source's `None`. */
  datatype Cell = Empty | X | O

  datatype Player = PlayerOne | PlayerTwo {

    /** The mark a player puts on the grid: `x` for player one, `o` for player two. */
    function Mark(): (c: Cell)
      ensures c != Empty
      ensures c == X <==> this == PlayerOne
      ensures c == O <==> this == PlayerTwo
    {
      if PlayerOne? then X else O
    }

    function Other(): Player {
      if PlayerOne? then PlayerTwo else PlayerOne
    }

    /** The numeric value of a win for this player. */
    function WinValue(): int {
      if PlayerOne? then 1 else -1
    }
  }

  /** The numeric value of a tie. */
  const TieValue: int := 0

  /** The classification of a grid; `Undetermined` is the source's `None` value. */
  datatype Outcome = Undetermined | Win(winner: Player) | Tie {

    /** The numeric value of a decided game. */
    function Score(): (v: int)
      requires !Undetermined?
      ensures -1 <= v <= 1
      ensures v == 1 <==> this == Win(PlayerOne)
      ensures v == -1 <==> this == Win(PlayerTwo)
      ensures v == 0 <==> this == Tie
    {
      match this
      case Win(p) => p.WinValue()
      case Tie => TieValue
    }
  }

  type Line = seq<Cell>
  type Grid = seq<seq<Cell>>

  /** A (row, column) pair of 0-based indices. */
  type Move = (int, int)

  predicate IsSquare(g: Grid) {
    forall i :: 0 <= i < |g| ==> |g[i]| == |g|
  }

  predicate InRange(g: Grid, m: Move) {
    0 <= m.0 < |g| && 0 <= m.1 < |g|
  }

  predicate HasEmpty(g: Grid)
    requires IsSquare(g)
  {
    exists i, j :: 0 <= i < |g| && 0 <= j < |g| && g[i][j] == Empty
  }

  function Column(g: Grid, j: int): (col: Line)
    requires IsSquare(g) && 0 <= j < |g|
    ensures |col| == |g|
    ensures forall i :: 0 <= i < |g| ==> col[i] == g[i][j]
  {
    seq(|g|, i requires 0 <= i < |g| => g[i][j])
  }

  function Diagonal(g: Grid): (d: Line)
    requires IsSquare(g)
    ensures |d| == |g|
    ensures forall i :: 0 <= i < |g| ==> d[i] == g[i][i]
  {
    seq(|g|, i requires 0 <= i < |g| => g[i][i])
  }

  /** The line from the bottom-left corner to the top-right corner. */
  function AntiDiagonal(g: Grid): (d: Line)
    requires IsSquare(g)
    ensures |d| == |g|
    ensures forall i :: 0 <= i < |g| ==> d[i] == g[|g| - i - 1][i]
  {
    seq(|g|, i requires 0 <= i < |g| => g[|g| - i - 1][i])
  }

  /**
   * Every candidate winning line, in the order classification inspects
   * them: rows top to bottom, columns left to right, the main diagonal,
   * the anti-diagonal.
   */
  function Lines(g: Grid): (ls: seq<Line>)
    requires IsSquare(g)
    ensures |ls| == 2 * |g| + 2
    ensures forall i :: 0 <= i < |g| ==> ls[i] == g[i]
    ensures forall j :: 0 <= j < |g| ==> ls[|g| + j] == Column(g, j)
    ensures ls[2 * |g|] == Diagonal(g)
    ensures ls[2 * |g| + 1] == AntiDiagonal(g)
  {
    g + seq(|g|, j requires 0 <= j < |g| => Column(g, j)) + [Diagonal(g), AntiDiagonal(g)]
  }

  predicate Filled(line: Line, c: Cell) {
    forall i :: 0 <= i < |line| ==> line[i] == c
  }

  /** The player owning a line: player one is asked first, so an empty line belongs to player one. */
  function Owner(line: Line): Option<Player> {
    if Filled(line, X) then Some(PlayerOne)
    else if Filled(line, O) then Some(PlayerTwo)
    else None
  }

  /** The owner of the first owned line, if any line is owned. */
  function FirstOwner(ls: seq<Line>): (w: Option<Player>)
    ensures w.None? <==> forall k :: 0 <= k < |ls| ==> Owner(ls[k]).None?
    ensures w.Some? ==> exists k :: 0 <= k < |ls| && Owner(ls[k]) == w &&
                           forall j :: 0 <= j < k ==> Owner(ls[j]).None?
  {
    if |ls| == 0 then None
    else if Owner(ls[0]).Some? then Owner(ls[0])
    else
      var w := FirstOwner(ls[1..]);
      assert forall k :: 1 <= k < |ls| ==> ls[k] == ls[1..][k - 1];
      w
  }

  /** The outcome of a grid. */
  function Classify(g: Grid): (o: Outcome)
    requires IsSquare(g)
    ensures o.Win? ==> exists k :: 0 <= k < |Lines(g)| && Owner(Lines(g)[k]) == Some(o.winner) &&
                          forall j :: 0 <= j < k ==> Owner(Lines(g)[j]).None?
    ensures !o.Win? <==> forall k :: 0 <= k < |Lines(g)| ==> Owner(Lines(g)[k]).None?
    ensures o.Undetermined? <==> !o.Win? && HasEmpty(g)
    ensures o.Tie? <==> !o.Win? && !HasEmpty(g)
  {
    match FirstOwner(Lines(g))
    case Some(p) => Win(p)
    case None => if HasEmpty(g) then Undetermined else Tie
  }

  /** The first owned line decides the outcome, whatever the lines after it hold. */
  lemma FirstOwnedLineDecides(g: Grid, k: int)
    requires IsSquare(g) && 0 <= k < |Lines(g)|
    requires Owner(Lines(g)[k]).Some?
    requires forall j :: 0 <= j < k ==> Owner(Lines(g)[j]).None?
    ensures Classify(g) == Win(Owner(Lines(g)[k]).value)
  {
    var ls := Lines(g);
    var o := Classify(g);
    assert o.Win?;
    var k' :| 0 <= k' < |ls| && Owner(ls[k']) == Some(o.winner) &&
              forall j :: 0 <= j < k' ==> Owner(ls[j]).None?;
  }

  /** A grid with no empty cell is decided: it is a win or a tie. */
  lemma FullGridIsDecided(g: Grid)
    requires IsSquare(g)
    requires forall i, j :: 0 <= i < |g| && 0 <= j < |g| ==> g[i][j] != Empty
    ensures !Classify(g).Undetermined?
  {
  }

  /**
   * Classification as the source computes it: loops over the rows, then
   * the columns, then the two diagonals, returning at the first line one
   * player fills, and finally a scan for an empty cell.
   */
  method UpdateValue(g: Grid) returns (o: Outcome)
    requires IsSquare(g)
    ensures o == Classify(g)
  {
    var n := |g|;
    ghost var ls := Lines(g);
    var i := 0;
    while i < n
      invariant 0 <= i <= n
      invariant forall k :: 0 <= k < i ==> Owner(ls[k]).None?
    {
      if Filled(g[i], X) {
        FirstOwnedLineDecides(g, i);
        return Win(PlayerOne);
      } else if Filled(g[i], O) {
        FirstOwnedLineDecides(g, i);
        return Win(PlayerTwo);
      }
      i := i + 1;
    }
    i := 0;
    while i < n
      invariant 0 <= i <= n
      invariant forall k :: 0 <= k < n + i ==> Owner(ls[k]).None?
    {
      var col := Column(g, i);
      if Filled(col, X) {
        FirstOwnedLineDecides(g, n + i);
        return Win(PlayerOne);
      } else if Filled(col, O) {
        FirstOwnedLineDecides(g, n + i);
        return Win(PlayerTwo);
      }
      i := i + 1;
    }
    var diag := Diagonal(g);
    var anti := AntiDiagonal(g);
    if Filled(diag, X) {
      FirstOwnedLineDecides(g, 2 * n);
      return Win(PlayerOne);
    } else if Filled(diag, O) {
      FirstOwnedLineDecides(g, 2 * n);
      return Win(PlayerTwo);
    } else if Filled(anti, X) {
      FirstOwnedLineDecides(g, 2 * n + 1);
      return Win(PlayerOne);
    } else if Filled(anti, O) {
      FirstOwnedLineDecides(g, 2 * n + 1);
      return Win(PlayerTwo);
    }
    assert forall k :: 0 <= k < |ls| ==> Owner(ls[k]).None?;
    var e := AnyEmpty(g);
    return if e then Undetermined else Tie;
  }

  /** The closing scan of the classification: whether some row still holds an empty cell. */
  method AnyEmpty(g: Grid) returns (e: bool)
    requires IsSquare(g)
    ensures e == HasEmpty(g)
  {
    var n := |g|;
    var i := 0;
    while i < n
      invariant 0 <= i <= n
      invariant forall r, c :: 0 <= r < i && 0 <= c < n ==> g[r][c] != Empty
    {
      if Empty in g[i] {
        return true;
      }
      i := i + 1;
    }
    return false;
  }
}
