/**
 * Board states: a grid together with its cached classification, the
 * empty starting state, applying a move, and the successor states a
 * player can reach with one move.
 */
module States {
  import opened Board

  /** A grid and the classification cached in the source's `value` field. */
  datatype BoardState = BoardState(grid: Grid, value: Outcome)

  /** The cache invariant: the stored value is the classification of the grid. */
  predicate Valid(s: BoardState) {
    IsSquare(s.grid) && s.value == Classify(s.grid)
  }

  /** The empty cells of a grid, as (row, column) pairs. */
  function EmptySet(g: Grid): set<Move> {
    set i, j | 0 <= i < |g| && 0 <= j < |g[i]| && g[i][j] == Empty :: (i, j)
  }

  function EmptyCount(g: Grid): nat {
    |EmptySet(g)|
  }

  /** Row-major order: `a` lies strictly before `b` in a scan by ascending row, then column. */
  predicate Before(a: Move, b: Move) {
    a.0 < b.0 || (a.0 == b.0 && a.1 < b.1)
  }

  /** The empty starting state of an n x n game, 3 x 3 unless told otherwise; the size must be positive. */
  function New(n: int := 3): (s: BoardState)
    requires n >= 1
    ensures Valid(s)
    ensures |s.grid| == n
    ensures forall i, j :: 0 <= i < n && 0 <= j < n ==> s.grid[i][j] == Empty
    ensures s.value == Undetermined
  {
    var g := seq(n, _ => seq(n, _ => Empty));
    assert HasEmpty(g) by { assert g[0][0] == Empty; }
    assert forall k :: 0 <= k < |Lines(g)| ==> Owner(Lines(g)[k]).None? by {
      var ls := Lines(g);
      forall k | 0 <= k < |ls|
        ensures Owner(ls[k]).None?
      {
        assert |ls[k]| == n && ls[k][0] == Empty;
      }
    }
    BoardState(g, Undetermined)
  }

  /**
   * Places player `p`'s mark on cell `m` and reclassifies. The cell must
   * exist; it is not required to be empty, as the source overwrites it.
   */
  function MakeMove(s: BoardState, m: Move, p: Player): (t: BoardState)
    requires IsSquare(s.grid) && InRange(s.grid, m)
    ensures Valid(t)
    ensures |t.grid| == |s.grid|
    ensures t.grid[m.0][m.1] == p.Mark()
    ensures forall i, j :: 0 <= i < |s.grid| && 0 <= j < |s.grid| && (i, j) != m ==>
              t.grid[i][j] == s.grid[i][j]
  {
    var g := s.grid[m.0 := s.grid[m.0][m.1 := p.Mark()]];
    BoardState(g, Classify(g))
  }

  /** Filling an empty cell removes exactly that cell from the empty cells. */
  lemma MakeMoveFillsOneCell(s: BoardState, m: Move, p: Player)
    requires IsSquare(s.grid) && InRange(s.grid, m)
    requires s.grid[m.0][m.1] == Empty
    ensures EmptySet(MakeMove(s, m, p).grid) == EmptySet(s.grid) - {m}
    ensures EmptyCount(MakeMove(s, m, p).grid) == EmptyCount(s.grid) - 1
  {
    var t := MakeMove(s, m, p);
    assert m in EmptySet(s.grid);
    forall c | c in EmptySet(t.grid)
      ensures c in EmptySet(s.grid) - {m}
    {
      var i, j :| 0 <= i < |t.grid| && 0 <= j < |t.grid[i]| && t.grid[i][j] == Empty && c == (i, j);
    }
    forall c | c in EmptySet(s.grid) - {m}
      ensures c in EmptySet(t.grid)
    {
      var i, j :| 0 <= i < |s.grid| && 0 <= j < |s.grid[i]| && s.grid[i][j] == Empty && c == (i, j);
      assert t.grid[i][j] == Empty;
    }
  }

  /**
   * The empty cells at or after (i, j) in row-major order, in that order:
   * the scan of the source's two nested loops from that point on.
   */
  function EmptyCellsFrom(g: Grid, i: int, j: int): (cells: seq<Move>)
    requires IsSquare(g) && 0 <= i <= |g| && 0 <= j <= |g|
    decreases |g| - i, |g| - j
    ensures forall k :: 0 <= k < |cells| ==>
              InRange(g, cells[k]) && g[cells[k].0][cells[k].1] == Empty && !Before(cells[k], (i, j))
    ensures forall k, l :: 0 <= k < l < |cells| ==> Before(cells[k], cells[l])
    ensures forall r, c :: 0 <= r < |g| && 0 <= c < |g| && g[r][c] == Empty && !Before((r, c), (i, j)) ==>
              (r, c) in cells
  {
    if i == |g| then []
    else if j == |g| then EmptyCellsFrom(g, i + 1, 0)
    else if g[i][j] == Empty then [(i, j)] + EmptyCellsFrom(g, i, j + 1)
    else EmptyCellsFrom(g, i, j + 1)
  }

  /** Every empty cell of the grid, in row-major order. */
  function EmptyCells(g: Grid): (cells: seq<Move>)
    requires IsSquare(g)
    ensures forall k :: 0 <= k < |cells| ==> InRange(g, cells[k]) && g[cells[k].0][cells[k].1] == Empty
    ensures forall k, l :: 0 <= k < l < |cells| ==> Before(cells[k], cells[l])
    ensures forall m :: InRange(g, m) && g[m.0][m.1] == Empty ==> m in cells
  {
    EmptyCellsFrom(g, 0, 0)
  }

  lemma {:induction false} DistinctCardinality(cells: seq<Move>)
    requires forall k, l :: 0 <= k < l < |cells| ==> Before(cells[k], cells[l])
    ensures |set c | c in cells| == |cells|
  {
    if |cells| > 0 {
      var rest := cells[1..];
      DistinctCardinality(rest);
      assert (set c | c in cells) == {cells[0]} + (set c | c in rest);
      assert cells[0] !in (set c | c in rest);
    }
  }

  /** The row-major scan lists each empty cell exactly once. */
  lemma EmptyCellsCount(g: Grid)
    requires IsSquare(g)
    ensures |EmptyCells(g)| == EmptyCount(g)
  {
    var cells := EmptyCells(g);
    DistinctCardinality(cells);
    assert (set c | c in cells) == EmptySet(g);
  }

  lemma EachMoveFillsOneCell(s: BoardState, cells: seq<Move>, p: Player)
    requires IsSquare(s.grid)
    requires forall k :: 0 <= k < |cells| ==> InRange(s.grid, cells[k]) && s.grid[cells[k].0][cells[k].1] == Empty
    ensures forall k :: 0 <= k < |cells| ==> EmptyCount(MakeMove(s, cells[k], p).grid) == EmptyCount(s.grid) - 1
  {
    forall k | 0 <= k < |cells|
      ensures EmptyCount(MakeMove(s, cells[k], p).grid) == EmptyCount(s.grid) - 1
    {
      MakeMoveFillsOneCell(s, cells[k], p);
    }
  }

  /**
   * One state per empty cell, in row-major order, each the parent with
   * that cell taken by `p`.
   */
  function Successors(s: BoardState, p: Player): (succ: seq<BoardState>)
    requires IsSquare(s.grid)
    ensures |succ| == EmptyCount(s.grid) == |EmptyCells(s.grid)|
    ensures forall k :: 0 <= k < |succ| ==>
              succ[k] == MakeMove(s, EmptyCells(s.grid)[k], p) &&
              EmptyCount(succ[k].grid) == EmptyCount(s.grid) - 1
  {
    var cells := EmptyCells(s.grid);
    EmptyCellsCount(s.grid);
    EachMoveFillsOneCell(s, cells, p);
    seq(|cells|, k requires 0 <= k < |cells| => MakeMove(s, cells[k], p))
  }
}
