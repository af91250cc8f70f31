/**
 * The computer's move. The computer plays player two: it evaluates every
 * successor for player two with player one to move and keeps the first
 * one, in row-major order, whose value is strictly smallest.
 */
module Computer {
  import opened Board
  import opened States
  import opened Search

  /** Among the first `n` values of `vs`, `k` is the first index holding the least one. */
  predicate IsFirstLeastOf(vs: seq<int>, n: int, k: int)
    requires 0 <= n <= |vs|
  {
    0 <= k < n &&
    (forall j :: 0 <= j < n ==> vs[k] <= vs[j]) &&
    (forall j :: 0 <= j < k ==> vs[k] < vs[j])
  }

  /** A later value that is not strictly smaller leaves the first least index in place. */
  lemma FirstLeastKept(vs: seq<int>, i: int, k: int)
    requires 0 <= i < |vs|
    requires IsFirstLeastOf(vs, i, k) && vs[k] <= vs[i]
    ensures IsFirstLeastOf(vs, i + 1, k)
  {
  }

  /** The first value, or one strictly below the least so far, becomes the first least index. */
  lemma FirstLeastMoved(vs: seq<int>, i: int, k: int)
    requires 0 <= i < |vs|
    requires 0 < i ==> IsFirstLeastOf(vs, i, k) && vs[i] < vs[k]
    ensures IsFirstLeastOf(vs, i + 1, i)
  {
  }

  /** The values of the states `cs` with player one to move. */
  function Values(cs: seq<BoardState>): (vs: seq<int>)
    requires forall j :: 0 <= j < |cs| ==> IsSquare(cs[j].grid)
    ensures |vs| == |cs|
    ensures forall j :: 0 <= j < |cs| ==> vs[j] == GameValue(cs[j], PlayerOne)
  {
    seq(|cs|, j requires 0 <= j < |cs| => GameValue(cs[j], PlayerOne))
  }

  /** `k` is the first index whose state has the least value with player one to move. */
  predicate IsFirstMinimum(cs: seq<BoardState>, k: int)
    requires forall j :: 0 <= j < |cs| ==> IsSquare(cs[j].grid)
  {
    IsFirstLeastOf(Values(cs), |cs|, k)
  }

  /** On an undecided state, the least successor value is the state's own value with player two to move. */
  lemma LeastSuccessorIsGameValue(s: BoardState, k: int)
    requires IsSquare(s.grid) && s.value.Undetermined?
    requires IsFirstMinimum(Successors(s, PlayerTwo), k)
    ensures GameValue(Successors(s, PlayerTwo)[k], PlayerOne) == GameValue(s, PlayerTwo)
  {
    var cs := Successors(s, PlayerTwo);
    var v := BestValue(cs, PlayerTwo, EmptyCount(s.grid));
    var vs := Values(cs);
    assert GameValue(s, PlayerTwo) == v;
    assert vs[k] <= v by {
      var m :| 0 <= m < |cs| && v == GameValue(cs[m], PlayerOne);
      assert vs[k] <= vs[m];
    }
    assert v <= vs[k];
  }

  /**
   * The selection loop of the game driver over candidate states: each is
   * evaluated with player one to move and a candidate replaces the
   * current choice only when its value is strictly smaller.
   */
  method FirstLeast(cs: seq<BoardState>) returns (best: Option<BoardState>)
    requires forall j :: 0 <= j < |cs| ==> IsSquare(cs[j].grid) && Valid(cs[j])
    ensures best.None? <==> |cs| == 0
    ensures best.Some? ==> exists k :: IsFirstMinimum(cs, k) && best.value == cs[k]
  {
    best := None;
    var bestValue := PosInf;
    ghost var bestIndex := -1;
    ghost var vs := Values(cs);
    var i := 0;
    while i < |cs|
      invariant 0 <= i <= |cs|
      invariant best.None? <==> i == 0
      invariant best.None? ==> bestValue == PosInf
      invariant best.Some? ==> IsFirstLeastOf(vs, i, bestIndex) && best.value == cs[bestIndex] &&
                               bestValue == vs[bestIndex]
    {
      var value := Minimax(cs[i], PlayerOne);
      assert value == vs[i];
      if value < bestValue {
        FirstLeastMoved(vs, i, bestIndex);
        best := Some(cs[i]);
        bestValue := value;
        bestIndex := i;
      } else {
        FirstLeastKept(vs, i, bestIndex);
      }
      i := i + 1;
    }
  }

  /**
   * The computer's reply: the first successor for player two, in
   * row-major order, of least value. There is no reply exactly when
   * player two has no successor, and on an undecided state the reply's
   * value is the value of the state itself with player two to move.
   */
  method SelectMove(s: BoardState) returns (best: Option<BoardState>)
    requires IsSquare(s.grid)
    ensures best.None? <==> |Successors(s, PlayerTwo)| == 0
    ensures best.Some? ==> exists k :: IsFirstMinimum(Successors(s, PlayerTwo), k) &&
                                       best.value == Successors(s, PlayerTwo)[k]
    ensures Valid(s) && s.value.Undetermined? ==> best.Some?
    ensures s.value.Undetermined? && best.Some? ==> GameValue(best.value, PlayerOne) == GameValue(s, PlayerTwo)
  {
    var cs := Successors(s, PlayerTwo);
    best := FirstLeast(cs);
    if s.value.Undetermined? {
      UndecidedHasMove(s);
      if best.Some? {
        var k :| IsFirstMinimum(cs, k) && best.value == cs[k];
        LeastSuccessorIsGameValue(s, k);
      }
    }
  }
}
