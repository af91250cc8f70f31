/**
 * Adversarial search over board states. Player one maximises and player
 * two minimises the outcome value (+1 a win for player one, -1 a win for
 * player two, 0 a tie). `GameValue` is plain minimax over every successor;
 * `AlphaBeta` is the pruned search the program runs, and `Minimax` starts
 * it with infinite bounds. The main theorem is that pruning never changes
 * the value.
 */
module Search {
  import opened Board
  import opened States

  /** Stand-ins for the source's `float('-inf')` and `float('inf')`: strictly outside every outcome value. */
  const NegInf: int := -2
  const PosInf: int := 2

  function Max(a: int, b: int): int { if a >= b then a else b }
  function Min(a: int, b: int): int { if a <= b then a else b }

  /** The better of two values for player `p`. */
  function Best(p: Player, a: int, b: int): (r: int)
    ensures r == a || r == b
    ensures if p == PlayerOne then a <= r && b <= r else r <= a && r <= b
  {
    if p == PlayerOne then Max(a, b) else Min(a, b)
  }

  /** A valid undecided state still has an empty cell, so the player to move has a successor. */
  lemma UndecidedHasMove(s: BoardState)
    requires IsSquare(s.grid) && s.value.Undetermined?
    ensures Valid(s) ==> EmptyCount(s.grid) > 0
  {
    if Valid(s) {
      var i, j :| 0 <= i < |s.grid| && 0 <= j < |s.grid| && s.grid[i][j] == Empty;
      assert (i, j) in EmptySet(s.grid);
    }
  }

  /**
   * The minimax value of `s` with `p` to move, over every successor and
   * with no pruning: the reference the pruned search is measured against.
   * Like the source, it trusts the stored value; when that value is the
   * classification of the grid, the result is an outcome value.
   */
  function GameValue(s: BoardState, p: Player): (v: int)
    requires IsSquare(s.grid)
    decreases EmptyCount(s.grid), 1
    ensures Valid(s) ==> -1 <= v <= 1
  {
    if !s.value.Undetermined? then s.value.Score()
    else
      UndecidedHasMove(s);
      BestValue(Successors(s, p), p, EmptyCount(s.grid))
  }

  /**
   * The best value player `p` can pick among the states `cs`, each
   * evaluated with the opponent to move; an empty choice is worth the
   * worst sentinel for `p`. `bound` exceeds the empty-cell count of each
   * state and makes the recursion terminate.
   */
  function BestValue(cs: seq<BoardState>, p: Player, bound: nat): (v: int)
    requires forall k :: 0 <= k < |cs| ==> IsSquare(cs[k].grid) && EmptyCount(cs[k].grid) < bound
    decreases bound, 0, |cs|
    ensures |cs| > 0 && (forall k :: 0 <= k < |cs| ==> Valid(cs[k])) ==> -1 <= v <= 1
    ensures |cs| > 0 ==> exists k :: 0 <= k < |cs| && v == GameValue(cs[k], p.Other())
    ensures forall k :: 0 <= k < |cs| ==>
              if p == PlayerOne then GameValue(cs[k], p.Other()) <= v else v <= GameValue(cs[k], p.Other())
    ensures |cs| == 0 ==> v == (if p == PlayerOne then NegInf else PosInf)
  {
    if |cs| == 0 then (if p == PlayerOne then NegInf else PosInf)
    else
      var c := GameValue(cs[0], p.Other());
      var rest := BestValue(cs[1..], p, bound);
      assert forall k :: 1 <= k < |cs| ==> cs[k] == cs[1..][k - 1];
      Best(p, c, rest)
  }

  /**
   * The minimax recurrence: on an undecided state the value is attained
   * by some successor, and no successor is better for the player to move.
   */
  lemma GameValueIsOptimal(s: BoardState, p: Player)
    requires IsSquare(s.grid) && s.value.Undetermined? && EmptyCount(s.grid) > 0
    ensures exists k :: 0 <= k < |Successors(s, p)| && GameValue(s, p) == GameValue(Successors(s, p)[k], p.Other())
    ensures forall k :: 0 <= k < |Successors(s, p)| ==>
              var c := GameValue(Successors(s, p)[k], p.Other());
              if p == PlayerOne then c <= GameValue(s, p) else GameValue(s, p) <= c
  {
    var cs := Successors(s, p);
    assert GameValue(s, p) == BestValue(cs, p, EmptyCount(s.grid));
  }

  /**
   * The source's `_minimax_with_alpha_beta`: a decided state returns its
   * stored value; otherwise the player to move scans its successors in
   * row-major order, narrowing the window and stopping once it closes.
   */
  function AlphaBeta(s: BoardState, alpha: int, beta: int, p: Player): (r: int)
    requires IsSquare(s.grid)
    decreases EmptyCount(s.grid), 1
    ensures if s.value.Undetermined? then (if p == PlayerOne then alpha <= r else r <= beta)
            else r == s.value.Score()
  {
    if !s.value.Undetermined? then s.value.Score()
    else if p == PlayerOne then MaximizerLoop(Successors(s, PlayerOne), alpha, beta, EmptyCount(s.grid))
    else MinimizerLoop(Successors(s, PlayerTwo), alpha, beta, EmptyCount(s.grid))
  }

  /** Player one's loop: raise `alpha` by each child's value, stop once `beta <= alpha`, return `alpha`. */
  function MaximizerLoop(cs: seq<BoardState>, alpha: int, beta: int, bound: nat): (r: int)
    requires forall k :: 0 <= k < |cs| ==> IsSquare(cs[k].grid) && EmptyCount(cs[k].grid) < bound
    decreases bound, 0, |cs|
    ensures alpha <= r
  {
    if |cs| == 0 then alpha
    else
      var a := Max(alpha, AlphaBeta(cs[0], alpha, beta, PlayerTwo));
      if beta <= a then a else MaximizerLoop(cs[1..], a, beta, bound)
  }

  /** Player two's loop: lower `beta` by each child's value, stop once `beta <= alpha`, return `beta`. */
  function MinimizerLoop(cs: seq<BoardState>, alpha: int, beta: int, bound: nat): (r: int)
    requires forall k :: 0 <= k < |cs| ==> IsSquare(cs[k].grid) && EmptyCount(cs[k].grid) < bound
    decreases bound, 0, |cs|
    ensures r <= beta
  {
    if |cs| == 0 then beta
    else
      var b := Min(beta, AlphaBeta(cs[0], alpha, beta, PlayerOne));
      if b <= alpha then b else MinimizerLoop(cs[1..], alpha, b, bound)
  }

  /**
   * The pruned search agrees with plain minimax on everything that lies
   * inside the window, and lands on the correct side of the window
   * otherwise.
   */
  lemma {:induction false} AlphaBetaSound(s: BoardState, alpha: int, beta: int, p: Player)
    requires IsSquare(s.grid)
    requires NegInf <= alpha < beta <= PosInf
    decreases EmptyCount(s.grid), 1
    ensures GameValue(s, p) <= alpha ==> AlphaBeta(s, alpha, beta, p) <= alpha
    ensures beta <= GameValue(s, p) ==> beta <= AlphaBeta(s, alpha, beta, p)
    ensures alpha < GameValue(s, p) < beta ==> AlphaBeta(s, alpha, beta, p) == GameValue(s, p)
  {
    if s.value.Undetermined? {
      if p == PlayerOne {
        MaximizerLoopSound(Successors(s, p), alpha, beta, EmptyCount(s.grid));
      } else {
        MinimizerLoopSound(Successors(s, p), alpha, beta, EmptyCount(s.grid));
      }
    }
  }

  lemma {:induction false} MaximizerLoopSound(cs: seq<BoardState>, alpha: int, beta: int, bound: nat)
    requires forall k :: 0 <= k < |cs| ==> IsSquare(cs[k].grid) && EmptyCount(cs[k].grid) < bound
    requires NegInf <= alpha < beta <= PosInf
    decreases bound, 0, |cs|
    ensures var v, r := BestValue(cs, PlayerOne, bound), MaximizerLoop(cs, alpha, beta, bound);
      (v <= alpha ==> r <= alpha) && (beta <= v ==> beta <= r) && (alpha < v < beta ==> r == v)
  {
    if |cs| > 0 {
      AlphaBetaSound(cs[0], alpha, beta, PlayerTwo);
      var a := Max(alpha, AlphaBeta(cs[0], alpha, beta, PlayerTwo));
      if a < beta {
        MaximizerLoopSound(cs[1..], a, beta, bound);
      }
    }
  }

  lemma {:induction false} MinimizerLoopSound(cs: seq<BoardState>, alpha: int, beta: int, bound: nat)
    requires forall k :: 0 <= k < |cs| ==> IsSquare(cs[k].grid) && EmptyCount(cs[k].grid) < bound
    requires NegInf <= alpha < beta <= PosInf
    decreases bound, 0, |cs|
    ensures var v, r := BestValue(cs, PlayerTwo, bound), MinimizerLoop(cs, alpha, beta, bound);
      (v <= alpha ==> r <= alpha) && (beta <= v ==> beta <= r) && (alpha < v < beta ==> r == v)
  {
    if |cs| > 0 {
      AlphaBetaSound(cs[0], alpha, beta, PlayerOne);
      var b := Min(beta, AlphaBeta(cs[0], alpha, beta, PlayerOne));
      if alpha < b {
        MinimizerLoopSound(cs[1..], alpha, b, bound);
      }
    }
  }

  /**
   * The source's `minimax`: the pruned search started with infinite
   * bounds. It returns exactly the unpruned minimax value, which is one
   * of the three outcome values when the stored value is the
   * classification of the grid.
   */
  function Minimax(s: BoardState, p: Player): (v: int)
    requires IsSquare(s.grid)
    ensures v == GameValue(s, p)
    ensures Valid(s) ==> v == 1 || v == 0 || v == -1
  {
    AlphaBetaSound(s, NegInf, PosInf, p);
    AlphaBeta(s, NegInf, PosInf, p)
  }
}
