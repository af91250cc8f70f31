/**
 * Concrete positions that pin down the classification order and the
 * effect of a move.
 */
module Scenarios {
  import opened Board
  import opened States

  /**
   * On a 2 x 2 grid the diagonals do not cross: player two filling the
   * main diagonal wins although player one fills the anti-diagonal,
   * because the main diagonal is inspected first.
   */
  lemma DiagonalBeforeAntiDiagonal()
    ensures Classify([[O, X], [X, O]]) == Win(PlayerTwo)
  {
    var g := [[O, X], [X, O]];
    assert !Filled(Lines(g)[0], X) && !Filled(Lines(g)[0], O) by { assert Lines(g)[0][0] == O && Lines(g)[0][1] == X; }
    assert !Filled(Lines(g)[1], X) && !Filled(Lines(g)[1], O) by { assert Lines(g)[1][0] == X && Lines(g)[1][1] == O; }
    assert !Filled(Lines(g)[2], X) && !Filled(Lines(g)[2], O) by { assert Lines(g)[2][0] == O && Lines(g)[2][1] == X; }
    assert !Filled(Lines(g)[3], X) && !Filled(Lines(g)[3], O) by { assert Lines(g)[3][0] == X && Lines(g)[3][1] == O; }
    assert Filled(Lines(g)[4], O) && !Filled(Lines(g)[4], X) by { assert Lines(g)[4][0] == O; }
    FirstOwnedLineDecides(g, 4);
  }

  /** An upper row decides before a lower one, whichever player fills it. */
  lemma UpperRowFirst()
    ensures Classify([[O, O, O], [X, X, X], [Empty, Empty, Empty]]) == Win(PlayerTwo)
  {
    var g := [[O, O, O], [X, X, X], [Empty, Empty, Empty]];
    assert Lines(g)[0] == [O, O, O];
    assert !Filled(Lines(g)[0], X);
    FirstOwnedLineDecides(g, 0);
  }

  /** A grid of no rows has an empty, hence player-one-owned, diagonal: it classifies as player one's win. */
  lemma NoRowsIsPlayerOneWin()
    ensures Classify([]) == Win(PlayerOne)
  {
    var g: Grid := [];
    assert Lines(g)[0] == Diagonal(g) == [];
    FirstOwnedLineDecides(g, 0);
  }

  /** Completing the top row wins for player one immediately. */
  lemma CompletingTopRowWins()
    ensures var s := BoardState([[X, X, Empty], [O, O, Empty], [Empty, Empty, Empty]], Undetermined);
            MakeMove(s, (0, 2), PlayerOne).value == Win(PlayerOne)
  {
    var s := BoardState([[X, X, Empty], [O, O, Empty], [Empty, Empty, Empty]], Undetermined);
    var t := MakeMove(s, (0, 2), PlayerOne);
    var row := t.grid[0];
    assert row[0] == X && row[1] == X && row[2] == X;
    assert Filled(row, X);
    assert Lines(t.grid)[0] == row;
    FirstOwnedLineDecides(t.grid, 0);
  }

  /** The full grid of the tie scenario. */
  function TieGrid(): (g: Grid)
    ensures IsSquare(g) && |g| == 3
  {
    [[X, O, X], [X, O, O], [O, X, X]]
  }

  lemma TieGridHasNoOwnedLine()
    ensures forall k :: 0 <= k < |Lines(TieGrid())| ==> Owner(Lines(TieGrid())[k]).None?
  {
    var ls := Lines(TieGrid());
    assert Owner(ls[0]).None? by { assert ls[0][1] == O && ls[0][0] == X; }
    assert Owner(ls[1]).None? by { assert ls[1][1] == O && ls[1][0] == X; }
    assert Owner(ls[2]).None? by { assert ls[2][1] == X && ls[2][0] == O; }
    assert Owner(ls[3]).None? by { assert ls[3][2] == O && ls[3][0] == X; }
    assert Owner(ls[4]).None? by { assert ls[4][2] == X && ls[4][0] == O; }
    assert Owner(ls[5]).None? by { assert ls[5][1] == O && ls[5][0] == X; }
    assert Owner(ls[6]).None? by { assert ls[6][1] == O && ls[6][0] == X; }
    assert Owner(ls[7]).None? by { assert ls[7][2] == X && ls[7][0] == O; }
    forall k | 0 <= k < |ls|
      ensures Owner(ls[k]).None?
    {
      assert k in {0, 1, 2, 3, 4, 5, 6, 7};
    }
  }

  lemma TieGridIsFull()
    ensures !HasEmpty(TieGrid())
  {
    var g := TieGrid();
    forall i, j | 0 <= i < 3 && 0 <= j < 3
      ensures g[i][j] != Empty
    {
      assert g[i] == [X, O, X] || g[i] == [X, O, O] || g[i] == [O, X, X];
      assert j == 0 || j == 1 || j == 2;
    }
  }

  /** A full grid without a completed line is a tie worth 0. */
  lemma FullGridWithoutLineIsTie()
    ensures Classify(TieGrid()) == Tie
    ensures Classify(TieGrid()).Score() == 0
  {
    TieGridHasNoOwnedLine();
    TieGridIsFull();
  }
}
