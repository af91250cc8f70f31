# Tic-tac-toe game core in Dafny

A model of the game core of a console tic-tac-toe program (`tictactoe.py`),
with proofs about it. The human plays player one (`x`); the computer plays
player two (`o`) and chooses its move by minimax search with alpha-beta
pruning.

The model has these parts:

- `Board` (`board.dfy`): cells, players, outcomes and the outcome values
  (+1 for a player-one win, -1 for a player-two win, 0 for a tie). A grid is
  `seq<seq<Cell>>`. `Classify` is the pure classification of a grid, and
  `UpdateValue` is the source's loop-by-loop version, proved equal to it.
  Classification looks at the candidate lines in a fixed order: rows, then
  columns, then the main diagonal, then the anti-diagonal. On each line player
  one is tested before player two. If no line is owned, the result is
  undetermined while an empty cell remains and a tie otherwise.
- `States` (`states.dfy`): a board state is a grid plus its cached outcome
  (the source's `value` field). `Valid` is the cache invariant. This module
  also holds the empty starting state, `MakeMove`, the row-major scan of the
  empty cells, and `Successors`.
- `Search` (`search.dfy`): `GameValue` is plain minimax over every successor,
  and serves as the reference. `AlphaBeta`, `MaximizerLoop` and
  `MinimizerLoop` are the pruned search, written as recursion over the
  successor list. `Minimax` starts that search with infinite bounds. The main
  theorem is `AlphaBetaSound`: inside the window the pruned search returns the
  exact minimax value, and outside it the result lands on the correct side.
  Recursion ends because every successor has one empty cell fewer than its
  parent.
- `Computer` (`computer.dfy`): the driver's move-selection loop. It keeps the
  first successor, in row-major order, with the strictly least value.
- `MoveInput` (`move_input.dfy`): the validation of typed moves such as `b3`,
  written as a pure function from text and grid to a cell or an error.
- `Scenarios` (`scenarios.dfy`): concrete positions that pin down the
  classification order.

The model keeps three behaviours of the code that a reader might not expect:

- Successor generation does not check whether the state is already decided.
- `make_move` overwrites an occupied cell rather than refusing it.
- Only player two's move selection exists, so only the minimising selection
  is modelled.

## Model

| member | source | states |
|---|---|---|
| `Board.Player.Mark` | tictactoe.py:5-6 | Player one's mark is `x` and player two's is `o`, in both directions, and neither is the empty cell. |
| `Board.Outcome.Score` | tictactoe.py:8-12 | A decided outcome is worth +1 exactly when player one wins, -1 exactly when player two wins, and 0 exactly for a tie. Its value always lies between -1 and +1. |
| `Board.Lines` | tictactoe.py:88-119 | The candidate lines come in the order the checks inspect them: each row in turn, then each column, then the main diagonal, then the anti-diagonal, read from the bottom-left corner to the top-right. |
| `Board.FirstOwner` | tictactoe.py:89-119 | The result is the owner of the first line one player completely fills, with no owned line before it. It is none exactly when no line is owned. |
| `Board.Classify` | tictactoe.py:81-128 | A win goes to the owner of the first owned line in check order. Without an owned line, the grid is undetermined if and only if some cell is empty, and a tie if and only if none is. |
| `Board.FirstOwnedLineDecides` | tictactoe.py:88-119 | Once a line is owned and no earlier line is, the outcome is that line's owner, whatever later lines hold. An impossible grid with two winners is therefore decided by check order. |
| `Board.FullGridIsDecided` | tictactoe.py:120-127 | A grid with no empty cell is never undetermined. |
| `Board.UpdateValue` | tictactoe.py:81-128 | The source's classification procedure returns exactly `Classify` of the grid. It loops over rows, then columns, then the diagonals, then scans for an empty cell. |
| `Board.AnyEmpty` | tictactoe.py:120-127 | The closing scan of the classification reports an empty cell exactly when the grid has one. |
| `States.New` | tictactoe.py:19-27 | A new n x n state (n positive, 3 when not given) has every cell empty, is undetermined, and satisfies the cache invariant. |
| `States.MakeMove` | tictactoe.py:51-61 | Only cell (row, column) changes, and it gets the player's mark. Every other cell is unchanged, and the stored value is the classification of the new grid. |
| `States.MakeMoveFillsOneCell` | tictactoe.py:59-61 | Filling an empty cell removes exactly that cell from the set of empty cells, so the empty-cell count drops by one. |
| `States.EmptyCellsFrom` | tictactoe.py:73-75 | Scanning from (i, j) lists the empty cells at or after (i, j) in strictly increasing row-major order, and lists every such cell. |
| `States.EmptyCells` | tictactoe.py:72-79 | The whole-grid scan lists exactly the empty cells, each once, by ascending row and then column. |
| `States.EmptyCellsCount` | tictactoe.py:72-79 | The scan's length equals the number of empty cells. |
| `States.Successors` | tictactoe.py:63-79 | There is one successor per empty cell, in row-major order. Successor k is the parent with the k-th empty cell taken by the player, and it has one empty cell fewer. |
| `Search.UndecidedHasMove` | tictactoe.py:120-127 | A state whose stored value is undetermined and equals the classification of its grid has an empty cell, so the player to move always has a successor. |
| `Search.GameValue` | tictactoe.py:155-163 | When the stored value is the classification of the grid, the unpruned minimax value lies between -1 and +1. |
| `Search.BestValue` | tictactoe.py:134-151 | Over a non-empty list, the result is attained by some state's value with the opponent to move. It is at least every such value for player one and at most every such value for player two. It lies between -1 and +1 when every state's stored value is its classification. An empty list is worth the worst sentinel for the player. |
| `Search.GameValueIsOptimal` | tictactoe.py:155-163 | The minimax recurrence holds: on an undetermined state with an empty cell, some successor attains the value and none is better for the player to move. |
| `Search.AlphaBeta` | tictactoe.py:131-151 | A decided state returns its stored outcome's value at once. On an undecided state the search fails hard: player one's result is never below alpha and player two's never above beta. Its agreement with minimax is `Search.AlphaBetaSound`. |
| `Search.MaximizerLoop` | tictactoe.py:134-142 | Player one's loop never returns less than the alpha it was given. |
| `Search.MinimizerLoop` | tictactoe.py:143-151 | Player two's loop never returns more than the beta it was given. |
| `Search.AlphaBetaSound` | tictactoe.py:131-151 | For a window between the sentinels with alpha < beta, the pruned search equals the minimax value whenever that value lies strictly inside the window. It is at most alpha when the value is at most alpha, and at least beta when the value is at least beta. |
| `Search.MaximizerLoopSound` | tictactoe.py:134-142 | Player one's loop, including its early break, has the same window property relative to the maximum over the successors. |
| `Search.MinimizerLoopSound` | tictactoe.py:143-151 | Player two's loop, including its early break, has the same window property relative to the minimum over the successors. |
| `Search.Minimax` | tictactoe.py:154-166 | On every state, the search started with infinite bounds returns exactly the unpruned minimax value, so pruning never changes the result. When the stored value is the classification of the grid, the result is +1, 0 or -1. |
| `Computer.FirstLeast` | tictactoe.py:226-233 | There is no choice exactly when there are no candidates. Otherwise the choice is the candidate at the first index with the least value for player one to move: later ties do not replace it. |
| `Computer.SelectMove` | tictactoe.py:225-233 | The computer's choice is the first least-valued successor for player two. It is absent only when player two has no successor. On an undetermined state whose stored value is its classification, a choice exists. On any undetermined state, a choice's value equals the state's minimax value with player two to move. |
| `Computer.LeastSuccessorIsGameValue` | tictactoe.py:225-233 | On an undetermined state, the first least successor's value is the minimax value of the state with player two to move. |
| `MoveInput.ParseMove` | tictactoe.py:185-201 | An accepted text names an in-range empty cell and is that cell's letter-digit text. A text is refused as taken exactly when it is the letter-digit text of an occupied in-range cell. |
| `MoveInput.ParseMoveText` | tictactoe.py:185-201 | Every in-range empty cell that a row letter and column digit can name is accepted from its own text. |
| `Scenarios.DiagonalBeforeAntiDiagonal` | tictactoe.py:105-119 | On `[[o,x],[x,o]]` player two wins through the main diagonal, although player one fills the anti-diagonal. |
| `Scenarios.UpperRowFirst` | tictactoe.py:89-96 | With `o` filling the top row and `x` the middle row, player two wins, because rows are checked top-down. |
| `Scenarios.NoRowsIsPlayerOneWin` | tictactoe.py:105-108 | A grid with no rows classifies as a player-one win, because its diagonal is vacuously filled with `x`. |
| `Scenarios.CompletingTopRowWins` | tictactoe.py:59-61 | On `[[x,x,_],[o,o,_],[_,_,_]]`, player one playing (0, 2) is a player-one win at once. |
| `Scenarios.FullGridWithoutLineIsTie` | tictactoe.py:120-127 | A full grid without a completed line is a tie, with value 0. |

## Left out

- Board rendering (`__str__`) and the victory texts: display text only.
- The console input loop, the prompts and the game driver's printing: console I/O. Only the validation of the move text and the selection loop are modelled.
- `copy.deepcopy`: states are immutable values, so the parent is never changed by generating successors.
- `float('-inf')` and `float('inf')`: they are the integers -2 and +2 (`NegInf`, `PosInf`). These lie strictly outside the outcome values, which is all the search and the selection loop rely on.
- `States.MakeMove`: requires the cell to be in range. Python's negative indices, which would wrap to the far row or column, are not modelled, because no caller passes them.
- `States.New`: requires a positive size, as the constructor's documentation asks. For size 0 the constructor would store an undetermined value, while classification of the empty grid gives a player-one win (see `Scenarios.NoRowsIsPlayerOneWin`).
- The search reads the stored value, as the source does. The range of the values is stated only for states whose stored value is the classification of their grid. `New`, `MakeMove` and `Successors` only build such states.
- `Search.AlphaBetaSound`: stated only for windows inside [-2, 2] with alpha < beta. Those are the only windows the search ever creates from its infinite starting bounds.
- The value of the empty 3 x 3 board (a tie) and the computer's corner reply to a centre opening are not proved. Both need the whole game tree evaluated, which is beyond what the verifier can unfold.
- `MoveInput.ParseMove`: lower-case letters and digits are ASCII (`a`-`z`, `0`-`9`), as for a byte string. Locale-dependent classification is not modelled.
