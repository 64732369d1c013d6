# Tic-tac-toe: the computer player's search and the game state

This project models the two core parts of a command-line tic-tac-toe game in Dafny and
proves properties about them.

**The computer player (`Player.py`).** It scores a position from its own point of view:
+10 if one of the eight lines is all its letter, else -10 if one is all the other letter,
else 0 when the depth reaches 0, else 1 (still in play). It picks its move with a minimax
search with alpha-beta pruning. The search works on the game's own board: it places a
mark, recurses for the other letter and takes the mark back. It tries the empty cells in
row-major order, keeps the first strictly better move, and stops once the window
(alpha, beta) closes.

**The game (`TicTacToe.py`).** The game object holds:

- the board;
- the two players, where player 1 plays X and player 2 plays O, and the name `cpu` makes a
  computer player;
- the status: in progress, won or drawn;
- the move count;
- the current player.

It places the current player's letter. After each move it judges the status from the cell
just played. It passes the turn and can be reset for a new game.

How the model is built:

- **Board** (`Board.dfy`). The source's 3x3 list of lists of `'-'`, `'X'` and `'O'` is a
  sequence of nine `Cell`s in row-major order, so cell (r, c) is entry 3r + c, and the
  search and the game state take an `array<Cell>` of that length. `ValidMoves` is the
  source's row-major list of empty cells. `HasLine` says that a letter fills one of the
  eight lines.
- **Reference search** (`Player.dfy`). `EvaluateBoard` and `AlternateLetters` are pure
  functions. `Search` is plain minimax with no pruning. It tries the same moves in the same
  order and breaks ties the same way, and the lemmas about it state which move it plays.
- **Pruned search** (`ComputerPlayer.dfy`). `Minimax` is a method over the array that
  places and undoes marks in place, as the source does.
  - It is proved to leave the board as it found it.
  - It returns the static value at (-1, -1) on a finished position.
  - Over the window (-100, 100) that `GetNextMove` opens, it returns exactly what `Search`
    returns: the same value and the same move. Pruning therefore never changes the outcome.
  - Over a narrower window, it returns a bound on the exact value, in the usual alpha-beta
    sense.
- **Depth.** The depth the source passes is 9 minus the move count. During a game this is
  the number of empty cells: a new game and a reset start with empty cells + moves = 9,
  and `Play` keeps it. The results
  that need it assume depth <= empty cells.
- **Game state** (`TicTacToe.dfy`). The game is a class with the source's fields, and its
  methods change them in place. `Status` follows `check_status` comparison by comparison.
  Its contract says that the result is "won" exactly when the row or the column of the last
  cell, or either diagonal (whether or not the cell lies on it), is full of that cell's mark. `Play` is one turn of the game's loop.
  The move is given as a parameter.

The literal `-1` in the docstring of `evaluate_board` (Player.py:112) disagrees with the
code, which returns `IN_PROGRESS` = 1 (Player.py:4, 133). The model follows the code. The
comment at Player.py:53 calls the board a copy, but it is the game's own board. The model
passes the same array, and the proof that the board is restored rests on the undo alone.

## Model

| member | source | states |
|---|---|---|
| Board.Place | Player.py:89 | the new board holds the letter at (r, c) and every other cell unchanged |
| Board.ValidMoves | Player.py:86 | the list holds only empty cells on the board, in strictly increasing row-major order, and as many as the board has empty cells |
| Board.ValidMovesComplete | Player.py:86 | every empty cell is in the list of moves |
| Board.PlaceCount | TicTacToe.py:61-62 | marking an empty cell with a letter lowers the number of empty cells by exactly one |
| Player.AlternateLetters | Player.py:135-140 | the result is a letter (never empty) and differs from the input; every input other than X, the empty cell included, goes to X |
| Player.AlternateLettersInvolution | Player.py:135-140 | on X and O, swapping twice gives the letter back |
| Player.WinStatesHasLine | Player.py:114-126 | a triple of three equal letters occurs in the list of eight lines exactly when that letter fills a row, a column or a diagonal |
| Player.EvaluateBoard | Player.py:107-133 | the value is 10, -10, 0 or 1, and at depth 0 it is never 1 |
| Player.WinStates | Player.py:114-123 | the list has the eight lines, in the source's order; which triples it holds is stated by WinStatesHasLine |
| Player.EvaluateBoardWinStates | Player.py:124-133 | in the source's own terms, both directions for each of the four values: won iff the list of lines holds three of one's own letter, whatever the depth; lost iff it holds three of the other letter and not three of one's own; tied iff neither and depth 0; in progress iff neither and depth not 0 |
| Player.Improve | Player.py:95-96 | a strictly better move replaces the best; otherwise, ties included, the earlier best is kept; the result is no worse than either |
| Player.Sentinel | Player.py:81-84 | the starting value is beaten by every value strictly inside (-100, 100), for the maximizer and the minimizer alike |
| Player.ChildValue | Player.py:88-90 | no contract of its own: the value of the position reached by playing the letter on a cell, searched for the other letter one level shallower; stated by ChildrenMoves and ChildValueRange |
| Player.Children | Player.py:86-92 | no contract of its own: the empty cells from index n on, each with its ChildValue; ChildrenMoves states that these are exactly the listed moves in order |
| Player.Search | Player.py:76-105 | no contract of its own: plain minimax with the same move order and tie-break as the source and no pruning, the reference that Minimax is proved equal to; what it plays is stated by SearchBest, SearchIs, SearchSkips, SearchValue and SearchLastCell |
| Player.Pick | Player.py:81-100 | no contract of its own: the best of the first k candidates, starting from the sentinel, where only a strictly better value replaces the best so ties keep the earlier candidate; stated by PickBest and PickMonotone |
| Player.PickBest | Player.py:93-100 | the best of a list of candidates is one of them; no candidate is better, and every earlier candidate is strictly worse |
| Player.PickMonotone | Player.py:93-100 | the best value so far only improves as more candidates are seen |
| Player.ChildrenMoves | Player.py:86-92 | the candidates are exactly the empty cells in row-major order, each with the value of the position its move leads to |
| Player.SearchValue | Player.py:76-100 | with no more moves counted than empty cells, the minimax value is 10, -10 or 0, so the ±100 sentinel never survives |
| Player.ChildrenValues | Player.py:86-92 | there is one candidate per empty cell, and each has the value 10, -10 or 0 |
| Player.ChildValueRange | Player.py:88-92 | a move leads to 10, -10 or 0 when the position it reaches has enough empty cells |
| Player.SearchPick | Player.py:81-100 | on a position in play, minimax picks a candidate with a real outcome, no candidate better and all earlier ones strictly worse |
| Player.SearchBest | Player.py:81-105 | on a position in play, the move played is an empty cell of the list. Its value is that move's value; no move is better, and every move listed before it is strictly worse. So it is the first empty cell in row-major order that achieves the value |
| Player.SearchLastCell | Player.py:86-100 | with exactly one empty cell, that cell is played |
| Player.SearchIs | Player.py:86-105 | a move that no move betters and every earlier move is strictly worse than is the move played, with its value |
| Player.SearchSkips | Player.py:93-100 | a move that another move beats is never played |
| Player.SearchBetween | Player.py:93-100 | the reported value lies in every interval that holds the value of every move |
| Player.SearchBound | Player.py:93-100 | no move is better for the side to move than the reported value |
| ComputerPlayer.StepBounds | Player.py:93-100 | one step of the loop (narrow the window, then compare the move with the best) keeps the relation between the window, the best so far and the exact best |
| ComputerPlayer.StepFull | Player.py:93-103 | over the full window, one step picks the same best move as the unpruned step, and the window stays open |
| ComputerPlayer.Minimax | Player.py:61-105 | the board is restored. A finished position returns (-1, -1, value). The result bounds the exact minimax value as alpha-beta promises. With depth at most the number of empty cells, the value is 10, -10 or 0 and the move is an empty cell. Over the full window the result equals plain minimax, value and move |
| ComputerPlayer.SearchMoves | Player.py:86-105 | the loop over the moves, with the break on a closed window, restores the board. It bounds the best exact value over the moves, and over the full window it equals it |
| ComputerPlayer.ScoreMove | Player.py:87-103 | one pass of the loop keeps the loop invariant: the board is unchanged and the window and best relate to the exact best of the moves seen |
| ComputerPlayer.TryMove | Player.py:88-92 | placing, searching and undoing restores the board. The move reported is the cell tried, and its value bounds the exact value of that move |
| ComputerPlayer.GetNextMove | Player.py:48-59 | the caller's board is unchanged. With depth 9 minus the move count at most the number of empty cells, the move is the one plain minimax plays, and it is an empty cell while the game is in play |
| PlayerExamples.EvaluateWonBoards | test.py:113-121 | both won boards score 10, including the full one at depth 0 |
| PlayerExamples.EvaluateLostBoards | test.py:123-131 | both lost boards score -10 |
| PlayerExamples.EvaluateTiedBoard | test.py:133-136 | the full board with no line scores 0 |
| PlayerExamples.EvaluateOpenBoard | test.py:138-141 | the open board at depth 1 scores 1 |
| PlayerExamples.AlternateLettersExamples | test.py:101-108 | X goes to O and O to X |
| PlayerExamples.WinningMove | test.py:144-150 | on X - O / X - O / - - - at depth 5, plain minimax for X plays (2, 0) with value 10 |
| PlayerExamples.BlockAndWin | test.py:152-159 | on - - X / - O - / X - O, plain minimax for X plays (0, 0), with value 10 |
| PlayerExamples.BlockToSurvive | test.py:161-168 | on - - - / - O X / - X O, plain minimax for X plays (0, 0) |
| PlayerExamples.B4CornersLose | test.py:170-178 | on - - X / - O - / X - -, O on either corner (0, 0) or (2, 2) lets X force a win, and O on (0, 1) does not |
| PlayerExamples.AvoidCorners | test.py:170-178 | when both corners lose and (0, 1) does not, plain minimax plays neither corner |
| PlayerExamples.AvoidForcedLoss | test.py:170-178 | on - - X / - O - / X - -, plain minimax for O plays neither (0, 0) nor (2, 2) |
| PlayerExamples.MinimaxTakesWin | test.py:144-150 | the pruned search on that board as an array returns [2, 0, 10] |
| PlayerExamples.MinimaxBlocksAndWins | test.py:152-159 | the pruned search returns the move (0, 0) |
| PlayerExamples.MinimaxBlocks | test.py:161-168 | the pruned search returns the move (0, 0) |
| PlayerExamples.MinimaxAvoidsTrap | test.py:170-178 | the pruned search for O returns neither (0, 0) nor (2, 2) |
| TicTacToe.GetPlayers | TicTacToe.py:27-46 | two players: the first has id 0, the first name and X; the second has id 1, the second name and O; each is human exactly when its name is not "cpu" |
| TicTacToe.Status | TicTacToe.py:97-126 | won iff the row or the column of the last cell, or either diagonal, is full of the last cell's mark. Drawn iff there is no such line and the move count is 9, so a win beats a draw. In progress iff there is no such line and the count is not 9 |
| TicTacToe.StatusMeaning | TicTacToe.py:105-123 | when the last cell holds a letter, a win is a real line of that letter, and during a game a draw means a full board |
| TicTacToe.StatusOnEmptyCell | TicTacToe.py:105-119 | judged from an empty cell, the empty board counts as won, which is why the cell must be occupied |
| TicTacToe.Following | TicTacToe.py:128-135 | with ids 0 and 1, the turn passes from the first player to the second and back |
| TicTacToe.FollowingTwice | TicTacToe.py:128-135 | passing the turn twice gives it back to the same player |
| TicTacToe.TicTacToe.constructor | TicTacToe.py:13-25 | a new game has an empty board, the players for the names, the status in progress, no moves and player 1 to move, so empty cells + moves = 9 holds from the start |
| TicTacToe.TicTacToe.UpdateBoard | TicTacToe.py:75-83 | exactly the chosen cell becomes the current player's letter; no other cell or field changes |
| TicTacToe.TicTacToe.CheckStatus | TicTacToe.py:97-126 | the status of the game's own board and move count, with the three iffs of Status |
| TicTacToe.TicTacToe.AlternatePlayer | TicTacToe.py:128-135 | the result is the other of the two players, the one with the next id modulo 2 |
| TicTacToe.TicTacToe.ResetBoard | TicTacToe.py:137-147 | a fresh empty board, status in progress, no moves, player 1 to move and empty cells + moves = 9. The players are made again from the names unless the status was still in progress |
| TicTacToe.TicTacToe.Play | TicTacToe.py:60-64 | the cell gets the mover's letter and the count goes up by one. The status is judged from that cell, and a win is a line of the mover's letter. The turn passes to the other player, and empty cells + moves = 9 is kept |
| TicTacToeExamples.StatusWonBoards | test.py:24-45 | the row, column and both diagonal boards of the tests are judged won |
| TicTacToeExamples.StatusDrawBoard | test.py:47-51 | the full board with no line and 9 moves is judged drawn |
| TicTacToeExamples.StatusOpenBoard | test.py:53-57 | the board with one empty cell and 8 moves is in progress |
| TicTacToeExamples.GetPlayersExample | test.py:90-99 | "cpu" makes a computer player with id 0; "human" makes a human player with O |
| TicTacToeExamples.UpdateBoardExample | test.py:18-22 | after a new game and a move on (0, 0), the board is X - - / - - - / - - - |
| TicTacToeExamples.ResetBoardExample | test.py:72-88 | a finished game reset is an empty board, in progress, 0 moves and player 1 to move |
| TicTacToeExamples.PlayExample | TicTacToe.py:60-64 | two turns from a new game put X on (1, 1) and O on (0, 0), and the turn is back with player 1 |

## Left out

- `HumanPlayer.get_next_move` (Player.py:24-41) reads the row and the column from the
  terminal. It is interactive input and is not modelled.
- `play_game` and `print_board` (TicTacToe.py:49-73, 90-95) print and loop over moves from
  outside sources. Only one turn of the loop is modelled, as `Play`, with the move as a
  parameter.
- The occupied-cell branch of `update_board` (TicTacToe.py:85-88) asks the player again
  and recurses through terminal input. `UpdateBoard` and `Play` instead require the cell
  to be empty.
- Names read from the terminal when `get_players`, the constructor or `reset_board` get
  `None` (TicTacToe.py:32-33, 39-40) are terminal input. The model always takes the names
  as parameters.
- `main.py` is not part of this model. It holds only the replay prompt and the top-level
  loop.
- Python object identity, the `Player` class hierarchy and the `is_human` attribute are
  not modelled as such. The kind of player is a datatype variant, and `IsHuman` tells which.
- Letters are the three `Cell` values. The source's `alternate_letters` maps any string
  other than "X" to "X"; the model covers only `Empty` and `O` among the others.
- Minimax: when the depth exceeds the number of empty cells, a full board can still count
  as in progress. The search then finds no move and returns the sentinel. The model
  computes this case as the source does, but the value and move promises are stated only
  for a depth no larger than the number of empty cells, which is what every call in a game
  passes.
- GetNextMove: it requires a move count of at most 9, so that the depth is a natural
  number. The source never calls it after the ninth move.
