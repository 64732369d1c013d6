/** The games and positions the repository's tests set up, stated about the model. */
module TicTacToeExamples {
  import opened Board
  import Player
  import opened TicTacToe

  lemma StatusWonBoards()
    ensures Status([X, X, X, Empty, Empty, Empty, Empty, Empty, Empty], 0, 0, 0) == WON
    ensures Status([Empty, O, Empty, Empty, O, Empty, Empty, O, Empty], 0, 1, 1) == WON
    ensures Status([X, Empty, Empty, Empty, X, Empty, Empty, Empty, X], 0, 2, 2) == WON
    ensures Status([Empty, Empty, O, Empty, O, Empty, O, Empty, Empty], 0, 0, 2) == WON
  {
  }

  lemma StatusDrawBoard()
    ensures Status([X, X, O, O, X, X, X, O, O], 9, 1, 1) == DRAW
  {
  }

  lemma StatusOpenBoard()
    ensures Status([X, X, O, O, X, X, X, O, Empty], 8, 1, 1) == IN_PROGRESS
  {
  }

  lemma GetPlayersExample()
    ensures var ps := GetPlayers("cpu", "human");
      && !ps[0].IsHuman() && ps[1].IsHuman()
      && ps[0].id == 0 && ps[1].letter == O && ps[0].name == "cpu"
  {
  }

  /** A new game, then X on (0, 0). */
  method UpdateBoardExample() returns (cells: seq<Cell>, status: int, moveCount: int)
    ensures cells == [X, Empty, Empty, Empty, Empty, Empty, Empty, Empty, Empty]
    ensures status == IN_PROGRESS && moveCount == 0
  {
    var game := new TicTacToe("player 1", "player 2");
    game.UpdateBoard(0, 0);
    cells, status, moveCount := game.board[..], game.status, game.moveCount;
  }

  /** A finished game put back to the start: the players are made again from the new names. */
  method ResetBoardExample() returns (cells: seq<Cell>, status: int, moveCount: int, first: string)
    ensures cells == Blank && status == IN_PROGRESS && moveCount == 0 && first == "name 1"
  {
    var game := new TicTacToe("player 1", "player 2");
    game.status := WON;
    game.board := new Cell[9] [X, O, Empty, O, X, O, Empty, X, X];
    game.moveCount := 7;
    game.curPlayer := game.players[1];
    game.ResetBoard("name 1", "name 2");
    cells, status, moveCount, first := game.board[..], game.status, game.moveCount, game.curPlayer.name;
  }

  /** Two turns from a new game: X on (1, 1), then O on (0, 0); the turn is back with player 1. */
  method PlayExample() returns (cells: seq<Cell>, status: int, moveCount: int, next: nat)
    ensures cells == [O, Empty, Empty, Empty, X, Empty, Empty, Empty, Empty]
    ensures status == IN_PROGRESS && moveCount == 2 && next == 0
  {
    var game := new TicTacToe("player 1", "cpu");
    game.Play(1, 1);
    assert game.board[..] == [Empty, Empty, Empty, Empty, X, Empty, Empty, Empty, Empty];
    assert game.curPlayer == game.players[1];
    game.Play(0, 0);
    cells, status, moveCount, next := game.board[..], game.status, game.moveCount, game.curPlayer.id;
  }
}
