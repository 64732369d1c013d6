/** The game: the board as the game keeps it, its two players, whose turn it is, how many
    moves have been made, and whether the last move ended the game. */
module TicTacToe {
  import opened Board
  import Player

  const IN_PROGRESS := 1
  const WON := 2
  const DRAW := 3

  const MAX_NUM_MOVES := 9

  /** The two players for the names given: the name "cpu" makes a computer player, any other
      name a human one. Player 1 has id 0 and plays X; player 2 has id 1 and plays O. */
  function GetPlayers(name1: string, name2: string): (ps: seq<Player.Player>)
    ensures |ps| == 2
    ensures ps[0].id == 0 && ps[0].name == name1 && ps[0].letter == X
    ensures ps[1].id == 1 && ps[1].name == name2 && ps[1].letter == O
    ensures ps[0].IsHuman() <==> name1 != "cpu"
    ensures ps[1].IsHuman() <==> name2 != "cpu"
  {
    var player1 := if name1 == "cpu" then Player.ComputerPlayer(0, name1, X) else Player.HumanPlayer(0, name1, X);
    var player2 := if name2 == "cpu" then Player.ComputerPlayer(1, name2, O) else Player.HumanPlayer(1, name2, O);
    [player1, player2]
  }

  /** Row r, column c or one of the diagonals is full of the mark on (r, c). The diagonals
      count whether or not (r, c) lies on them. */
  predicate LineThrough(b: Board, r: int, c: int)
    requires OnBoard(r, c)
  {
    var m := At(b, r, c);
    RowFull(b, r, m) || ColumnFull(b, c, m) || DiagonalFull(b, m) || AntiDiagonalFull(b, m)
  }

  /** The status after the move on (lastRow, lastCol): each line is tested by comparing its
      three cells with each other and with the cell just played, then a full count of moves
      is a draw. */
  function Status(b: Board, moveCount: int, lastRow: int, lastCol: int): (s: int)
    requires OnBoard(lastRow, lastCol)
    ensures s == WON <==> LineThrough(b, lastRow, lastCol)
    ensures s == DRAW <==> !LineThrough(b, lastRow, lastCol) && moveCount == MAX_NUM_MOVES
    ensures s == IN_PROGRESS <==> !LineThrough(b, lastRow, lastCol) && moveCount != MAX_NUM_MOVES
  {
    var last := At(b, lastRow, lastCol);
    if At(b, lastRow, 0) == At(b, lastRow, 1) && At(b, lastRow, 1) == At(b, lastRow, 2) && At(b, lastRow, 2) == last then WON
    else if At(b, 0, lastCol) == At(b, 1, lastCol) && At(b, 1, lastCol) == At(b, 2, lastCol) && At(b, 2, lastCol) == last then WON
    else if At(b, 0, 0) == At(b, 1, 1) && At(b, 1, 1) == At(b, 2, 2) && At(b, 2, 2) == last then WON
    else if At(b, 2, 0) == At(b, 1, 1) && At(b, 1, 1) == At(b, 0, 2) && At(b, 0, 2) == last then WON
    else if moveCount == MAX_NUM_MOVES then DRAW
    else IN_PROGRESS
  }

  /** When the cell just played holds a letter, a win is a real line of that letter, and a
      draw on a board whose empty cells and moves add up to nine is a full board. */
  lemma StatusMeaning(b: Board, moveCount: int, r: int, c: int)
    requires OnBoard(r, c) && At(b, r, c) != Empty
    ensures Status(b, moveCount, r, c) == WON ==> HasLine(b, At(b, r, c))
    ensures EmptyCount(b) + moveCount == MAX_NUM_MOVES && Status(b, moveCount, r, c) == DRAW ==> EmptyCount(b) == 0
  {
  }

  /** On an empty cell the test compares blanks with blanks: the empty board reports a win. */
  lemma StatusOnEmptyCell()
    ensures Status(Blank, 0, 0, 0) == WON
  {
  }

  /** The player after `cur`: the one whose id follows cur's, counting modulo 2. */
  function Following(players: seq<Player.Player>, cur: Player.Player): (p: Player.Player)
    requires |players| == 2
    ensures players[0].id == 0 && players[1].id == 1 ==>
      (cur == players[0] ==> p == players[1]) && (cur == players[1] ==> p == players[0])
  {
    players[(cur.id + 1) % 2]
  }

  /** Passing the turn twice gives it back. */
  lemma FollowingTwice(players: seq<Player.Player>, cur: Player.Player)
    requires |players| == 2 && players[0].id == 0 && players[1].id == 1
    requires cur == players[0] || cur == players[1]
    ensures Following(players, Following(players, cur)) == cur
  {
  }

  class TicTacToe {
    /** The 3x3 grid, row by row: cell (r, c) is entry 3 * r + c. */
    var board: array<Cell>
    var players: seq<Player.Player>
    var status: int
    var moveCount: int
    var curPlayer: Player.Player

    ghost predicate Valid()
      reads this
    {
      && board.Length == 9
      && |players| == 2
      && players[0].id == 0 && players[0].letter == X
      && players[1].id == 1 && players[1].letter == O
      && (curPlayer == players[0] || curPlayer == players[1])
    }

    constructor (name1: string, name2: string)
      ensures Valid() && fresh(board)
      ensures board[..] == Blank && players == GetPlayers(name1, name2)
      ensures status == IN_PROGRESS && moveCount == 0 && curPlayer == players[0]
      ensures EmptyCount(board[..]) + moveCount == MAX_NUM_MOVES
    {
      var ps := GetPlayers(name1, name2);
      board := new Cell[9] [Empty, Empty, Empty, Empty, Empty, Empty, Empty, Empty, Empty];
      players := ps;
      status := IN_PROGRESS;
      moveCount := 0;
      curPlayer := ps[0];
      new;
      assert board[..] == Blank;
      assert EmptyCount(Blank) == MAX_NUM_MOVES;
    }

    /** Put the current player's letter on an empty cell. */
    method UpdateBoard(row: int, col: int)
      requires Valid() && OnBoard(row, col) && board[3 * row + col] == Empty
      modifies board
      ensures Valid()
      ensures board[..] == Place(old(board[..]), row, col, curPlayer.letter)
    {
      board[3 * row + col] := curPlayer.letter;
    }

    /** The status judged from the game's own board and move count. */
    function CheckStatus(lastRow: int, lastCol: int): (s: int)
      reads this, board
      requires Valid() && OnBoard(lastRow, lastCol)
      ensures s == WON <==> LineThrough(board[..], lastRow, lastCol)
      ensures s == DRAW <==> !LineThrough(board[..], lastRow, lastCol) && moveCount == MAX_NUM_MOVES
      ensures s == IN_PROGRESS <==> !LineThrough(board[..], lastRow, lastCol) && moveCount != MAX_NUM_MOVES
    {
      Status(board[..], moveCount, lastRow, lastCol)
    }

    /** The other of the game's two players. */
    function AlternatePlayer(): (p: Player.Player)
      reads this
      requires Valid()
      ensures p in players && p != curPlayer && p.id == (curPlayer.id + 1) % 2
    {
      Following(players, curPlayer)
    }

    /** Prepare a new game. The players are made again from the names unless the status is
        still in progress. */
    method ResetBoard(name1: string, name2: string)
      requires Valid()
      modifies this
      ensures Valid() && fresh(board) && board[..] == Blank
      ensures players == if old(status) != IN_PROGRESS then GetPlayers(name1, name2) else old(players)
      ensures status == IN_PROGRESS && moveCount == 0 && curPlayer == players[0]
      ensures EmptyCount(board[..]) + moveCount == MAX_NUM_MOVES
    {
      if status != 1 {
        players := GetPlayers(name1, name2);
      }
      board := new Cell[9] [Empty, Empty, Empty, Empty, Empty, Empty, Empty, Empty, Empty];
      status := IN_PROGRESS;
      moveCount := 0;
      curPlayer := players[0];
      assert board[..] == Blank;
      assert EmptyCount(Blank) == MAX_NUM_MOVES;
    }

    /** One turn of the game with the move given: mark the cell, count the move, judge the
        position from the cell just played, and pass the turn. */
    method Play(row: int, col: int)
      requires Valid() && OnBoard(row, col) && board[3 * row + col] == Empty
      modifies this, board
      ensures Valid() && board == old(board) && players == old(players)
      ensures board[..] == Place(old(board[..]), row, col, old(curPlayer).letter)
      ensures moveCount == old(moveCount) + 1
      ensures status == Status(board[..], moveCount, row, col)
      ensures status == WON ==> HasLine(board[..], old(curPlayer).letter)
      ensures curPlayer == Following(players, old(curPlayer)) && curPlayer != old(curPlayer)
      ensures EmptyCount(old(board[..])) + old(moveCount) == MAX_NUM_MOVES ==> EmptyCount(board[..]) + moveCount == MAX_NUM_MOVES
    {
      ghost var before: Board := board[..];
      UpdateBoard(row, col);
      PlaceCount(before, row, col, curPlayer.letter);
      moveCount := moveCount + 1;
      status := CheckStatus(row, col);
      StatusMeaning(board[..], moveCount, row, col);
      curPlayer := AlternatePlayer();
    }
  }
}
