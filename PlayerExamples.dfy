/** The positions the repository's tests put to the static evaluation, the letter swap and
    the search, stated as lemmas about the model. */
module PlayerExamples {
  import opened Board
  import opened Player
  import opened ComputerPlayer

  lemma EvaluateWonBoards()
    ensures EvaluateBoard([X, O, Empty, O, X, O, Empty, X, X], 2, X) == WINNER
    ensures EvaluateBoard([X, O, X, O, X, O, O, X, X], 0, X) == WINNER
  {
  }

  lemma EvaluateLostBoards()
    ensures EvaluateBoard([Empty, X, O, Empty, O, X, O, X, Empty], 3, X) == LOSER
    ensures EvaluateBoard([X, X, O, O, O, X, O, X, X], 0, X) == LOSER
  {
  }

  lemma EvaluateTiedBoard()
    ensures EvaluateBoard([X, X, O, O, O, X, X, O, X], 0, X) == TIED
  {
  }

  lemma EvaluateOpenBoard()
    ensures EvaluateBoard([X, X, O, O, X, X, X, O, Empty], 1, X) == IN_PROGRESS
  {
  }

  lemma AlternateLettersExamples()
    ensures AlternateLetters(X) == O && AlternateLetters(O) == X
  {
  }

  // X to move on X - O / X - O / - - -: the win at (2, 0).

  /** X - O / X - O / - - -, with X to move. */
  const B1: Board := [X, Empty, O, X, Empty, O, Empty, Empty, Empty]

  lemma B1Open()
    ensures EmptyCount(B1) == 5 && EvaluateBoard(B1, 5, X) == IN_PROGRESS
  {
  }

  lemma B1Win()
    ensures ChildValue(B1, 5, true, X, X, Pos(2, 0)) == WINNER
  {
    assert EvaluateBoard(Place(B1, 2, 0, X), 4, X) == WINNER;
  }

  lemma B1Loses(i: int, j: int)
    requires OnBoard(i, j) && At(B1, i, j) == Empty && 3 * i + j < 6
    ensures ChildValue(B1, 5, true, X, X, Pos(i, j)) < WINNER
  {
    var b' := Place(B1, i, j, X);
    PlaceCount(B1, i, j, X);
    B1Open();
    assert EvaluateBoard(b', 4, X) == IN_PROGRESS;
    SearchBound(b', 4, false, O, X, 2, 2);
    assert EvaluateBoard(Place(b', 2, 2, O), 3, X) == LOSER;
  }

  lemma B1Bounded(i: int, j: int)
    requires OnBoard(i, j) && At(B1, i, j) == Empty
    ensures ChildValue(B1, 5, true, X, X, Pos(i, j)) <= WINNER
  {
    B1Open();
    PlaceCount(B1, i, j, X);
    ChildValueRange(B1, 5, true, X, X, Pos(i, j));
  }

  lemma WinningMove()
    ensures Search(B1, 5, true, X, X) == Scored(2, 0, WINNER)
  {
    B1Open();
    B1Win();
    forall i, j | OnBoard(i, j) && At(B1, i, j) == Empty
      ensures NoWorse(true, ChildValue(B1, 5, true, X, X, Pos(2, 0)), ChildValue(B1, 5, true, X, X, Pos(i, j)))
    {
      B1Bounded(i, j);
    }
    forall i, j | OnBoard(i, j) && At(B1, i, j) == Empty && 3 * i + j < 3 * 2 + 0
      ensures Better(true, ChildValue(B1, 5, true, X, X, Pos(2, 0)), ChildValue(B1, 5, true, X, X, Pos(i, j)))
    {
      B1Loses(i, j);
    }
    SearchIs(B1, 5, true, X, X, 2, 0);
  }

  // X to move on - - X / - O - / X - O and on - - - / - O X / - X O: the block at (0, 0).

  /** - - X / - O - / X - O, with X to move. */
  const B2: Board := [Empty, Empty, X, Empty, O, Empty, X, Empty, O]
  /** - - - / - O X / - X O, with X to move. */
  const B3: Board := [Empty, Empty, Empty, Empty, O, X, Empty, X, O]

  lemma B2Open()
    ensures EmptyCount(B2) == 5 && EvaluateBoard(B2, 5, X) == IN_PROGRESS
  {
  }

  /** Any move but (0, 0) lets O complete the diagonal. */
  lemma B2Unblocked(i: int, j: int)
    requires OnBoard(i, j) && At(B2, i, j) == Empty && (i, j) != (0, 0)
    ensures ChildValue(B2, 5, true, X, X, Pos(i, j)) == LOSER
  {
    var b' := Place(B2, i, j, X);
    PlaceCount(B2, i, j, X);
    B2Open();
    assert EvaluateBoard(b', 4, X) == IN_PROGRESS;
    SearchBound(b', 4, false, O, X, 0, 0);
    assert EvaluateBoard(Place(b', 0, 0, O), 3, X) == LOSER;
    SearchValue(b', 4, false, O, X);
  }

  /** After (0, 0), every reply of O leaves X a line to complete. */
  lemma B2Reply(i: int, j: int)
    requires OnBoard(i, j) && At(Place(B2, 0, 0, X), i, j) == Empty
    ensures ChildValue(Place(B2, 0, 0, X), 4, false, O, X, Pos(i, j)) == WINNER
  {
    var b := Place(B2, 0, 0, X);
    B2Open();
    PlaceCount(B2, 0, 0, X);
    var b' := Place(b, i, j, O);
    PlaceCount(b, i, j, O);
    assert EvaluateBoard(b', 3, X) == IN_PROGRESS;
    var r, c := if (i, j) == (0, 1) then 1 else 0, if (i, j) == (0, 1) then 0 else 1;
    SearchBound(b', 3, true, X, X, r, c);
    assert EvaluateBoard(Place(b', r, c, X), 2, X) == WINNER;
    assert ChildValue(b', 3, true, X, X, Pos(r, c)) == WINNER;
    SearchValue(b', 3, true, X, X);
  }

  /** The move at (0, 0) blocks O and sets up two lines for X. */
  lemma B2Block()
    ensures ChildValue(B2, 5, true, X, X, Pos(0, 0)) == WINNER
  {
    var b := Place(B2, 0, 0, X);
    B2Open();
    PlaceCount(B2, 0, 0, X);
    assert EvaluateBoard(b, 4, X) == IN_PROGRESS;
    forall i, j | OnBoard(i, j) && At(b, i, j) == Empty
      ensures WINNER <= ChildValue(b, 4, false, O, X, Pos(i, j)) <= WINNER
    {
      B2Reply(i, j);
    }
    SearchBetween(b, 4, false, O, X, WINNER, WINNER);
  }

  lemma BlockAndWin()
    ensures Search(B2, 5, true, X, X) == Scored(0, 0, WINNER)
  {
    B2Open();
    B2Block();
    forall i, j | OnBoard(i, j) && At(B2, i, j) == Empty
      ensures NoWorse(true, ChildValue(B2, 5, true, X, X, Pos(0, 0)), ChildValue(B2, 5, true, X, X, Pos(i, j)))
    {
      if (i, j) != (0, 0) {
        B2Unblocked(i, j);
      }
    }
    SearchIs(B2, 5, true, X, X, 0, 0);
  }

  lemma B3Open()
    ensures EmptyCount(B3) == 5 && EvaluateBoard(B3, 5, X) == IN_PROGRESS
  {
  }

  lemma B3Unblocked(i: int, j: int)
    requires OnBoard(i, j) && At(B3, i, j) == Empty && (i, j) != (0, 0)
    ensures ChildValue(B3, 5, true, X, X, Pos(i, j)) == LOSER
  {
    var b' := Place(B3, i, j, X);
    PlaceCount(B3, i, j, X);
    B3Open();
    assert EvaluateBoard(b', 4, X) == IN_PROGRESS;
    SearchBound(b', 4, false, O, X, 0, 0);
    assert EvaluateBoard(Place(b', 0, 0, O), 3, X) == LOSER;
    SearchValue(b', 4, false, O, X);
  }

  lemma BlockToSurvive()
    ensures var s := Search(B3, 5, true, X, X); s.row == 0 && s.col == 0
  {
    B3Open();
    PlaceCount(B3, 0, 0, X);
    ChildValueRange(B3, 5, true, X, X, Pos(0, 0));
    forall i, j | OnBoard(i, j) && At(B3, i, j) == Empty
      ensures NoWorse(true, ChildValue(B3, 5, true, X, X, Pos(0, 0)), ChildValue(B3, 5, true, X, X, Pos(i, j)))
    {
      if (i, j) != (0, 0) {
        B3Unblocked(i, j);
      }
    }
    SearchIs(B3, 5, true, X, X, 0, 0);
  }

  // O to move on - - X / - O - / X - -: the corners (0, 0) and (2, 2) lose.

  /** - - X / - O - / X - -, with O to move. */
  const B4: Board := [Empty, Empty, X, Empty, O, Empty, X, Empty, Empty]

  lemma B4Open()
    ensures EmptyCount(B4) == 6 && EvaluateBoard(B4, 5, O) == IN_PROGRESS
  {
  }

  /** O on (0, 0): X answers (2, 2) and then threatens (1, 2) and (2, 1) at once. */
  lemma B4CornerReply(i: int, j: int)
    requires OnBoard(i, j) && At(Place(Place(B4, 0, 0, O), 2, 2, X), i, j) == Empty
    ensures ChildValue(Place(Place(B4, 0, 0, O), 2, 2, X), 3, true, O, O, Pos(i, j)) == LOSER
  {
    var b := Place(Place(B4, 0, 0, O), 2, 2, X);
    B4Open();
    PlaceCount(B4, 0, 0, O);
    PlaceCount(Place(B4, 0, 0, O), 2, 2, X);
    var b' := Place(b, i, j, O);
    PlaceCount(b, i, j, O);
    assert EvaluateBoard(b', 2, O) == IN_PROGRESS;
    var r, c := if (i, j) == (1, 2) then 2 else 1, if (i, j) == (1, 2) then 1 else 2;
    SearchBound(b', 2, false, X, O, r, c);
    assert EvaluateBoard(Place(b', r, c, X), 1, O) == LOSER;
    assert ChildValue(b', 2, false, X, O, Pos(r, c)) == LOSER;
    SearchValue(b', 2, false, X, O);
  }

  /** O on (0, 0), then X on (2, 2): every move of O loses. */
  lemma B4CornerAnswer()
    ensures ChildValue(Place(B4, 0, 0, O), 4, false, X, O, Pos(2, 2)) == LOSER
  {
    var b := Place(B4, 0, 0, O);
    var b' := Place(b, 2, 2, X);
    B4Open();
    PlaceCount(B4, 0, 0, O);
    PlaceCount(b, 2, 2, X);
    assert EvaluateBoard(b', 3, O) == IN_PROGRESS;
    forall i, j | OnBoard(i, j) && At(b', i, j) == Empty
      ensures LOSER <= ChildValue(b', 3, true, O, O, Pos(i, j)) <= LOSER
    {
      B4CornerReply(i, j);
    }
    SearchBetween(b', 3, true, O, O, LOSER, LOSER);
  }

  lemma B4Corner(b0: Board)
    requires b0 == B4
    ensures ChildValue(b0, 5, true, O, O, Pos(0, 0)) == LOSER
  {
    var b := Place(B4, 0, 0, O);
    B4Open();
    PlaceCount(B4, 0, 0, O);
    assert EvaluateBoard(b, 4, O) == IN_PROGRESS;
    B4CornerAnswer();
    SearchBound(b, 4, false, X, O, 2, 2);
    SearchValue(b, 4, false, X, O);
  }

  /** O on (2, 2): X answers (0, 0) and then threatens (0, 1) and (1, 0) at once. */
  lemma B4OppositeReply(i: int, j: int)
    requires OnBoard(i, j) && At(Place(Place(B4, 2, 2, O), 0, 0, X), i, j) == Empty
    ensures ChildValue(Place(Place(B4, 2, 2, O), 0, 0, X), 3, true, O, O, Pos(i, j)) == LOSER
  {
    var b := Place(Place(B4, 2, 2, O), 0, 0, X);
    B4Open();
    PlaceCount(B4, 2, 2, O);
    PlaceCount(Place(B4, 2, 2, O), 0, 0, X);
    var b' := Place(b, i, j, O);
    PlaceCount(b, i, j, O);
    assert EvaluateBoard(b', 2, O) == IN_PROGRESS;
    var r, c := if (i, j) == (0, 1) then 1 else 0, if (i, j) == (0, 1) then 0 else 1;
    SearchBound(b', 2, false, X, O, r, c);
    assert EvaluateBoard(Place(b', r, c, X), 1, O) == LOSER;
    assert ChildValue(b', 2, false, X, O, Pos(r, c)) == LOSER;
    SearchValue(b', 2, false, X, O);
  }

  /** O on (2, 2), then X on (0, 0): every move of O loses. */
  lemma B4OppositeAnswer()
    ensures ChildValue(Place(B4, 2, 2, O), 4, false, X, O, Pos(0, 0)) == LOSER
  {
    var b := Place(B4, 2, 2, O);
    var b' := Place(b, 0, 0, X);
    B4Open();
    PlaceCount(B4, 2, 2, O);
    PlaceCount(b, 0, 0, X);
    assert EvaluateBoard(b', 3, O) == IN_PROGRESS;
    forall i, j | OnBoard(i, j) && At(b', i, j) == Empty
      ensures LOSER <= ChildValue(b', 3, true, O, O, Pos(i, j)) <= LOSER
    {
      B4OppositeReply(i, j);
    }
    SearchBetween(b', 3, true, O, O, LOSER, LOSER);
  }

  lemma B4Opposite(b0: Board)
    requires b0 == B4
    ensures ChildValue(b0, 5, true, O, O, Pos(2, 2)) == LOSER
  {
    var b := Place(B4, 2, 2, O);
    B4Open();
    PlaceCount(B4, 2, 2, O);
    assert EvaluateBoard(b, 4, O) == IN_PROGRESS;
    B4OppositeAnswer();
    SearchBound(b, 4, false, X, O, 0, 0);
    SearchValue(b, 4, false, X, O);
  }

  /** The line of play O (0, 1), X (2, 1), O (2, 2): the last X move and O's answer. */
  lemma B4EdgeLast(i: int, j: int)
    requires OnBoard(i, j) && At(Place(Place(Place(B4, 0, 1, O), 2, 1, X), 2, 2, O), i, j) == Empty
    ensures TIED <= ChildValue(Place(Place(Place(B4, 0, 1, O), 2, 1, X), 2, 2, O), 2, false, X, O, Pos(i, j))
  {
    var b := Place(Place(Place(B4, 0, 1, O), 2, 1, X), 2, 2, O);
    B4Open();
    PlaceCount(B4, 0, 1, O);
    PlaceCount(Place(B4, 0, 1, O), 2, 1, X);
    PlaceCount(Place(Place(B4, 0, 1, O), 2, 1, X), 2, 2, O);
    var b' := Place(b, i, j, X);
    PlaceCount(b, i, j, X);
    assert EvaluateBoard(b', 1, O) == IN_PROGRESS;
    var r, c := if (i, j) == (0, 0) then 1 else 0, 0;
    SearchBound(b', 1, true, O, O, r, c);
    assert EvaluateBoard(Place(b', r, c, O), 0, O) >= TIED;
    assert ChildValue(b', 1, true, O, O, Pos(r, c)) >= TIED;
  }

  /** O on (0, 1) threatens (2, 1); whatever X does, O does not lose. */
  lemma B4EdgeReply(i: int, j: int)
    requires OnBoard(i, j) && At(Place(B4, 0, 1, O), i, j) == Empty
    ensures TIED <= ChildValue(Place(B4, 0, 1, O), 4, false, X, O, Pos(i, j))
  {
    var b := Place(B4, 0, 1, O);
    B4Open();
    PlaceCount(B4, 0, 1, O);
    var b' := Place(b, i, j, X);
    PlaceCount(b, i, j, X);
    assert EvaluateBoard(b', 3, O) == IN_PROGRESS;
    if (i, j) == (2, 1) {
      var b'' := Place(b', 2, 2, O);
      PlaceCount(b', 2, 2, O);
      assert EvaluateBoard(b'', 2, O) == IN_PROGRESS;
      forall r, c | OnBoard(r, c) && At(b'', r, c) == Empty
        ensures TIED <= ChildValue(b'', 2, false, X, O, Pos(r, c)) <= WINNER
      {
        B4EdgeLast(r, c);
        PlaceCount(b'', r, c, X);
        ChildValueRange(b'', 2, false, X, O, Pos(r, c));
      }
      SearchBetween(b'', 2, false, X, O, TIED, WINNER);
      SearchBound(b', 3, true, O, O, 2, 2);
    } else {
      SearchBound(b', 3, true, O, O, 2, 1);
      assert EvaluateBoard(Place(b', 2, 1, O), 2, O) == WINNER;
      assert ChildValue(b', 3, true, O, O, Pos(2, 1)) == WINNER;
    }
  }

  lemma B4Edge(b0: Board)
    requires b0 == B4
    ensures TIED <= ChildValue(b0, 5, true, O, O, Pos(0, 1))
  {
    var b := Place(B4, 0, 1, O);
    B4Open();
    PlaceCount(B4, 0, 1, O);
    assert EvaluateBoard(b, 4, O) == IN_PROGRESS;
    forall i, j | OnBoard(i, j) && At(b, i, j) == Empty
      ensures TIED <= ChildValue(b, 4, false, X, O, Pos(i, j)) <= WINNER
    {
      B4EdgeReply(i, j);
      PlaceCount(b, i, j, X);
      ChildValueRange(b, 4, false, X, O, Pos(i, j));
    }
    SearchBetween(b, 4, false, X, O, TIED, WINNER);
  }

  /** What the three lines of play above establish about O's first move on B4. */
  predicate CornersLose(b: Board) {
    && 5 <= EmptyCount(b) && EvaluateBoard(b, 5, O) == IN_PROGRESS
    && At(b, 0, 0) == Empty && At(b, 0, 1) == Empty && At(b, 2, 2) == Empty
    && ChildValue(b, 5, true, O, O, Pos(0, 0)) == LOSER
    && ChildValue(b, 5, true, O, O, Pos(2, 2)) == LOSER
    && TIED <= ChildValue(b, 5, true, O, O, Pos(0, 1))
  }

  lemma B4CornersLose(b: Board)
    requires b == B4
    ensures CornersLose(b)
  {
    B4Open();
    B4Corner(b);
    B4Opposite(b);
    B4Edge(b);
  }

  /** On a board where both corners lose and (0, 1) does not, neither corner is played. */
  lemma AvoidCorners(b: Board)
    requires CornersLose(b)
    ensures var s := Search(b, 5, true, O, O);
      (s.row, s.col) != (0, 0) && (s.row, s.col) != (2, 2)
  {
    SearchSkips(b, 5, true, O, O, 0, 0, 0, 1);
    SearchSkips(b, 5, true, O, O, 2, 2, 0, 1);
  }

  /** Both corners let X force a win; (0, 1) does not, so neither corner is played. */
  lemma AvoidForcedLoss(b: Board)
    requires b == B4
    ensures var s := Search(b, 5, true, O, O);
      (s.row, s.col) != (0, 0) && (s.row, s.col) != (2, 2)
  {
    B4CornersLose(b);
    AvoidCorners(b);
  }

  /** The tests' calls of the search itself, on the board as an array, over the window
      (-100, 100) at depth 5. */
  method MinimaxTakesWin() returns (best: Scored)
    ensures best == Scored(2, 0, WINNER)
  {
    var board := new Cell[9] [X, Empty, O, X, Empty, O, Empty, Empty, Empty];
    assert board[..] == B1;
    B1Open();
    best := Minimax(board, 5, true, X, X, -100, 100);
    WinningMove();
  }

  method MinimaxBlocksAndWins() returns (row: int, col: int)
    ensures row == 0 && col == 0
  {
    var board := new Cell[9] [Empty, Empty, X, Empty, O, Empty, X, Empty, O];
    assert board[..] == B2;
    B2Open();
    var best := Minimax(board, 5, true, X, X, -100, 100);
    BlockAndWin();
    row, col := best.row, best.col;
  }

  method MinimaxBlocks() returns (row: int, col: int)
    ensures row == 0 && col == 0
  {
    var board := new Cell[9] [Empty, Empty, Empty, Empty, O, X, Empty, X, O];
    assert board[..] == B3;
    B3Open();
    var best := Minimax(board, 5, true, X, X, -100, 100);
    BlockToSurvive();
    row, col := best.row, best.col;
  }

  method MinimaxAvoidsTrap() returns (row: int, col: int)
    ensures (row, col) != (0, 0) && (row, col) != (2, 2)
  {
    var board := new Cell[9] [Empty, Empty, X, Empty, O, Empty, X, Empty, Empty];
    assert board[..] == B4;
    B4Open();
    var best := Minimax(board, 5, true, O, O, -100, 100);
    AvoidForcedLoss(board[..]);
    row, col := best.row, best.col;
  }
}
