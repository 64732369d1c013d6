/** The computer player: the move it chooses, and the alpha-beta search that finds it by
    playing and undoing moves on the shared board. */
module ComputerPlayer {
  import opened Board
  import opened Player

  /** The computer's move: a search as deep as the moves left in the game, over the window
      (-100, 100), maximizing for the player's own letter. The board it is handed is the
      game's own board, not a copy; the search leaves it as it found it. */
  method GetNextMove(player: Player, board: array<Cell>, moveCount: nat) returns (row: int, col: int)
    requires board.Length == 9 && moveCount <= 9
    modifies board
    ensures board[..] == old(board[..])
    ensures var b: Board := old(board[..]);
      var depth := 9 - moveCount;
      var s := Search(b, depth, true, player.letter, player.letter);
      depth <= EmptyCount(b) ==>
        && Pos(row, col) == Pos(s.row, s.col)
        && (EvaluateBoard(b, depth, player.letter) == IN_PROGRESS ==> Pos(row, col) in ValidMoves(b))
  {
    var depth := 9 - moveCount;
    var maximizing := true;
    var bestMove := Minimax(board, depth, maximizing, player.letter, player.letter, -100, 100);
    row, col := bestMove.row, bestMove.col;
  }

  function Max(x: int, y: int): int {
    if x >= y then x else y
  }

  function Min(x: int, y: int): int {
    if x <= y then x else y
  }

  /** How the window (lo, hi) that the loop narrows relates to the caller's window
      (alpha, beta), the best value reported so far and the exact best of the moves seen:
      only the bound of the side to move moves, it never passes the best value, and the
      reported best bounds the exact one as AlphaBetaSound says. */
  predicate Bounds(maximizing: bool, alpha: int, beta: int, lo: int, hi: int, best: int, pick: int) {
    && (maximizing ==> hi == beta && lo <= Max(alpha, best))
    && (!maximizing ==> lo == alpha && hi >= Min(beta, best))
    && (alpha < beta ==> (best > alpha ==> pick >= best) && (best < beta ==> pick <= best))
  }

  /** Scoring one more move keeps Bounds. */
  lemma StepBounds(maximizing: bool, alpha: int, beta: int, lo: int, hi: int, best: Scored, cur: Scored, child: Scored, pick: Scored)
    requires Bounds(maximizing, alpha, beta, lo, hi, best.value, pick.value)
    requires alpha < beta ==> lo < hi && AlphaBetaSound(cur.value, child.value, lo, hi)
    ensures Bounds(maximizing, alpha, beta,
      if maximizing then Max(lo, best.value) else lo,
      if maximizing then hi else Min(hi, best.value),
      Improve(maximizing, best, cur).value, Improve(maximizing, pick, child).value)
  {
  }

  /** Over the full window every value is exact, so the window never closes. */
  lemma StepFull(maximizing: bool, alpha: int, beta: int, lo: int, hi: int, best: Scored, cur: Scored, child: Scored)
    requires alpha <= MIN && MAX <= beta
    requires Bounds(maximizing, alpha, beta, lo, hi, best.value, best.value)
    requires Outcome(best.value) || best.value == Sentinel(maximizing)
    requires Outcome(cur.value) && cur.row == child.row && cur.col == child.col
    requires lo < hi && AlphaBetaSound(cur.value, child.value, lo, hi)
    ensures Improve(maximizing, best, cur) == Improve(maximizing, best, child)
    ensures maximizing ==> Max(lo, best.value) < hi
    ensures !maximizing ==> lo < Min(hi, best.value)
  {
  }

  /** The source's minimax with alpha-beta pruning. A finished position (or an exhausted
      depth) reports its static value at (-1, -1). Otherwise every empty cell is tried in
      row-major order; the window bound of the side to move is raised to the best value
      seen *before* the current move is merged, and the loop stops as soon as the window
      closes. */
  method Minimax(board: array<Cell>, depth: nat, maximizing: bool, letter: Cell, me: Cell, alpha: int, beta: int)
    returns (best: Scored)
    requires board.Length == 9
    modifies board
    ensures board[..] == old(board[..])
    ensures var v := EvaluateBoard(old(board[..]), depth, me);
      v != IN_PROGRESS ==> best == Scored(-1, -1, v)
    ensures alpha < beta ==>
      AlphaBetaSound(best.value, Search(old(board[..]), depth, maximizing, letter, me).value, alpha, beta)
    ensures var b: Board := old(board[..]);
      depth <= EmptyCount(b) ==>
        Outcome(best.value) && (EvaluateBoard(b, depth, me) == IN_PROGRESS ==> Pos(best.row, best.col) in ValidMoves(b))
    ensures var b: Board := old(board[..]);
      alpha <= MIN && MAX <= beta && depth <= EmptyCount(b) ==> best == Search(b, depth, maximizing, letter, me)
    decreases depth, 2
  {
    ghost var b: Board := board[..];
    var boardValue := EvaluateBoard(board[..], depth, me);
    if boardValue == WINNER || boardValue == LOSER || boardValue == TIED {
      return Scored(-1, -1, boardValue);
    }
    var validMoves := ValidMoves(board[..]);
    ChildrenMoves(b, depth, maximizing, letter, me, 0);
    assert Scores(b, depth, maximizing, letter, me, validMoves, Children(b, depth, maximizing, letter, me, 0));
    best := SearchMoves(board, b, depth, maximizing, letter, me, alpha, beta, validMoves,
      Children(b, depth, maximizing, letter, me, 0));
  }

  /** What holds after the first i moves of the list have been scored: the board is as it was,
      the window (lo, hi) and the best move so far relate as Bounds says to the best of the
      first i exact values, and over a full window they are that best itself. */
  ghost predicate Scanned(board: seq<Cell>, b: Board, depth: nat, maximizing: bool, alpha: int, beta: int,
                          validMoves: seq<Pos>, cs: seq<Scored>, i: nat, lo: int, hi: int, best: Scored)
    requires i <= |cs|
  {
    && board == b
    && Bounds(maximizing, alpha, beta, lo, hi, best.value, Pick(maximizing, cs, i).value)
    && (alpha <= MIN && MAX <= beta && depth <= EmptyCount(b) ==> best == Pick(maximizing, cs, i))
    && (depth <= EmptyCount(b) && i == 0 ==> best.value == Sentinel(maximizing))
    && (depth <= EmptyCount(b) && i > 0 ==> Outcome(best.value) && Pos(best.row, best.col) in validMoves)
  }

  /** The moves of the list, each with its exact value. */
  ghost predicate Scores(b: Board, depth: nat, maximizing: bool, letter: Cell, me: Cell, validMoves: seq<Pos>, cs: seq<Scored>)
    requires depth >= 1
  {
    && |cs| == |validMoves|
    && (forall k | 0 <= k < |validMoves| :: InRange(validMoves[k]) && At(b, validMoves[k].row, validMoves[k].col) == Empty)
    && (forall k | 0 <= k < |validMoves| ::
          cs[k] == Scored(validMoves[k].row, validMoves[k].col, ChildValue(b, depth, maximizing, letter, me, validMoves[k])))
  }

  /** The loop of the search over the listed moves; `cs` holds their exact values. */
  method SearchMoves(board: array<Cell>, ghost b: Board, depth: nat, maximizing: bool, letter: Cell, me: Cell,
                     alpha: int, beta: int, validMoves: seq<Pos>, ghost cs: seq<Scored>)
    returns (best: Scored)
    requires board.Length == 9 && board[..] == b && depth >= 1
    requires Scores(b, depth, maximizing, letter, me, validMoves, cs)
    modifies board
    ensures board[..] == b
    ensures alpha < beta ==> AlphaBetaSound(best.value, Pick(maximizing, cs, |cs|).value, alpha, beta)
    ensures depth <= EmptyCount(b) && |validMoves| >= 1 ==> Outcome(best.value) && Pos(best.row, best.col) in validMoves
    ensures alpha <= MIN && MAX <= beta && depth <= EmptyCount(b) ==> best == Pick(maximizing, cs, |cs|)
    decreases depth, 1
  {
    best := if maximizing then Scored(-1, -1, MIN) else Scored(-1, -1, MAX);
    var lo, hi := alpha, beta;
    var i := 0;
    while i < |validMoves|
      invariant i <= |validMoves|
      invariant Scanned(board[..], b, depth, maximizing, alpha, beta, validMoves, cs, i, lo, hi, best)
      invariant alpha < beta ==> lo < hi
    {
      lo, hi, best := ScoreMove(board, b, depth, maximizing, letter, me, alpha, beta, validMoves, cs, i, lo, hi, best);
      i := i + 1;
      assert Scanned(board[..], b, depth, maximizing, alpha, beta, validMoves, cs, i, lo, hi, best);
      if hi <= lo {
        break;
      }
    }
    ScanDone(board[..], b, depth, maximizing, alpha, beta, validMoves, cs, i, lo, hi, best);
  }

  /** When the loop stops, because every move was scored or because the window closed, what
      it has found is what SearchMoves promises. */
  lemma ScanDone(board: seq<Cell>, b: Board, depth: nat, maximizing: bool, alpha: int, beta: int,
                 validMoves: seq<Pos>, cs: seq<Scored>, i: nat, lo: int, hi: int, best: Scored)
    requires i <= |cs| && Scanned(board, b, depth, maximizing, alpha, beta, validMoves, cs, i, lo, hi, best)
    requires i == |cs| || (i >= 1 && hi <= lo)
    requires alpha <= MIN && MAX <= beta && depth <= EmptyCount(b) ==> lo < hi
    ensures alpha < beta ==> AlphaBetaSound(best.value, Pick(maximizing, cs, |cs|).value, alpha, beta)
    ensures depth <= EmptyCount(b) && |cs| >= 1 ==> Outcome(best.value) && Pos(best.row, best.col) in validMoves
    ensures alpha <= MIN && MAX <= beta && depth <= EmptyCount(b) ==> best == Pick(maximizing, cs, |cs|)
  {
    PickMonotone(maximizing, cs, i, |cs|);
  }

  /** One pass of the loop: score move i, then narrow the window by the best value seen
      before it, then merge the move into the best. */
  method ScoreMove(board: array<Cell>, ghost b: Board, depth: nat, maximizing: bool, letter: Cell, me: Cell,
                   ghost alpha: int, ghost beta: int, validMoves: seq<Pos>, ghost cs: seq<Scored>, i: nat,
                   lo: int, hi: int, best: Scored)
    returns (lo': int, hi': int, best': Scored)
    requires board.Length == 9 && depth >= 1 && i < |validMoves|
    requires Scores(b, depth, maximizing, letter, me, validMoves, cs)
    requires Scanned(board[..], b, depth, maximizing, alpha, beta, validMoves, cs, i, lo, hi, best)
    requires alpha < beta ==> lo < hi
    modifies board
    ensures Scanned(board[..], b, depth, maximizing, alpha, beta, validMoves, cs, i + 1, lo', hi', best')
    ensures alpha <= MIN && MAX <= beta && depth <= EmptyCount(b) ==> lo' < hi'
    decreases depth, 0
  {
    var move := validMoves[i];
    ghost var child := cs[i];
    ghost var pick := Pick(maximizing, cs, i);
    ghost var ranged := depth <= EmptyCount(b);
    assert Pick(maximizing, cs, i + 1) == Improve(maximizing, pick, child);
    var cur := TryMove(board, depth, maximizing, letter, me, move, lo, hi);
    StepBounds(maximizing, alpha, beta, lo, hi, best, cur, child, pick);
    if alpha <= MIN && MAX <= beta && ranged {
      StepFull(maximizing, alpha, beta, lo, hi, best, cur, child);
    }
    lo', hi' := lo, hi;
    if maximizing {
      lo' := Max(lo, best.value);
    } else {
      hi' := Min(hi, best.value);
    }
    best' := Improve(maximizing, best, cur);
  }

  /** Play `letter` on the empty cell, search the position for the other letter, undo. */
  method TryMove(board: array<Cell>, depth: nat, maximizing: bool, letter: Cell, me: Cell, move: Pos, alpha: int, beta: int)
    returns (cur: Scored)
    requires board.Length == 9 && 1 <= depth && InRange(move) && At(board[..], move.row, move.col) == Empty
    modifies board
    ensures board[..] == old(board[..])
    ensures cur.row == move.row && cur.col == move.col
    ensures alpha < beta ==>
      AlphaBetaSound(cur.value, ChildValue(old(board[..]), depth, maximizing, letter, me, move), alpha, beta)
    ensures depth <= EmptyCount(old(board[..])) ==> Outcome(cur.value)
    decreases depth, -1
  {
    ghost var b0: Board := board[..];
    var r, c := move.row, move.col;
    board[3 * r + c] := letter;
    assert board[..] == Place(b0, r, c, letter);
    PlaceCount(b0, r, c, letter);
    cur := Minimax(board, depth - 1, !maximizing, AlternateLetters(letter), me, alpha, beta);
    board[3 * r + c] := Empty;
    cur := cur.(row := r, col := c);
  }
}
