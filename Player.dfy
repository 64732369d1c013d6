/** The automated player: the static evaluation of a position, the letter swap, the
    plain minimax value and move (the reference the search is proved against), and
    the lemmas about that reference. */
module Player {
  import opened Board

  const WINNER := 10
  const LOSER := -10
  const TIED := 0
  const IN_PROGRESS := 1

  /** Window bounds and the sentinel values the search starts from. */
  const MAX := 100
  const MIN := -100

  /** A player: who moves, with which letter, and whether moves are typed in or searched for. */
  datatype Player =
    | HumanPlayer(id: nat, name: string, letter: Cell)
    | ComputerPlayer(id: nat, name: string, letter: Cell)
  {
    predicate IsHuman() {
      HumanPlayer?
    }
  }

  /** A finished game's value: a win, a loss or a tie. */
  predicate Outcome(v: int) {
    v == LOSER || v == TIED || v == WINNER
  }

  /** A move with its value; row and column are -1 for a leaf. */
  datatype Scored = Scored(row: int, col: int, value: int)

  /** The other letter: X goes to O and every other input goes to X. */
  function AlternateLetters(letter: Cell): (r: Cell)
    ensures r != Empty && r != letter
    ensures letter != X ==> r == X
  {
    if letter == X then O else X
  }

  /** On the two real letters the swap is its own inverse. */
  lemma AlternateLettersInvolution(letter: Cell)
    requires letter != Empty
    ensures AlternateLetters(AlternateLetters(letter)) == letter
  {
  }

  /** The eight lines, in the order the source lists them: rows, columns, diagonals. */
  function WinStates(b: Board): (ws: seq<(Cell, Cell, Cell)>)
    ensures |ws| == 8
  {
    [(At(b, 0, 0), At(b, 0, 1), At(b, 0, 2)),
     (At(b, 1, 0), At(b, 1, 1), At(b, 1, 2)),
     (At(b, 2, 0), At(b, 2, 1), At(b, 2, 2)),
     (At(b, 0, 0), At(b, 1, 0), At(b, 2, 0)),
     (At(b, 0, 1), At(b, 1, 1), At(b, 2, 1)),
     (At(b, 0, 2), At(b, 1, 2), At(b, 2, 2)),
     (At(b, 0, 0), At(b, 1, 1), At(b, 2, 2)),
     (At(b, 2, 0), At(b, 1, 1), At(b, 0, 2))]
  }

  /** Some listed line holds three m's exactly when m fills a row, a column or a diagonal. */
  lemma WinStatesHasLine(b: Board, m: Cell)
    ensures (m, m, m) in WinStates(b) <==> HasLine(b, m)
  {
    var w := WinStates(b);
    var full := (m, m, m);
    assert RowFull(b, 0, m) <==> w[0] == full;
    assert RowFull(b, 1, m) <==> w[1] == full;
    assert RowFull(b, 2, m) <==> w[2] == full;
    assert ColumnFull(b, 0, m) <==> w[3] == full;
    assert ColumnFull(b, 1, m) <==> w[4] == full;
    assert ColumnFull(b, 2, m) <==> w[5] == full;
    assert DiagonalFull(b, m) <==> w[6] == full;
    assert AntiDiagonalFull(b, m) <==> w[7] == full;
  }

  /** The static value of a position for the player holding `me`; `depth` is the
      number of moves left, so 0 means the search has run out of moves. */
  function EvaluateBoard(b: Board, depth: nat, me: Cell): (v: int)
    ensures Outcome(v) || v == IN_PROGRESS
    ensures depth == 0 ==> v != IN_PROGRESS
  {
    var winLetter := me;
    var loseLetter := AlternateLetters(me);
    if HasLine(b, winLetter) then WINNER
    else if HasLine(b, loseLetter) then LOSER
    else if depth == 0 then TIED
    else IN_PROGRESS
  }

  /** The evaluation in the source's own terms, the list of eight lines: a listed line of
      one's own letter wins whatever the depth, else a listed line of the other letter loses,
      else an exhausted depth is a tie, and otherwise the position is still in play. */
  lemma EvaluateBoardWinStates(b: Board, depth: nat, me: Cell)
    ensures var v := EvaluateBoard(b, depth, me);
      var ws := WinStates(b);
      var w, l := (me, me, me), (AlternateLetters(me), AlternateLetters(me), AlternateLetters(me));
      && (v == WINNER <==> w in ws)
      && (v == LOSER <==> w !in ws && l in ws)
      && (v == TIED <==> w !in ws && l !in ws && depth == 0)
      && (v == IN_PROGRESS <==> w !in ws && l !in ws && depth != 0)
  {
    WinStatesHasLine(b, me);
    WinStatesHasLine(b, AlternateLetters(me));
  }

  /** The better of two scored moves for the side to move; ties keep the earlier one. */
  function Improve(maximizing: bool, best: Scored, cur: Scored): (r: Scored)
    ensures r == cur <==> Better(maximizing, cur.value, best.value) || cur == best
    ensures r == best || r == cur
    ensures NoWorse(maximizing, r.value, best.value) && NoWorse(maximizing, r.value, cur.value)
  {
    if maximizing then (if cur.value > best.value then cur else best)
    else (if cur.value < best.value then cur else best)
  }

  /** The plain minimax value of the position reached by playing `letter` at p. */
  function ChildValue(b: Board, depth: nat, maximizing: bool, letter: Cell, me: Cell, p: Pos): int
    requires depth >= 1 && InRange(p)
    decreases |b| + depth, 0, 0
  {
    Search(Place(b, p.row, p.col, letter), depth - 1, !maximizing, AlternateLetters(letter), me).value
  }

  /** The moves on the empty cells with index n to 8, in row-major order, each with the value
      of the position it leads to. */
  function Children(b: Board, depth: nat, maximizing: bool, letter: Cell, me: Cell, n: nat): seq<Scored>
    requires depth >= 1 && n <= 9
    decreases |b| + depth, 1, |b| - n
  {
    if n == 9 then []
    else
      var p := PosOf(n);
      (if b[n] == Empty then [Scored(p.row, p.col, ChildValue(b, depth, maximizing, letter, me, p))] else []) +
      Children(b, depth, maximizing, letter, me, n + 1)
  }

  /** Plain minimax: the reference that the pruned search is proved to match. The measure
      carries the board's length (always 9) beside the depth only so that the verifier does
      not unfold the whole tree by itself whenever the depth is a literal. */
  function Search(b: Board, depth: nat, maximizing: bool, letter: Cell, me: Cell): Scored
    decreases |b| + depth, 2, 0
  {
    var v := EvaluateBoard(b, depth, me);
    if v != IN_PROGRESS then Scored(-1, -1, v)
    else var cs := Children(b, depth, maximizing, letter, me, 0); Pick(maximizing, cs, |cs|)
  }

  /** The value the search starts from before any move is seen. */
  function Sentinel(maximizing: bool): (v: int)
    ensures forall w | MIN < w < MAX :: Better(maximizing, w, v)
  {
    if maximizing then MIN else MAX
  }

  /** The best of the first k candidates for the side to move; ties keep the earlier one. */
  function Pick(maximizing: bool, cs: seq<Scored>, k: nat): Scored
    requires k <= |cs|
  {
    if k == 0 then Scored(-1, -1, Sentinel(maximizing))
    else Improve(maximizing, Pick(maximizing, cs, k - 1), cs[k - 1])
  }

  /** One side's preference: v is at least as good as w for the side to move. */
  predicate NoWorse(maximizing: bool, v: int, w: int) {
    if maximizing then v >= w else v <= w
  }

  /** One side's strict preference: v is better than w for the side to move. */
  predicate Better(maximizing: bool, v: int, w: int) {
    if maximizing then v > w else v < w
  }

  /** What a search bounded by the window (alpha, beta) may report as v when the exact
      value is m: a report below beta is an upper bound on m, a report above alpha a
      lower bound, so a report strictly inside the window is m itself. */
  predicate AlphaBetaSound(v: int, m: int, alpha: int, beta: int) {
    (v < beta ==> m <= v) && (v > alpha ==> m >= v)
  }

  /** Every candidate value lies strictly inside the window the sentinels open. */
  predicate InsideWindow(cs: seq<Scored>) {
    forall j | 0 <= j < |cs| :: MIN < cs[j].value < MAX
  }

  /** Over a non-empty prefix of candidates that all beat the sentinel, the pick is the first
      candidate whose value no other candidate in the prefix betters. */
  lemma {:induction false} PickBest(maximizing: bool, cs: seq<Scored>, k: nat) returns (i: nat)
    requires 1 <= k <= |cs| && InsideWindow(cs)
    ensures i < k && Pick(maximizing, cs, k) == cs[i]
    ensures forall j | 0 <= j < k :: NoWorse(maximizing, cs[i].value, cs[j].value)
    ensures forall j | 0 <= j < i :: Better(maximizing, cs[i].value, cs[j].value)
  {
    if k == 1 {
      i := 0;
    } else {
      var h := PickBest(maximizing, cs, k - 1);
      if Better(maximizing, cs[k - 1].value, cs[h].value) {
        i := k - 1;
      } else {
        i := h;
      }
    }
  }

  /** The best value over a prefix only improves as the prefix grows. */
  lemma {:induction false} PickMonotone(maximizing: bool, cs: seq<Scored>, i: nat, j: nat)
    requires i <= j <= |cs|
    ensures NoWorse(maximizing, Pick(maximizing, cs, j).value, Pick(maximizing, cs, i).value)
    decreases j
  {
    if i < j {
      PickMonotone(maximizing, cs, i, j - 1);
    }
  }

  /** Children lists exactly the moves of MovesFrom, in the same order, with their values. */
  lemma {:induction false} ChildrenMoves(b: Board, depth: nat, maximizing: bool, letter: Cell, me: Cell, n: nat)
    requires depth >= 1 && n <= 9
    ensures var cs := Children(b, depth, maximizing, letter, me, n);
      var ms := MovesFrom(b, n);
      && |cs| == |ms|
      && forall k | 0 <= k < |ms| :: InRange(ms[k]) && cs[k] == Scored(ms[k].row, ms[k].col, ChildValue(b, depth, maximizing, letter, me, ms[k]))
    decreases 9 - n
  {
    if n < 9 {
      ChildrenMoves(b, depth, maximizing, letter, me, n + 1);
      var cs, ms := Children(b, depth, maximizing, letter, me, n), MovesFrom(b, n);
      var cs', ms' := Children(b, depth, maximizing, letter, me, n + 1), MovesFrom(b, n + 1);
      var d := if b[n] == Empty then 1 else 0;
      assert |cs| == d + |cs'| && |ms| == d + |ms'|;
      forall k | d <= k < |ms|
        ensures cs[k] == cs'[k - d] && ms[k] == ms'[k - d]
      {
      }
    }
  }

  /** When no more moves are counted than there are empty cells, every value is a real outcome. */
  lemma {:induction false} SearchValue(b: Board, depth: nat, maximizing: bool, letter: Cell, me: Cell)
    requires depth <= EmptyCount(b)
    ensures Outcome(Search(b, depth, maximizing, letter, me).value)
    decreases |b| + depth, 2, 0
  {
    if EvaluateBoard(b, depth, me) == IN_PROGRESS {
      var cs := Children(b, depth, maximizing, letter, me, 0);
      ChildrenValues(b, depth, maximizing, letter, me);
      var i := PickBest(maximizing, cs, |cs|);
    }
  }

  /** Below a position with enough empty cells, every move leads to a real outcome. */
  lemma {:induction false} ChildrenValues(b: Board, depth: nat, maximizing: bool, letter: Cell, me: Cell)
    requires 1 <= depth <= EmptyCount(b)
    ensures var cs := Children(b, depth, maximizing, letter, me, 0);
      && |cs| == EmptyCount(b)
      && forall j | 0 <= j < |cs| :: Outcome(cs[j].value)
    decreases |b| + depth, 1, 0
  {
    var ms := ValidMoves(b);
    ChildrenMoves(b, depth, maximizing, letter, me, 0);
    forall j | 0 <= j < |ms|
      ensures Outcome(ChildValue(b, depth, maximizing, letter, me, ms[j]))
    {
      var p := ms[j];
      PlaceCount(b, p.row, p.col, letter);
      ChildValueRange(b, depth, maximizing, letter, me, p);
    }
  }

  /** A move leads to a real outcome when the position it reaches has enough empty cells. */
  lemma {:induction false} ChildValueRange(b: Board, depth: nat, maximizing: bool, letter: Cell, me: Cell, p: Pos)
    requires 1 <= depth && InRange(p) && depth - 1 <= EmptyCount(Place(b, p.row, p.col, letter))
    ensures Outcome(ChildValue(b, depth, maximizing, letter, me, p))
    decreases |b| + depth, 0, 0
  {
    SearchValue(Place(b, p.row, p.col, letter), depth - 1, !maximizing, AlternateLetters(letter), me);
  }

  /** Plain minimax on a position still in play picks the first candidate that no other
      candidate betters, and its value is a real outcome. */
  lemma SearchPick(b: Board, depth: nat, maximizing: bool, letter: Cell, me: Cell) returns (i: nat)
    requires depth <= EmptyCount(b) && EvaluateBoard(b, depth, me) == IN_PROGRESS
    ensures depth >= 1
    ensures var s := Search(b, depth, maximizing, letter, me);
      var cs := Children(b, depth, maximizing, letter, me, 0);
      && i < |cs| && s == cs[i]
      && Outcome(s.value)
      && (forall k | 0 <= k < |cs| :: NoWorse(maximizing, s.value, cs[k].value))
      && (forall k | 0 <= k < i :: Better(maximizing, s.value, cs[k].value))
  {
    var cs := Children(b, depth, maximizing, letter, me, 0);
    assert Search(b, depth, maximizing, letter, me) == Pick(maximizing, cs, |cs|);
    assert 1 <= |cs| && InsideWindow(cs) by {
      ChildrenValues(b, depth, maximizing, letter, me);
    }
    i := PickBest(maximizing, cs, |cs|);
    assert Outcome(cs[i].value) by {
      ChildrenValues(b, depth, maximizing, letter, me);
    }
  }

  /** Plain minimax on a position still in play plays one of the listed moves (the empty cells in
      row-major order) whose value no other move betters, and the first such move: every move
      listed before it is strictly worse. Its value is a real outcome. */
  lemma SearchBest(b: Board, depth: nat, maximizing: bool, letter: Cell, me: Cell) returns (i: nat)
    requires depth <= EmptyCount(b) && EvaluateBoard(b, depth, me) == IN_PROGRESS
    ensures depth >= 1
    ensures var s := Search(b, depth, maximizing, letter, me);
      var ms := ValidMoves(b);
      && i < |ms| && Pos(s.row, s.col) == ms[i]
      && s.value == ChildValue(b, depth, maximizing, letter, me, ms[i])
      && Outcome(s.value)
      && (forall k | 0 <= k < |ms| :: NoWorse(maximizing, s.value, ChildValue(b, depth, maximizing, letter, me, ms[k])))
      && (forall k | 0 <= k < i :: Better(maximizing, s.value, ChildValue(b, depth, maximizing, letter, me, ms[k])))
  {
    var s := Search(b, depth, maximizing, letter, me);
    var cs := Children(b, depth, maximizing, letter, me, 0);
    var ms := ValidMoves(b);
    i := SearchPick(b, depth, maximizing, letter, me);
    ChildAt(b, depth, maximizing, letter, me, i);
    forall k | 0 <= k < |ms|
      ensures NoWorse(maximizing, s.value, ChildValue(b, depth, maximizing, letter, me, ms[k]))
    {
      ChildAt(b, depth, maximizing, letter, me, k);
    }
    forall k | 0 <= k < i
      ensures Better(maximizing, s.value, ChildValue(b, depth, maximizing, letter, me, ms[k]))
    {
      ChildAt(b, depth, maximizing, letter, me, k);
    }
  }

  /** The k-th candidate of the search is the k-th listed move with its value. */
  lemma ChildAt(b: Board, depth: nat, maximizing: bool, letter: Cell, me: Cell, k: nat)
    requires depth >= 1
    ensures var cs := Children(b, depth, maximizing, letter, me, 0);
      var ms := ValidMoves(b);
      && |cs| == |ms|
      && (k < |ms| ==> cs[k] == Scored(ms[k].row, ms[k].col, ChildValue(b, depth, maximizing, letter, me, ms[k])))
  {
    ChildrenMoves(b, depth, maximizing, letter, me, 0);
  }

  /** With a single empty cell left, plain minimax plays there. */
  lemma SearchLastCell(b: Board, depth: nat, maximizing: bool, letter: Cell, me: Cell, r: int, c: int)
    requires EmptyCount(b) == 1 && depth <= 1 && EvaluateBoard(b, depth, me) == IN_PROGRESS
    requires OnBoard(r, c) && At(b, r, c) == Empty
    ensures var s := Search(b, depth, maximizing, letter, me); s.row == r && s.col == c
  {
    var i := SearchPick(b, depth, maximizing, letter, me);
    ChildrenMoves(b, depth, maximizing, letter, me, 0);
    ValidMovesComplete(b, r, c);
    assert ValidMoves(b)[0] == Pos(r, c);
  }

  /** A move with the best value, before which every move is strictly worse, is the move
      plain minimax plays, with that value. */
  lemma SearchIs(b: Board, depth: nat, maximizing: bool, letter: Cell, me: Cell, r: int, c: int)
    requires depth <= EmptyCount(b) && EvaluateBoard(b, depth, me) == IN_PROGRESS
    requires OnBoard(r, c) && At(b, r, c) == Empty
    requires forall i, j | OnBoard(i, j) && At(b, i, j) == Empty ::
      NoWorse(maximizing, ChildValue(b, depth, maximizing, letter, me, Pos(r, c)), ChildValue(b, depth, maximizing, letter, me, Pos(i, j)))
    requires forall i, j | OnBoard(i, j) && At(b, i, j) == Empty && 3 * i + j < 3 * r + c ::
      Better(maximizing, ChildValue(b, depth, maximizing, letter, me, Pos(r, c)), ChildValue(b, depth, maximizing, letter, me, Pos(i, j)))
    ensures Search(b, depth, maximizing, letter, me) == Scored(r, c, ChildValue(b, depth, maximizing, letter, me, Pos(r, c)))
  {
    var ms := ValidMoves(b);
    var i := SearchBest(b, depth, maximizing, letter, me);
    ValidMovesComplete(b, r, c);
    var k :| 0 <= k < |ms| && ms[k] == Pos(r, c);
    var p := ms[i];
    SameChoice(maximizing, i, ChildValue(b, depth, maximizing, letter, me, p), k, ChildValue(b, depth, maximizing, letter, me, ms[k]));
  }

  /** Of two candidates, each no worse than the other and each strictly better than every
      candidate before it, neither comes before the other. */
  lemma SameChoice(maximizing: bool, i: nat, v: int, k: nat, w: int)
    requires NoWorse(maximizing, v, w) && NoWorse(maximizing, w, v)
    requires i < k ==> Better(maximizing, w, v)
    requires k < i ==> Better(maximizing, v, w)
    ensures i == k
  {
  }

  /** Plain minimax never plays a move that another move beats. */
  lemma SearchSkips(b: Board, depth: nat, maximizing: bool, letter: Cell, me: Cell, r: int, c: int, r': int, c': int)
    requires depth <= EmptyCount(b) && EvaluateBoard(b, depth, me) == IN_PROGRESS
    requires OnBoard(r, c) && At(b, r, c) == Empty && OnBoard(r', c') && At(b, r', c') == Empty
    requires Better(maximizing, ChildValue(b, depth, maximizing, letter, me, Pos(r', c')), ChildValue(b, depth, maximizing, letter, me, Pos(r, c)))
    ensures var s := Search(b, depth, maximizing, letter, me); s.row != r || s.col != c
  {
    var s := Search(b, depth, maximizing, letter, me);
    var i := SearchBest(b, depth, maximizing, letter, me);
    ValidMovesComplete(b, r', c');
    var p := ValidMoves(b)[i];
    assert s.value == ChildValue(b, depth, maximizing, letter, me, p);
    assert p == Pos(s.row, s.col);
  }

  /** The value plain minimax reports is the value of one of the moves, so it lies in any
      interval that holds the value of every move. */
  lemma SearchBetween(b: Board, depth: nat, maximizing: bool, letter: Cell, me: Cell, lo: int, hi: int)
    requires depth <= EmptyCount(b) && EvaluateBoard(b, depth, me) == IN_PROGRESS
    requires forall i, j | OnBoard(i, j) && At(b, i, j) == Empty ::
      lo <= ChildValue(b, depth, maximizing, letter, me, Pos(i, j)) <= hi
    ensures lo <= Search(b, depth, maximizing, letter, me).value <= hi
  {
    var i := SearchBest(b, depth, maximizing, letter, me);
    var p := ValidMoves(b)[i];
    assert lo <= ChildValue(b, depth, maximizing, letter, me, Pos(p.row, p.col)) <= hi;
  }

  /** No move is better for the side to move than the value plain minimax reports. */
  lemma SearchBound(b: Board, depth: nat, maximizing: bool, letter: Cell, me: Cell, r: int, c: int)
    requires depth <= EmptyCount(b) && EvaluateBoard(b, depth, me) == IN_PROGRESS
    requires OnBoard(r, c) && At(b, r, c) == Empty
    ensures NoWorse(maximizing, Search(b, depth, maximizing, letter, me).value, ChildValue(b, depth, maximizing, letter, me, Pos(r, c)))
  {
    var i := SearchBest(b, depth, maximizing, letter, me);
    ValidMovesComplete(b, r, c);
  }
}
