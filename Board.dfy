/** The 3x3 board shared by the game state and the move search: its cells, the
    row-major list of empty cells, placing a mark, and the eight winning lines. */
module Board {

  /** One square of the board: "-" (empty), "X" or "O" in the source. */
  datatype Cell = Empty | X | O

  /** A 3x3 grid stored row by row: cell (r, c) is entry 3 * r + c. */
  type Board = b: seq<Cell> | |b| == 9
    witness [Empty, Empty, Empty, Empty, Empty, Empty, Empty, Empty, Empty]

  /** A (row, column) pair. */
  datatype Pos = Pos(row: int, col: int)

  const Blank: Board := [Empty, Empty, Empty, Empty, Empty, Empty, Empty, Empty, Empty]

  predicate OnBoard(r: int, c: int) {
    0 <= r < 3 && 0 <= c < 3
  }

  predicate InRange(p: Pos) {
    OnBoard(p.row, p.col)
  }

  /** Every position in the list is on the board. */
  predicate AllInRange(ms: seq<Pos>) {
    forall k | 0 <= k < |ms| :: InRange(ms[k])
  }

  /** The row-major index of a cell, 0 to 8. */
  function Index(p: Pos): int {
    3 * p.row + p.col
  }

  /** The cell with row-major index n. */
  function PosOf(n: int): (p: Pos)
    requires 0 <= n < 9
    ensures InRange(p) && Index(p) == n
  {
    Pos(n / 3, n % 3)
  }

  /** The contents of cell (r, c). */
  function At(b: Board, r: int, c: int): Cell
    requires OnBoard(r, c)
  {
    b[3 * r + c]
  }

  /** The board with cell (r, c) set to x. */
  function Place(b: Board, r: int, c: int, x: Cell): (b': Board)
    requires OnBoard(r, c)
    ensures At(b', r, c) == x
    ensures forall i, j | 0 <= i < 3 && 0 <= j < 3 && (i != r || j != c) :: At(b', i, j) == At(b, i, j)
  {
    b[3 * r + c := x]
  }

  /** 1 for an empty cell, else 0. */
  function Blank1(x: Cell): nat {
    if x == Empty then 1 else 0
  }

  /** The number of empty cells among the cells with index n to 8. */
  function CountFrom(b: Board, n: nat): nat
    requires n <= 9
    decreases |b| - n
  {
    if n == 9 then 0 else Blank1(b[n]) + CountFrom(b, n + 1)
  }

  /** The number of empty cells. */
  function EmptyCount(b: Board): nat {
    CountFrom(b, 0)
  }

  /** The empty cells with index n to 8, in row-major order. */
  function MovesFrom(b: Board, n: nat): seq<Pos>
    requires n <= 9
    decreases |b| - n
  {
    if n == 9 then []
    else (if b[n] == Empty then [PosOf(n)] else []) + MovesFrom(b, n + 1)
  }

  lemma {:induction false} MovesFromSound(b: Board, n: nat)
    requires n <= 9
    ensures forall k | 0 <= k < |MovesFrom(b, n)| :: var p := MovesFrom(b, n)[k];
      InRange(p) && At(b, p.row, p.col) == Empty && Index(p) >= n
    decreases 9 - n
  {
    if n < 9 {
      MovesFromSound(b, n + 1);
    }
  }

  /** An empty cell with index m >= n is in the list of moves from n. */
  lemma {:induction false} MovesFromComplete(b: Board, n: nat, m: nat)
    requires n <= m < 9 && b[m] == Empty
    ensures PosOf(m) in MovesFrom(b, n)
    decreases m - n
  {
    var head := if b[n] == Empty then [PosOf(n)] else [];
    assert MovesFrom(b, n) == head + MovesFrom(b, n + 1);
    if n == m {
      assert MovesFrom(b, n)[0] == PosOf(m);
    } else {
      MovesFromComplete(b, n + 1, m);
    }
  }

  lemma {:induction false} MovesFromSorted(b: Board, n: nat)
    requires n <= 9
    ensures forall k, l | 0 <= k < l < |MovesFrom(b, n)| :: Index(MovesFrom(b, n)[k]) < Index(MovesFrom(b, n)[l])
    decreases 9 - n
  {
    if n < 9 {
      MovesFromSorted(b, n + 1);
      MovesFromSound(b, n + 1);
    }
  }

  lemma {:induction false} MovesFromCount(b: Board, n: nat)
    requires n <= 9
    ensures |MovesFrom(b, n)| == CountFrom(b, n)
    decreases 9 - n
  {
    if n < 9 {
      MovesFromCount(b, n + 1);
    }
  }

  /** The source's list `valid_moves`: every empty cell, row 0 to 2, column 0 to 2. */
  function ValidMoves(b: Board): (ms: seq<Pos>)
    ensures AllInRange(ms) && |ms| == EmptyCount(b)
    ensures forall k | 0 <= k < |ms| :: InRange(ms[k]) && At(b, ms[k].row, ms[k].col) == Empty
    ensures forall k, l | 0 <= k < l < |ms| :: Index(ms[k]) < Index(ms[l])
  {
    MovesFromSound(b, 0);
    MovesFromSorted(b, 0);
    MovesFromCount(b, 0);
    MovesFrom(b, 0)
  }

  /** Every empty cell is in the list of moves. */
  lemma ValidMovesComplete(b: Board, i: int, j: int)
    requires OnBoard(i, j) && At(b, i, j) == Empty
    ensures Pos(i, j) in ValidMoves(b)
  {
    var n := 3 * i + j;
    MovesFromComplete(b, 0, n);
    var p := PosOf(n);
    assert p.row == i && p.col == j;
  }

  lemma {:induction false} CountFromPlace(b: Board, r: int, c: int, x: Cell, n: nat)
    requires OnBoard(r, c) && At(b, r, c) == Empty && n <= 9
    ensures CountFrom(Place(b, r, c, x), n) == CountFrom(b, n) - (if Index(Pos(r, c)) >= n && x != Empty then 1 else 0)
    decreases 9 - n
  {
    if n < 9 {
      CountFromPlace(b, r, c, x, n + 1);
    }
  }

  /** Marking an empty cell with a letter takes exactly one cell off the count. */
  lemma PlaceCount(b: Board, r: int, c: int, x: Cell)
    requires OnBoard(r, c) && At(b, r, c) == Empty
    ensures EmptyCount(Place(b, r, c, x)) == EmptyCount(b) - (if x == Empty then 0 else 1)
  {
    CountFromPlace(b, r, c, x, 0);
  }

  predicate RowFull(b: Board, i: int, m: Cell)
    requires 0 <= i < 3
  {
    At(b, i, 0) == m && At(b, i, 1) == m && At(b, i, 2) == m
  }

  predicate ColumnFull(b: Board, j: int, m: Cell)
    requires 0 <= j < 3
  {
    At(b, 0, j) == m && At(b, 1, j) == m && At(b, 2, j) == m
  }

  predicate DiagonalFull(b: Board, m: Cell) {
    At(b, 0, 0) == m && At(b, 1, 1) == m && At(b, 2, 2) == m
  }

  predicate AntiDiagonalFull(b: Board, m: Cell) {
    At(b, 0, 2) == m && At(b, 1, 1) == m && At(b, 2, 0) == m
  }

  /** The mark m fills a whole row, a whole column or one of the two diagonals. */
  predicate HasLine(b: Board, m: Cell) {
    RowFull(b, 0, m) || RowFull(b, 1, m) || RowFull(b, 2, m) ||
    ColumnFull(b, 0, m) || ColumnFull(b, 1, m) || ColumnFull(b, 2, m) ||
    DiagonalFull(b, m) || AntiDiagonalFull(b, m)
  }
}
