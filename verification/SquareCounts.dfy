/** Counting one kind of plant in a rectangle of the orchard, by the cardinality of a
    set of cells, and the facts about such counts that the tables of
    `testdata/tasks/frutales.cpp` rely on. Nothing in this module mentions a table. */
module SquareCounts {

  /** A rectangular picture of the orchard: 'P' is a pine, 'F' is fruit. */
  type Board = b: seq<seq<char>> | forall i, j :: 0 <= i < j < |b| ==> |b[i]| == |b[j]| witness []

  function Rows(b: Board): nat { |b| }

  function Cols(b: Board): nat { if |b| == 0 then 0 else |b[0]| }

  predicate OnBoard(b: Board, r: int, c: int) {
    0 <= r < Rows(b) && 0 <= c < Cols(b)
  }

  /** A half-open rectangle `[r0, r1) x [c0, c1)` inside the board. */
  predicate Rectangle(b: Board, r0: int, r1: int, c0: int, c1: int) {
    0 <= r0 <= r1 <= Rows(b) && 0 <= c0 <= c1 <= Cols(b)
  }

  ghost function Cells(b: Board, kind: char, r0: int, r1: int, c0: int, c1: int): set<(int, int)>
    requires Rectangle(b, r0, r1, c0, c1)
  {
    set i, j | r0 <= i < r1 && c0 <= j < c1 && b[i][j] == kind :: (i, j)
  }

  ghost function Count(b: Board, kind: char, r0: int, r1: int, c0: int, c1: int): nat
    requires Rectangle(b, r0, r1, c0, c1)
  {
    |Cells(b, kind, r0, r1, c0, c1)|
  }

  lemma SplitRows(b: Board, kind: char, r0: int, rm: int, r1: int, c0: int, c1: int)
    requires Rectangle(b, r0, r1, c0, c1) && r0 <= rm <= r1
    ensures Count(b, kind, r0, r1, c0, c1) == Count(b, kind, r0, rm, c0, c1) + Count(b, kind, rm, r1, c0, c1)
  {
    var upper, lower := Cells(b, kind, r0, rm, c0, c1), Cells(b, kind, rm, r1, c0, c1);
    assert upper !! lower;
    assert Cells(b, kind, r0, r1, c0, c1) == upper + lower;
  }

  lemma SplitCols(b: Board, kind: char, r0: int, r1: int, c0: int, cm: int, c1: int)
    requires Rectangle(b, r0, r1, c0, c1) && c0 <= cm <= c1
    ensures Count(b, kind, r0, r1, c0, c1) == Count(b, kind, r0, r1, c0, cm) + Count(b, kind, r0, r1, cm, c1)
  {
    var left, right := Cells(b, kind, r0, r1, c0, cm), Cells(b, kind, r0, r1, cm, c1);
    assert left !! right;
    assert Cells(b, kind, r0, r1, c0, c1) == left + right;
  }

  lemma SingleCell(b: Board, kind: char, r: int, c: int)
    requires OnBoard(b, r, c)
    ensures Count(b, kind, r, r + 1, c, c + 1) == if b[r][c] == kind then 1 else 0
  {
    assert Cells(b, kind, r, r + 1, c, c + 1) == if b[r][c] == kind then {(r, c)} else {};
  }

  /** A rectangle holds no more of a kind than a rectangle around it. */
  lemma Nested(b: Board, kind: char, r0: int, r1: int, c0: int, c1: int, s0: int, s1: int, d0: int, d1: int)
    requires Rectangle(b, r0, r1, c0, c1) && Rectangle(b, s0, s1, d0, d1)
    requires r0 <= s0 && s1 <= r1 && c0 <= d0 && d1 <= c1
    ensures Count(b, kind, s0, s1, d0, d1) <= Count(b, kind, r0, r1, c0, c1)
  {
    SubsetSize(Cells(b, kind, s0, s1, d0, d1), Cells(b, kind, r0, r1, c0, c1));
  }

  lemma {:induction false} SubsetSize<T>(a: set<T>, b: set<T>)
    requires a <= b
    ensures |a| <= |b|
  {
    assert b == a + (b - a);
  }

  lemma {:induction false} RowBound(b: Board, kind: char, r: int, c: int)
    requires Rectangle(b, r, r + 1, 0, c)
    ensures Count(b, kind, r, r + 1, 0, c) <= c
    decreases c
  {
    if c == 0 {
      assert Cells(b, kind, r, r + 1, 0, c) == {};
    } else {
      SplitCols(b, kind, r, r + 1, 0, c - 1, c);
      RowBound(b, kind, r, c - 1);
      SingleCell(b, kind, r, c - 1);
    }
  }

  /** At most one per cell. */
  lemma {:induction false} CountBound(b: Board, kind: char, r: int, c: int)
    requires Rectangle(b, 0, r, 0, c)
    ensures Count(b, kind, 0, r, 0, c) <= r * c
    decreases r
  {
    if r == 0 {
      assert Cells(b, kind, 0, r, 0, c) == {};
    } else {
      SplitRows(b, kind, 0, r - 1, r, 0, c);
      CountBound(b, kind, r - 1, c);
      RowBound(b, kind, r - 1, c);
      assert (r - 1) * c + c == r * c;
    }
  }

  /** The whole of a kind from the top-left cell up to and including `(r, c)`. */
  ghost function Prefix(b: Board, kind: char, r: int, c: int): nat
    requires -1 <= r < Rows(b) && -1 <= c < Cols(b)
  {
    Count(b, kind, 0, r + 1, 0, c + 1)
  }

  lemma PrefixOffBoard(b: Board, kind: char, r: int, c: int)
    requires -1 <= r < Rows(b) && -1 <= c < Cols(b)
    requires r == -1 || c == -1
    ensures Prefix(b, kind, r, c) == 0
  {
    assert Cells(b, kind, 0, r + 1, 0, c + 1) == {};
  }

  /** The recurrence by which both tables are filled in one pass. */
  lemma PrefixRecurrence(b: Board, kind: char, r: int, c: int)
    requires OnBoard(b, r, c)
    ensures Prefix(b, kind, r, c)
         == Prefix(b, kind, r - 1, c) + Prefix(b, kind, r, c - 1) - Prefix(b, kind, r - 1, c - 1)
            + (if b[r][c] == kind then 1 else 0)
  {
    SplitRows(b, kind, 0, r, r + 1, 0, c + 1);
    SplitRows(b, kind, 0, r, r + 1, 0, c);
    SplitCols(b, kind, r, r + 1, 0, c, c + 1);
    SingleCell(b, kind, r, c);
  }

  /** Sides a square with bottom-right corner `(r, c)` may have; 0 is the empty square. */
  predicate Side(b: Board, r: int, c: int, s: int) {
    OnBoard(b, r, c) && 0 <= s <= (if r <= c then r else c) + 1
  }

  /** How many of a kind the `s` by `s` square ending at `(r, c)` holds. */
  ghost function InSquare(b: Board, kind: char, r: int, c: int, s: int): nat
    requires Side(b, r, c, s)
  {
    Count(b, kind, r - s + 1, r + 1, c - s + 1, c + 1)
  }

  /** Inclusion and exclusion over four corners. */
  lemma SquareFromPrefixes(b: Board, kind: char, r: int, c: int, s: int)
    requires Side(b, r, c, s)
    ensures InSquare(b, kind, r, c, s)
         == Prefix(b, kind, r, c) - Prefix(b, kind, r - s, c)
            - Prefix(b, kind, r, c - s) + Prefix(b, kind, r - s, c - s)
  {
    var r0, c0 := r - s + 1, c - s + 1;
    SplitRows(b, kind, 0, r0, r + 1, 0, c + 1);
    SplitRows(b, kind, 0, r0, r + 1, 0, c0);
    SplitCols(b, kind, r0, r + 1, 0, c0, c + 1);
  }

  /** Squares with a common bottom-right corner are nested. */
  lemma Monotone(b: Board, kind: char, r: int, c: int, s: int, t: int)
    requires Side(b, r, c, s) && Side(b, r, c, t) && s <= t
    ensures InSquare(b, kind, r, c, s) <= InSquare(b, kind, r, c, t)
  {
    Nested(b, kind, r - t + 1, r + 1, c - t + 1, c + 1, r - s + 1, r + 1, c - s + 1, c + 1);
  }

  lemma EmptySquare(b: Board, kind: char, r: int, c: int)
    requires OnBoard(b, r, c)
    ensures InSquare(b, kind, r, c, 0) == 0
  {
    assert Cells(b, kind, r + 1, r + 1, c + 1, c + 1) == {};
  }
}
