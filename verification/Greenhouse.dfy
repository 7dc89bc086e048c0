/** How many halvings a search over a gap of `g` needs. */
module Bisection {

  function CeilLog2(g: nat): nat {
    if g <= 1 then 0 else 1 + CeilLog2((g + 1) / 2)
  }

  function Pow2(k: nat): nat {
    if k == 0 then 1 else 2 * Pow2(k - 1)
  }

  /** `CeilLog2(g)` is the least `k` with `g <= 2^k`. */
  lemma {:induction false} CeilLog2IsLeast(g: nat, k: nat)
    ensures CeilLog2(g) <= k <==> g <= Pow2(k)
    decreases k
  {
    if g <= 1 {
      Pow2Positive(k);
    } else if k > 0 {
      CeilLog2IsLeast((g + 1) / 2, k - 1);
    }
  }

  lemma {:induction false} Pow2Positive(k: nat)
    ensures Pow2(k) >= 1
  {
    if k > 0 {
      Pow2Positive(k - 1);
    }
  }

  lemma {:induction false} CeilLog2Monotone(g: nat, h: nat)
    requires g <= h
    ensures CeilLog2(g) <= CeilLog2(h)
  {
    CeilLog2IsLeast(h, CeilLog2(h));
    CeilLog2IsLeast(g, CeilLog2(h));
  }

  /** Whichever half is kept, one halving uses up one unit of the bound. */
  lemma HalvingStep(lo: int, hi: int)
    requires hi - lo > 1
    ensures lo < (hi + lo) / 2 < hi
    ensures CeilLog2((hi + lo) / 2 - lo) + 1 <= CeilLog2(hi - lo)
    ensures CeilLog2(hi - (hi + lo) / 2) + 1 <= CeilLog2(hi - lo)
  {
    var mid := (hi + lo) / 2;
    CeilLog2Monotone(mid - lo, (hi - lo + 1) / 2);
    CeilLog2Monotone(hi - mid, (hi - lo + 1) / 2);
  }
}

/** `testdata/tasks/frutales.cpp`: the pine-free square with the most fruit. */
module Greenhouse {
  import opened SquareCounts
  import opened Bisection

  // ---------- What an answer is ----------

  ghost predicate PineFree(b: Board, r: int, c: int, s: int) {
    Side(b, r, c, s) && InSquare(b, 'P', r, c, s) == 0
  }

  /** `(i, j)` comes before `(r, c)` in row-major order. */
  predicate Before(i: int, j: int, r: int, c: int) {
    i < r || (i == r && j < c)
  }

  /** The square of side `bs` ending at `(br, bc)` is the one to report once every corner before
      `(r, c)` has been considered: no pine-free square with such a corner holds more than its `bn`
      fruit, no earlier corner reaches `bn`, and no smaller nonempty square at its own corner does.
      An empty square is reported only at a pine. */
  ghost predicate BestBefore(b: Board, r: int, c: int, br: int, bc: int, bs: int, bn: int) {
    && Before(br, bc, r, c)
    && PineFree(b, br, bc, bs)
    && InSquare(b, 'F', br, bc, bs) == bn
    && (forall i, j, s :: PineFree(b, i, j, s) && Before(i, j, r, c) ==> InSquare(b, 'F', i, j, s) <= bn)
    && (forall i, j, s :: PineFree(b, i, j, s) && Before(i, j, br, bc) ==> InSquare(b, 'F', i, j, s) < bn)
    && (forall s :: PineFree(b, br, bc, s) && 1 <= s < bs ==> InSquare(b, 'F', br, bc, s) < bn)
    && (bs == 0 ==> b[br][bc] == 'P')
  }

  ghost predicate IsAnswer(b: Board, br: int, bc: int, bs: int, bn: int) {
    BestBefore(b, Rows(b), 0, br, bc, bs, bn)
  }

  lemma SideOne(b: Board, r: int, c: int)
    requires OnBoard(b, r, c)
    ensures forall kind :: InSquare(b, kind, r, c, 1) == if b[r][c] == kind then 1 else 0
  {
    forall kind ensures InSquare(b, kind, r, c, 1) == if b[r][c] == kind then 1 else 0 {
      SingleCell(b, kind, r, c);
    }
  }

  /** A board has one answer only, so `IsAnswer` leaves the program no choice. */
  lemma AnswerIsUnique(b: Board, r: int, c: int, s: int, n: int, r': int, c': int, s': int, n': int)
    requires IsAnswer(b, r, c, s, n) && IsAnswer(b, r', c', s', n')
    ensures (r, c, s, n) == (r', c', s', n')
  {
    assert n == n';
    assert (r, c) == (r', c');
    SideOne(b, r, c);
    if s == 0 && s' > 0 {
      Monotone(b, 'P', r, c, 1, s');
      assert false;
    }
    if s' == 0 && s > 0 {
      Monotone(b, 'P', r, c, 1, s);
      assert false;
    }
  }

  /** The program reports an empty square exactly when the very first cell is a pine and the board
      has no fruit at all, even if some pine-free cell exists further on. */
  lemma EmptyAnswerIff(b: Board, r: int, c: int, s: int, n: int)
    requires IsAnswer(b, r, c, s, n)
    ensures s == 0 <==> b[0][0] == 'P' && forall i, j :: OnBoard(b, i, j) ==> b[i][j] != 'F'
  {
    EmptySquare(b, 'F', r, c);
    EmptySquare(b, 'P', 0, 0);
    EmptySquare(b, 'F', 0, 0);
    if s == 0 {
      assert PineFree(b, 0, 0, 0);
      assert (r, c) == (0, 0);
      forall i, j | OnBoard(b, i, j) ensures b[i][j] != 'F' {
        SideOne(b, i, j);
        if b[i][j] == 'F' {
          assert PineFree(b, i, j, 1);
        }
      }
    }
    if b[0][0] == 'P' && forall i, j :: OnBoard(b, i, j) ==> b[i][j] != 'F' {
      assert Cells(b, 'F', r - s + 1, r + 1, c - s + 1, c + 1) == {};
      assert PineFree(b, 0, 0, 0);
      assert (r, c) == (0, 0);
      SideOne(b, 0, 0);
    }
  }

  // ---------- Reading the orchard ----------

  ghost function Picture(board: array2<char>): (b: Board)
    reads board
    ensures Rows(b) == board.Length0
    ensures forall i :: 0 <= i < board.Length0 ==> |b[i]| == board.Length1
    ensures forall i, j :: 0 <= i < board.Length0 && 0 <= j < board.Length1 ==> b[i][j] == board[i, j]
  {
    seq(board.Length0, i requires 0 <= i < board.Length0 reads board =>
      seq(board.Length1, j requires 0 <= j < board.Length1 reads board => board[i, j]))
  }

  /** Coordinates are read one-based, as pairs of row and column. */
  predicate Inside(x: nat, y: nat, at: seq<(int, int)>) {
    forall k :: 0 <= k < |at| ==> 1 <= at[k].0 <= x && 1 <= at[k].1 <= y
  }

  /** Fruit is read after the pines and replaces them. */
  function Plant(i: int, j: int, pines: seq<(int, int)>, fruits: seq<(int, int)>): char {
    if (i + 1, j + 1) in fruits then 'F' else if (i + 1, j + 1) in pines then 'P' else '.'
  }

  /** The board that the input describes. */
  ghost function Orchard(x: nat, y: nat, pines: seq<(int, int)>, fruits: seq<(int, int)>): (b: Board)
    ensures Rows(b) == x && forall i :: 0 <= i < x ==> |b[i]| == y
    ensures forall i, j :: 0 <= i < x && 0 <= j < y ==> b[i][j] == Plant(i, j, pines, fruits)
  {
    seq(x, i => seq(y, j => Plant(i, j, pines, fruits)))
  }

  lemma PictureOfOrchard(board: array2<char>, x: nat, y: nat, pines: seq<(int, int)>, fruits: seq<(int, int)>)
    requires board.Length0 == x && board.Length1 == y
    requires forall i, j :: 0 <= i < x && 0 <= j < y ==> board[i, j] == Plant(i, j, pines, fruits)
    ensures Picture(board) == Orchard(x, y, pines, fruits)
  {
    var p, o := Picture(board), Orchard(x, y, pines, fruits);
    forall i | 0 <= i < x ensures p[i] == o[i] {
      assert |p[i]| == |o[i]| == y;
    }
  }

  method ReadBoard(x: nat, y: nat, pines: seq<(int, int)>, fruits: seq<(int, int)>) returns (board: array2<char>)
    requires Inside(x, y, pines) && Inside(x, y, fruits)
    ensures fresh(board) && board.Length0 == x && board.Length1 == y
    ensures Picture(board) == Orchard(x, y, pines, fruits)
    ensures forall i, j :: 0 <= i < x && 0 <= j < y ==>
              && (board[i, j] == 'F' <==> (i + 1, j + 1) in fruits)
              && (board[i, j] == 'P' <==> (i + 1, j + 1) in pines && (i + 1, j + 1) !in fruits)
              && (board[i, j] == '.' <==> (i + 1, j + 1) !in pines && (i + 1, j + 1) !in fruits)
  {
    board := new char[x, y]((i, j) => '.');
    for i := 0 to |pines|
      invariant forall r, c :: 0 <= r < x && 0 <= c < y ==> board[r, c] == Plant(r, c, pines[..i], [])
    {
      assert pines[..i + 1] == pines[..i] + [pines[i]];
      var xc, yc := pines[i].0 - 1, pines[i].1 - 1;
      board[xc, yc] := 'P';
    }
    assert pines[..|pines|] == pines;
    for i := 0 to |fruits|
      invariant forall r, c :: 0 <= r < x && 0 <= c < y ==> board[r, c] == Plant(r, c, pines, fruits[..i])
    {
      assert fruits[..i + 1] == fruits[..i] + [fruits[i]];
      var xc, yc := fruits[i].0 - 1, fruits[i].1 - 1;
      board[xc, yc] := 'F';
    }
    assert fruits[..|fruits|] == fruits;
    PictureOfOrchard(board, x, y, pines, fruits);
  }

  // ---------- The two tables ----------

  ghost predicate SameShape(t: array2<int>, b: Board) {
    t.Length0 == Rows(b) && t.Length1 == Cols(b)
  }

  /** `t` holds the prefix counts of every cell before `(r, c)`. */
  ghost predicate Tabulated(t: array2<int>, b: Board, kind: char, r: int, c: int)
    requires SameShape(t, b)
    reads t
  {
    forall i, j :: OnBoard(b, i, j) && Before(i, j, r, c) ==> t[i, j] == Prefix(b, kind, i, j)
  }

  ghost predicate Tabulates(t: array2<int>, b: Board, kind: char)
    reads t
  {
    SameShape(t, b) && Tabulated(t, b, kind, Rows(b), 0)
  }

  /** The value the recurrence gives at `(xp, yp)` from the entries above and to the left. */
  function Entry(t: array2<int>, xp: int, yp: int, here: bool): int
    requires 0 <= xp < t.Length0 && 0 <= yp < t.Length1
    reads t
  {
    (if xp > 0 then t[xp - 1, yp] else 0)
    + (if yp > 0 then t[xp, yp - 1] else 0)
    - (if xp > 0 && yp > 0 then t[xp - 1, yp - 1] else 0)
    + (if here then 1 else 0)
  }

  lemma EntryIsPrefix(t: array2<int>, b: Board, kind: char, xp: int, yp: int)
    requires SameShape(t, b) && OnBoard(b, xp, yp) && Tabulated(t, b, kind, xp, yp)
    ensures Entry(t, xp, yp, b[xp][yp] == kind) == Prefix(b, kind, xp, yp)
  {
    PrefixRecurrence(b, kind, xp, yp);
    if xp == 0 {
      PrefixOffBoard(b, kind, xp - 1, yp);
      PrefixOffBoard(b, kind, xp - 1, yp - 1);
    }
    if yp == 0 {
      PrefixOffBoard(b, kind, xp, yp - 1);
      PrefixOffBoard(b, kind, xp - 1, yp - 1);
    }
  }

  /** One assignment of the pass. */
  method FillCell(t: array2<int>, xp: int, yp: int, here: bool, ghost b: Board, ghost kind: char)
    requires SameShape(t, b) && OnBoard(b, xp, yp) && Tabulated(t, b, kind, xp, yp)
    requires here == (b[xp][yp] == kind)
    modifies t
    ensures Tabulated(t, b, kind, xp, yp + 1)
  {
    EntryIsPrefix(t, b, kind, xp, yp);
    t[xp, yp] := Entry(t, xp, yp, here);
  }

  lemma NextRowTabulated(t: array2<int>, b: Board, kind: char, r: int)
    requires SameShape(t, b) && 0 <= r < Rows(b) && Tabulated(t, b, kind, r, Cols(b))
    ensures Tabulated(t, b, kind, r + 1, 0)
  {
  }

  method BuildTables(board: array2<char>) returns (pinos: array2<int>, fruta: array2<int>)
    requires board.Length0 >= 1
    ensures fresh(pinos) && fresh(fruta) && pinos != fruta
    ensures Tabulates(pinos, Picture(board), 'P') && Tabulates(fruta, Picture(board), 'F')
  {
    var x, y := board.Length0, board.Length1;
    ghost var b := Picture(board);
    pinos := new int[x, y]((i, j) => 0);
    fruta := new int[x, y]((i, j) => 0);
    for xp := 0 to x
      invariant Tabulated(pinos, b, 'P', xp, 0) && Tabulated(fruta, b, 'F', xp, 0)
    {
      for yp := 0 to y
        invariant Tabulated(pinos, b, 'P', xp, yp) && Tabulated(fruta, b, 'F', xp, yp)
      {
        FillCell(pinos, xp, yp, board[xp, yp] == 'P', b, 'P');
        FillCell(fruta, xp, yp, board[xp, yp] == 'F', b, 'F');
      }
      NextRowTabulated(pinos, b, 'P', xp);
      NextRowTabulated(fruta, b, 'F', xp);
    }
  }

  /** On boards of fewer than 2^30 cells every partial sum of the recurrence and of `GetSq` fits a
      32-bit `int`, so the unbounded arithmetic of this model is that of the program. */
  lemma TableArithmeticFitsInt32(b: Board, kind: char, r: int, c: int, s: int)
    requires Rows(b) * Cols(b) < 0x4000_0000
    requires Side(b, r, c, s)
    ensures Prefix(b, kind, r - 1, c) + Prefix(b, kind, r, c - 1) < 0x8000_0000
    ensures Prefix(b, kind, r, c) - Prefix(b, kind, r - s, c) - Prefix(b, kind, r, c - s) >= -0x8000_0000
  {
    var all := Count(b, kind, 0, Rows(b), 0, Cols(b));
    CountBound(b, kind, Rows(b), Cols(b));
    Nested(b, kind, 0, Rows(b), 0, Cols(b), 0, r, 0, c + 1);
    Nested(b, kind, 0, Rows(b), 0, Cols(b), 0, r + 1, 0, c);
    Nested(b, kind, 0, Rows(b), 0, Cols(b), 0, r - s + 1, 0, c + 1);
    Nested(b, kind, 0, Rows(b), 0, Cols(b), 0, r + 1, 0, c - s + 1);
  }

  function GetSq(x: int, y: int, s: int, t: array2<int>): int
    requires 0 <= x < t.Length0 && 0 <= y < t.Length1 && 0 <= s
    reads t
  {
    t[x, y]
    - (if x - s >= 0 then t[x - s, y] else 0)
    - (if y - s >= 0 then t[x, y - s] else 0)
    + (if x - s >= 0 && y - s >= 0 then t[x - s, y - s] else 0)
  }

  /** Reading a table at four corners gives the direct count over the square, for every side the
      searches ask for. */
  lemma GetSqCounts(x: int, y: int, s: int, t: array2<int>, b: Board, kind: char)
    requires Tabulates(t, b, kind) && Side(b, x, y, s)
    ensures GetSq(x, y, s, t) == InSquare(b, kind, x, y, s)
  {
    SquareFromPrefixes(b, kind, x, y, s);
    if x - s < 0 {
      PrefixOffBoard(b, kind, x - s, y);
      PrefixOffBoard(b, kind, x - s, y - s);
    }
    if y - s < 0 {
      PrefixOffBoard(b, kind, x, y - s);
      PrefixOffBoard(b, kind, x - s, y - s);
    }
  }

  // ---------- The two searches ----------

  /** The largest pine-free side at a corner. `steps` counts the iterations. */
  method LargestPineFree(xp: int, yp: int, pinos: array2<int>, ghost b: Board)
    returns (lo: int, ghost steps: nat)
    requires Tabulates(pinos, b, 'P') && OnBoard(b, xp, yp)
    ensures PineFree(b, xp, yp, lo)
    ensures forall s :: PineFree(b, xp, yp, s) ==> s <= lo
    ensures steps <= CeilLog2((if xp <= yp then xp else yp) + 2)
  {
    var maxW := (if xp <= yp then xp else yp) + 1;
    lo := 0;
    var hi := maxW + 1;
    steps := 0;
    EmptySquare(b, 'P', xp, yp);
    while hi - lo > 1
      invariant 0 <= lo < hi <= maxW + 1
      invariant PineFree(b, xp, yp, lo)
      invariant forall s :: hi <= s <= maxW ==> InSquare(b, 'P', xp, yp, s) > 0
      invariant steps + CeilLog2(hi - lo) <= CeilLog2(maxW + 1)
    {
      HalvingStep(lo, hi);
      var mid := (hi + lo) / 2;
      GetSqCounts(xp, yp, mid, pinos, b, 'P');
      if GetSq(xp, yp, mid, pinos) == 0 {
        lo := mid;
      } else {
        forall s | mid <= s <= maxW ensures InSquare(b, 'P', xp, yp, s) > 0 {
          Monotone(b, 'P', xp, yp, mid, s);
        }
        hi := mid;
      }
      steps := steps + 1;
    }
  }

  /** The smallest nonempty square at a corner that holds as much fruit as the one of side `side`. */
  method SmallestWithSameFruit(xp: int, yp: int, side: int, fruta: array2<int>, ghost b: Board)
    returns (hi: int, ghost steps: nat)
    requires Tabulates(fruta, b, 'F') && Side(b, xp, yp, side)
    ensures Side(b, xp, yp, hi) && InSquare(b, 'F', xp, yp, hi) == InSquare(b, 'F', xp, yp, side)
    ensures hi <= side && (hi == 0 <==> side == 0)
    ensures forall s :: 1 <= s < hi ==> InSquare(b, 'F', xp, yp, s) < InSquare(b, 'F', xp, yp, side)
    ensures steps <= CeilLog2(side)
  {
    GetSqCounts(xp, yp, side, fruta, b, 'F');
    var numFrut := GetSq(xp, yp, side, fruta);
    hi := side;
    var lo := 0;
    steps := 0;
    while hi - lo > 1
      invariant 0 <= lo <= hi <= side && (side > 0 ==> lo < hi)
      invariant InSquare(b, 'F', xp, yp, hi) == numFrut
      invariant forall s :: 1 <= s <= lo ==> InSquare(b, 'F', xp, yp, s) < numFrut
      invariant steps + CeilLog2(hi - lo) <= CeilLog2(side)
    {
      HalvingStep(lo, hi);
      var mid := (hi + lo) / 2;
      GetSqCounts(xp, yp, mid, fruta, b, 'F');
      if GetSq(xp, yp, mid, fruta) < numFrut {
        forall s | 1 <= s <= mid ensures InSquare(b, 'F', xp, yp, s) < numFrut {
          Monotone(b, 'F', xp, yp, s, mid);
        }
        lo := mid;
      } else {
        Monotone(b, 'F', xp, yp, mid, side);
        hi := mid;
      }
      steps := steps + 1;
    }
  }

  // ---------- The scan ----------

  /** No pine-free square at a corner holds more fruit than the largest one. */
  lemma LargestHoldsMost(b: Board, r: int, c: int, lo: int)
    requires PineFree(b, r, c, lo) && forall s :: PineFree(b, r, c, s) ==> s <= lo
    ensures forall s :: PineFree(b, r, c, s) ==> InSquare(b, 'F', r, c, s) <= InSquare(b, 'F', r, c, lo)
    ensures b[r][c] != 'P' ==> lo >= 1
  {
    forall s | PineFree(b, r, c, s) ensures InSquare(b, 'F', r, c, s) <= InSquare(b, 'F', r, c, lo) {
      Monotone(b, 'F', r, c, s, lo);
    }
    SideOne(b, r, c);
    if b[r][c] != 'P' {
      assert PineFree(b, r, c, 1);
    }
  }

  method Scan(board: array2<char>, ghost b: Board) returns (bestX: int, bestY: int, bestS: int, bestN: int)
    requires board.Length0 >= 1 && board.Length1 >= 1 && b == Picture(board)
    ensures IsAnswer(b, bestX, bestY, bestS, bestN)
  {
    var x, y := board.Length0, board.Length1;
    var pinos, fruta := BuildTables(board);
    bestX, bestY, bestS, bestN := 0, 0, 0, -1;
    for xp := 0 to x
      invariant Tabulates(pinos, b, 'P') && Tabulates(fruta, b, 'F')
      invariant xp == 0 ==> bestN == -1
      invariant xp > 0 ==> BestBefore(b, xp, 0, bestX, bestY, bestS, bestN)
    {
      for yp := 0 to y
        invariant Tabulates(pinos, b, 'P') && Tabulates(fruta, b, 'F')
        invariant xp == 0 && yp == 0 ==> bestN == -1
        invariant xp > 0 || yp > 0 ==> BestBefore(b, xp, yp, bestX, bestY, bestS, bestN)
      {
        bestX, bestY, bestS, bestN := VisitCorner(xp, yp, pinos, fruta, b, bestX, bestY, bestS, bestN);
      }
      NextRow(b, xp, bestX, bestY, bestS, bestN);
    }
  }

  lemma NextRow(b: Board, r: int, br: int, bc: int, bs: int, bn: int)
    requires 0 <= r < Rows(b)
    requires BestBefore(b, r, Cols(b), br, bc, bs, bn)
    ensures BestBefore(b, r + 1, 0, br, bc, bs, bn)
  {
    forall i, j, s | PineFree(b, i, j, s) && Before(i, j, r + 1, 0) ensures InSquare(b, 'F', i, j, s) <= bn {
      assert Before(i, j, r, Cols(b));
    }
  }

  /** One turn of the scan: both searches at a corner, and the best kept. */
  method VisitCorner(xp: int, yp: int, pinos: array2<int>, fruta: array2<int>, ghost b: Board,
                     bestX: int, bestY: int, bestS: int, bestN: int)
    returns (x: int, y: int, s: int, n: int)
    requires OnBoard(b, xp, yp) && Tabulates(pinos, b, 'P') && Tabulates(fruta, b, 'F')
    requires xp == 0 && yp == 0 ==> bestN == -1
    requires xp > 0 || yp > 0 ==> BestBefore(b, xp, yp, bestX, bestY, bestS, bestN)
    ensures BestBefore(b, xp, yp + 1, x, y, s, n)
  {
    x, y, s, n := bestX, bestY, bestS, bestN;
    var lo, _ := LargestPineFree(xp, yp, pinos, b);
    LargestHoldsMost(b, xp, yp, lo);
    GetSqCounts(xp, yp, lo, fruta, b, 'F');
    var numFrut := GetSq(xp, yp, lo, fruta);
    if numFrut > bestN {
      var hi, _ := SmallestWithSameFruit(xp, yp, lo, fruta, b);
      Monotone(b, 'P', xp, yp, hi, lo);
      x, y, s, n := xp, yp, hi, numFrut;
    }
    forall i, j, t | PineFree(b, i, j, t) && Before(i, j, xp, yp + 1) ensures InSquare(b, 'F', i, j, t) <= n {
      assert Before(i, j, xp, yp) || (i, j) == (xp, yp);
    }
  }

  /** What the program prints about a board: the top-left cell, counted from zero, the side and the
      fruit. */
  method Report(board: array2<char>, ghost b: Board) returns (row: int, col: int, side: int, fruit: int)
    requires board.Length0 >= 1 && board.Length1 >= 1 && b == Picture(board)
    ensures IsAnswer(b, row + side - 1, col + side - 1, side, fruit)
  {
    var bestX, bestY, bestS, bestN := Scan(board, b);
    row, col, side, fruit := bestX - bestS + 1, bestY - bestS + 1, bestS, bestN;
    assert row + side - 1 == bestX && col + side - 1 == bestY;
  }

  // ---------- The answer, told by the input ----------

  /** A one-based coordinate lies in the square of this side with its zero-based top-left cell at
      `(row, col)`. */
  predicate Within(p: (int, int), row: int, col: int, side: int) {
    row < p.0 <= row + side && col < p.1 <= col + side
  }

  /** Every pine listed in the square is replaced by fruit. */
  predicate ClearOfPines(pines: seq<(int, int)>, fruits: seq<(int, int)>, row: int, col: int, side: int) {
    forall p :: p in pines && Within(p, row, col, side) ==> p in fruits
  }

  /** The distinct coordinates of fruit in the square. */
  function FruitWithin(fruits: seq<(int, int)>, row: int, col: int, side: int): set<(int, int)> {
    set p | p in fruits && Within(p, row, col, side)
  }

  /** A cell as it is read, counted from one. */
  function FromOne(cell: (int, int)): (int, int) {
    (cell.0 + 1, cell.1 + 1)
  }

  ghost predicate Shifted(cells: set<(int, int)>, listed: set<(int, int)>) {
    forall c :: c in cells <==> FromOne(c) in listed
  }

  /** Counting from zero or from one makes no difference. */
  lemma {:induction false} ShiftedSize(cells: set<(int, int)>, listed: set<(int, int)>)
    requires Shifted(cells, listed)
    ensures |cells| == |listed|
    decreases |cells|
  {
    if listed == {} {
      assert forall c :: c in cells ==> FromOne(c) in listed;
      assert cells == {};
    } else {
      var p :| p in listed;
      var c := (p.0 - 1, p.1 - 1);
      assert FromOne(c) == p;
      assert c in cells;
      ShiftedSize(cells - {c}, listed - {p});
    }
  }

  /** The board shows the lists, fruit on top of pines. */
  ghost predicate Shows(b: Board, x: nat, y: nat, pines: seq<(int, int)>, fruits: seq<(int, int)>) {
    && Rows(b) == x && Cols(b) == y
    && forall c: (int, int) {:trigger FromOne(c)} :: OnBoard(b, c.0, c.1) ==>
         && (b[c.0][c.1] == 'F' <==> FromOne(c) in fruits)
         && (b[c.0][c.1] == 'P' <==> FromOne(c) in pines && FromOne(c) !in fruits)
  }

  lemma OrchardShows(x: nat, y: nat, pines: seq<(int, int)>, fruits: seq<(int, int)>)
    requires x >= 1
    ensures Shows(Orchard(x, y, pines, fruits), x, y, pines, fruits)
  {
  }

  lemma FruitCellIsListed(b: Board, x: nat, y: nat, pines: seq<(int, int)>, fruits: seq<(int, int)>,
                          r: int, c: int, s: int, i: int, j: int)
    requires Shows(b, x, y, pines, fruits) && Side(b, r, c, s)
    ensures && r - s + 1 <= i < r + 1 && c - s + 1 <= j < c + 1 && b[i][j] == 'F'
            <==> FromOne((i, j)) in FruitWithin(fruits, r - s + 1, c - s + 1, s)
  {
    if r - s + 1 <= i < r + 1 && c - s + 1 <= j < c + 1 {
      assert OnBoard(b, i, j);
    }
  }

  lemma FruitCellsShifted(b: Board, x: nat, y: nat, pines: seq<(int, int)>, fruits: seq<(int, int)>,
                          r: int, c: int, s: int)
    requires Shows(b, x, y, pines, fruits) && Side(b, r, c, s)
    ensures Shifted(Cells(b, 'F', r - s + 1, r + 1, c - s + 1, c + 1), FruitWithin(fruits, r - s + 1, c - s + 1, s))
  {
    var cells := Cells(b, 'F', r - s + 1, r + 1, c - s + 1, c + 1);
    var listed := FruitWithin(fruits, r - s + 1, c - s + 1, s);
    forall cell ensures cell in cells <==> FromOne(cell) in listed {
      FruitCellIsListed(b, x, y, pines, fruits, r, c, s, cell.0, cell.1);
    }
  }

  lemma FruitIsListed(b: Board, x: nat, y: nat, pines: seq<(int, int)>, fruits: seq<(int, int)>, r: int, c: int, s: int)
    requires Shows(b, x, y, pines, fruits) && Side(b, r, c, s)
    ensures InSquare(b, 'F', r, c, s) == |FruitWithin(fruits, r - s + 1, c - s + 1, s)|
  {
    FruitCellsShifted(b, x, y, pines, fruits, r, c, s);
    ShiftedSize(Cells(b, 'F', r - s + 1, r + 1, c - s + 1, c + 1), FruitWithin(fruits, r - s + 1, c - s + 1, s));
  }

  lemma PinesAreListed(b: Board, x: nat, y: nat, pines: seq<(int, int)>, fruits: seq<(int, int)>,
                       r: int, c: int, s: int)
    requires Shows(b, x, y, pines, fruits) && Side(b, r, c, s)
    ensures PineFree(b, r, c, s) <==> ClearOfPines(pines, fruits, r - s + 1, c - s + 1, s)
  {
    var cells := Cells(b, 'P', r - s + 1, r + 1, c - s + 1, c + 1);
    if |cells| == 0 {
      forall p | p in pines && Within(p, r - s + 1, c - s + 1, s) ensures p in fruits {
        var cell := (p.0 - 1, p.1 - 1);
        assert FromOne(cell) == p && OnBoard(b, cell.0, cell.1);
        assert cell !in cells;
      }
    } else {
      var cell :| cell in cells;
      assert Within(FromOne(cell), r - s + 1, c - s + 1, s) && OnBoard(b, cell.0, cell.1);
    }
  }

  /** Some square on the board, by its zero-based top-left cell; the empty one has a corner there too. */
  predicate OnGrid(x: nat, y: nat, row: int, col: int, side: int) {
    0 <= row && 0 <= col && 0 <= side && 1 <= row + side <= x && 1 <= col + side <= y
  }

  /** Neither an earlier bottom-right corner nor a smaller nonempty square at the same one. */
  predicate NotEarlier(row: int, col: int, side: int, r: int, c: int, s: int) {
    && !Before(r + s, c + s, row + side, col + side)
    && !(r + s == row + side && c + s == col + side && 1 <= s < side)
  }

  lemma ReportedByLists(b: Board, x: nat, y: nat, pines: seq<(int, int)>, fruits: seq<(int, int)>,
                        row: int, col: int, side: int, fruit: int)
    requires Shows(b, x, y, pines, fruits) && IsAnswer(b, row + side - 1, col + side - 1, side, fruit)
    ensures OnGrid(x, y, row, col, side) && ClearOfPines(pines, fruits, row, col, side)
    ensures fruit == |FruitWithin(fruits, row, col, side)|
    ensures side == 0 ==> (row, col) in pines && (row, col) !in fruits
  {
    assert FromOne((row + side - 1, col + side - 1)) == (row + side, col + side);
    PinesAreListed(b, x, y, pines, fruits, row + side - 1, col + side - 1, side);
    FruitIsListed(b, x, y, pines, fruits, row + side - 1, col + side - 1, side);
  }

  /** What the answer means for any other square, told by the lists. */
  lemma AnswerByLists(b: Board, x: nat, y: nat, pines: seq<(int, int)>, fruits: seq<(int, int)>,
                      row: int, col: int, side: int, fruit: int, r: int, c: int, s: int)
    requires Shows(b, x, y, pines, fruits) && IsAnswer(b, row + side - 1, col + side - 1, side, fruit)
    requires OnGrid(x, y, r, c, s) && ClearOfPines(pines, fruits, r, c, s)
    ensures |FruitWithin(fruits, r, c, s)| <= fruit
    ensures NotEarlier(row, col, side, r, c, s) || |FruitWithin(fruits, r, c, s)| < fruit
  {
    var i, j := r + s - 1, c + s - 1;
    PinesAreListed(b, x, y, pines, fruits, i, j, s);
    FruitIsListed(b, x, y, pines, fruits, i, j, s);
    assert PineFree(b, i, j, s) && InSquare(b, 'F', i, j, s) == |FruitWithin(fruits, r, c, s)|;
    assert Before(i, j, Rows(b), 0);
  }

  /** The whole program: lists of one-based coordinates in, the printed numbers out. The square lies on
      the board; every pine in it is replaced by fruit; it holds the number of fruit reported; no square
      without such pines holds more; and one that holds as much does not come earlier. The empty square is
      reported only at a pine. */
  method Solve(x: nat, y: nat, pines: seq<(int, int)>, fruits: seq<(int, int)>)
    returns (row: int, col: int, side: int, fruit: int)
    requires x >= 1 && y >= 1 && Inside(x, y, pines) && Inside(x, y, fruits)
    ensures IsAnswer(Orchard(x, y, pines, fruits), row + side - 1, col + side - 1, side, fruit)
    ensures 0 <= row && 0 <= col && 0 <= side && 1 <= row + side <= x && 1 <= col + side <= y
    ensures forall p :: p in pines && row < p.0 <= row + side && col < p.1 <= col + side ==> p in fruits
    ensures fruit == |set p | p in fruits && row < p.0 <= row + side && col < p.1 <= col + side|
    ensures side == 0 ==> (row, col) in pines && (row, col) !in fruits
    ensures forall r, c, s :: OnGrid(x, y, r, c, s) && ClearOfPines(pines, fruits, r, c, s) ==>
              && |FruitWithin(fruits, r, c, s)| <= fruit
              && (NotEarlier(row, col, side, r, c, s) || |FruitWithin(fruits, r, c, s)| < fruit)
  {
    var board := ReadBoard(x, y, pines, fruits);
    ghost var b := Orchard(x, y, pines, fruits);
    row, col, side, fruit := Report(board, b);
    OrchardShows(x, y, pines, fruits);
    forall r, c, s | OnGrid(x, y, r, c, s) && ClearOfPines(pines, fruits, r, c, s)
      ensures |FruitWithin(fruits, r, c, s)| <= fruit
      ensures NotEarlier(row, col, side, r, c, s) || |FruitWithin(fruits, r, c, s)| < fruit
    {
      AnswerByLists(b, x, y, pines, fruits, row, col, side, fruit, r, c, s);
    }
    ReportedByLists(b, x, y, pines, fruits, row, col, side, fruit);
    assert FruitWithin(fruits, row, col, side)
        == set p | p in fruits && row < p.0 <= row + side && col < p.1 <= col + side;
  }

  /** What was reported, in plain words: a square on the board whose cells are all free of pines and
      hold `fruit` fruit, such that no pine-free square holds more. */
  lemma AnswerInPlainWords(b: Board, r: int, c: int, s: int, n: int)
    requires IsAnswer(b, r, c, s, n)
    ensures 0 <= r - s + 1 && r < Rows(b) && 0 <= c - s + 1 && c < Cols(b)
    ensures forall i, j :: r - s < i <= r && c - s < j <= c ==> b[i][j] != 'P'
    ensures |set i, j | r - s + 1 <= i < r + 1 && c - s + 1 <= j < c + 1 && b[i][j] == 'F' :: (i, j)| == n
    ensures forall i, j, t :: Side(b, i, j, t) && (forall k, l :: i - t < k <= i && j - t < l <= j ==> b[k][l] != 'P')
                         ==> InSquare(b, 'F', i, j, t) <= n
  {
    var pines := Cells(b, 'P', r - s + 1, r + 1, c - s + 1, c + 1);
    assert |pines| == 0;
    assert pines == {};
    forall i, j | r - s < i <= r && c - s < j <= c ensures b[i][j] != 'P' {
      assert (i, j) !in pines;
    }
    assert Cells(b, 'F', r - s + 1, r + 1, c - s + 1, c + 1)
        == set i, j | r - s + 1 <= i < r + 1 && c - s + 1 <= j < c + 1 && b[i][j] == 'F' :: (i, j);
    forall i, j, t | Side(b, i, j, t) && (forall k, l :: i - t < k <= i && j - t < l <= j ==> b[k][l] != 'P')
      ensures InSquare(b, 'F', i, j, t) <= n
    {
      assert Cells(b, 'P', i - t + 1, i + 1, j - t + 1, j + 1) == {};
      assert PineFree(b, i, j, t);
    }
  }
}
