/** N-queens as an exact cover problem: the matrix both dancing-links solvers
  * build, and the proof that its exact covers are the queens placements. */
module QueensCover {
  import opened Counting
  import opened Queens
  import opened ExactCover

  /** The two column orders: nqueens.h creates the headers in name order,
    * nqueens_dl.cc alternates columns with rows and sums with differences. */
  datatype Layout = ByName | Interleaved

  function ColumnHeader(l: Layout, n: nat, c: nat): nat {
    match l case ByName => 1 + c case Interleaved => 1 + 2 * c
  }

  function RowHeader(l: Layout, n: nat, r: nat): nat {
    match l case ByName => 1 + n + r case Interleaved => 2 + 2 * r
  }

  function SumHeader(l: Layout, n: nat, d: nat): nat {
    match l case ByName => 1 + 2 * n + d case Interleaved => 1 + 2 * n + 2 * d
  }

  /** d = n + row - column, between 1 and 2n - 1. */
  function DiffHeader(l: Layout, n: nat, d: nat): nat {
    match l case ByName => 1 + 4 * n + d case Interleaved => 2 + 2 * n + 2 * d
  }

  /** The four constraints of a queen on square (r, c). */
  function SquareColumns(l: Layout, n: nat, r: nat, c: nat): (s: seq<nat>)
    requires c < n
    ensures |s| == 4
  {
    [ColumnHeader(l, n, c), RowHeader(l, n, r), SumHeader(l, n, r + c), DiffHeader(l, n, n + r - c)]
  }

  ghost predicate OnBoard(n: nat, squares: seq<(nat, nat)>) {
    forall i :: 0 <= i < |squares| ==> squares[i].0 < n && squares[i].1 < n
  }

  ghost function PrimaryColumns(n: nat): set<nat> {
    Below(2 * n + 1) - {0}
  }

  ghost function MatrixOf(l: Layout, n: nat, squares: seq<(nat, nat)>): Matrix
    requires OnBoard(n, squares)
  {
    Matrix(6 * n, PrimaryColumns(n),
      seq(|squares|, i requires 0 <= i < |squares| => SquareColumns(l, n, squares[i].0, squares[i].1)))
  }

  /** Every square of the board exactly once, in whatever order. */
  ghost predicate AllSquares(n: nat, squares: seq<(nat, nat)>) {
    && OnBoard(n, squares)
    && (forall i, j :: 0 <= i < j < |squares| ==> squares[i] != squares[j])
    && (forall r, c :: 0 <= r < n && 0 <= c < n ==> (r, c) in squares)
  }

  lemma SquareColumnsGood(l: Layout, n: nat, r: nat, c: nat)
    requires r < n && c < n
    ensures var s := SquareColumns(l, n, r, c);
      && (forall k :: 0 <= k < 4 ==> 1 <= s[k] <= 6 * n)
      && (forall j, k :: 0 <= j < k < 4 ==> s[j] != s[k])
      && s[0] <= 2 * n && s[1] <= 2 * n && s[2] > 2 * n && s[3] > 2 * n
  {
  }

  ghost function SquareSet(l: Layout, n: nat, r: nat, c: nat): set<nat>
    requires c < n
  {
    {ColumnHeader(l, n, c), RowHeader(l, n, r), SumHeader(l, n, r + c), DiffHeader(l, n, n + r - c)}
  }

  lemma ColumnsOfSquare(l: Layout, n: nat, squares: seq<(nat, nat)>, i: nat)
    requires OnBoard(n, squares) && i < |squares|
    ensures MatrixOf(l, n, squares).ColumnsOf(i) == SquareSet(l, n, squares[i].0, squares[i].1)
  {
    var m := MatrixOf(l, n, squares);
    var q := SquareColumns(l, n, squares[i].0, squares[i].1);
    assert m.rows[i] == q;
    hide ColumnHeader, RowHeader, SumHeader, DiffHeader;
    forall h ensures h in m.ColumnsOf(i) <==> h in SquareSet(l, n, squares[i].0, squares[i].1) {
      assert q[0] in m.ColumnsOf(i) && q[1] in m.ColumnsOf(i) && q[2] in m.ColumnsOf(i) && q[3] in m.ColumnsOf(i);
    }
  }

  lemma MatrixValid(l: Layout, n: nat, squares: seq<(nat, nat)>)
    requires OnBoard(n, squares)
    ensures MatrixOf(l, n, squares).Valid()
    ensures forall i :: 0 <= i < |squares| ==> MatrixOf(l, n, squares).ColumnsOf(i) * PrimaryColumns(n) != {}
  {
    var m := MatrixOf(l, n, squares);
    forall i | 0 <= i < |squares|
      ensures |m.rows[i]| == 4 && (forall k :: 0 <= k < 4 ==> 1 <= m.rows[i][k] <= m.columns)
      ensures forall j, k :: 0 <= j < k < 4 ==> m.rows[i][j] != m.rows[i][k]
      ensures m.ColumnsOf(i) * PrimaryColumns(n) != {}
    {
      SquareColumnsGood(l, n, squares[i].0, squares[i].1);
      ColumnsOfSquare(l, n, squares, i);
      assert ColumnHeader(l, n, squares[i].1) in m.ColumnsOf(i) * PrimaryColumns(n);
    }
  }

  /** Two squares in different rows clash in the matrix exactly when queens on them attack each other. */
  lemma ClashIsAttack(l: Layout, n: nat, r: nat, c: nat, s: nat, d: nat)
    requires c < n && d < n && r < n && s < n && r < s
    ensures SquareSet(l, n, r, c) !! SquareSet(l, n, s, d) <==> !Attacks(c, d, s - r)
  {
    hide ColumnHeader, RowHeader, SumHeader, DiffHeader, SquareColumns;
    var a, b := SquareColumns(l, n, r, c), SquareColumns(l, n, s, d);
    ConstraintsMeet(l, n, r, c, s, d);
    SquareSetIs(l, n, r, c);
    SquareSetIs(l, n, s, d);
    FourApart(a, b);
  }

  lemma SquareSetIs(l: Layout, n: nat, r: nat, c: nat)
    requires c < n
    ensures var a := SquareColumns(l, n, r, c); SquareSet(l, n, r, c) == {a[0], a[1], a[2], a[3]}
  {
  }

  /** Constraints of different kinds never coincide; those of one kind do when the
    * squares share that line. */
  lemma ConstraintsMeet(l: Layout, n: nat, r: nat, c: nat, s: nat, d: nat)
    requires c < n && d < n && r < n && s < n && r < s
    ensures var a, b := SquareColumns(l, n, r, c), SquareColumns(l, n, s, d);
      && (forall j, k :: 0 <= j < 4 && 0 <= k < 4 && j != k ==> a[j] != b[k])
      && (a[0] == b[0] <==> c == d) && a[1] != b[1]
      && (a[2] == b[2] <==> d + (s - r) == c) && (a[3] == b[3] <==> c + (s - r) == d)
  {
    var a, b := SquareColumns(l, n, r, c), SquareColumns(l, n, s, d);
    KindsDiffer(l, n, r, c, s, d);
    KindsDiffer(l, n, s, d, r, c);
    forall j, k | 0 <= j < 4 && 0 <= k < 4 && j != k ensures a[j] != b[k] {
      hide *;
    }
  }

  /** Headers of one kind never equal those of a later kind. */
  lemma KindsDiffer(l: Layout, n: nat, r: nat, c: nat, s: nat, d: nat)
    requires c < n && d < n && r < n && s < n
    ensures var a, b := SquareColumns(l, n, r, c), SquareColumns(l, n, s, d);
      && a[0] != b[1] && a[0] != b[2] && a[0] != b[3] && a[1] != b[2] && a[1] != b[3] && a[2] != b[3]
  {
  }

  lemma FourApart(a: seq<nat>, b: seq<nat>)
    requires |a| == |b| == 4 && forall j, k :: 0 <= j < 4 && 0 <= k < 4 && j != k ==> a[j] != b[k]
    ensures {a[0], a[1], a[2], a[3]} !! {b[0], b[1], b[2], b[3]} <==> forall j :: 0 <= j < 4 ==> a[j] != b[j]
  {
    var p, q := {a[0], a[1], a[2], a[3]}, {b[0], b[1], b[2], b[3]};
    assert a[0] in p && a[1] in p && a[2] in p && a[3] in p && b[0] in q && b[1] in q && b[2] in q && b[3] in q;
  }

  /** Two different squares of one row never lie in the same cover. */
  lemma SameRowClash(l: Layout, n: nat, squares: seq<(nat, nat)>, s: set<nat>, i: nat, j: nat)
    requires OnBoard(n, squares) && IsCover(MatrixOf(l, n, squares), {}, s) && i in s && j in s
    ensures i < |squares| && j < |squares| && (squares[i].0 == squares[j].0 ==> i == j)
  {
    var m := MatrixOf(l, n, squares);
    assert i < |m.rows| && j < |m.rows|;
    ColumnsOfSquare(l, n, squares, i);
    ColumnsOfSquare(l, n, squares, j);
    assert RowHeader(l, n, squares[i].0) in m.ColumnsOf(i) && RowHeader(l, n, squares[j].0) in m.ColumnsOf(j);
  }

  // ------------------------------------------------------- boards and covers

  ghost function RowsOf(n: nat, squares: seq<(nat, nat)>, b: Board): set<nat> {
    set i: nat | i in Below(|squares|) && squares[i].0 < |b| && squares[i].1 == b[squares[i].0]
  }

  /** The column of the queen that a selection of squares puts in row r. */
  ghost function QueenIn(n: nat, squares: seq<(nat, nat)>, s: set<nat>, r: nat): nat {
    if exists i :: i in s && i < |squares| && squares[i].0 == r
    then var i :| i in s && i < |squares| && squares[i].0 == r; squares[i].1
    else 0
  }

  ghost function BoardOf(n: nat, squares: seq<(nat, nat)>, s: set<nat>): Board {
    seq(n, r requires 0 <= r < n => QueenIn(n, squares, s, r))
  }

  lemma CoverPicksOnePerRow(l: Layout, n: nat, squares: seq<(nat, nat)>, s: set<nat>, i: nat)
    requires AllSquares(n, squares) && IsCover(MatrixOf(l, n, squares), {}, s) && i in s
    ensures i < |squares| && QueenIn(n, squares, s, squares[i].0) == squares[i].1
  {
    SameRowClash(l, n, squares, s, i, i);
    var r := squares[i].0;
    var j :| j in s && j < |squares| && squares[j].0 == r && QueenIn(n, squares, s, r) == squares[j].1;
    SameRowClash(l, n, squares, s, i, j);
  }

  lemma CoverReachesRow(l: Layout, n: nat, squares: seq<(nat, nat)>, s: set<nat>, r: nat)
    requires AllSquares(n, squares) && IsCover(MatrixOf(l, n, squares), {}, s) && r < n
    ensures exists i :: i in s && i < |squares| && squares[i].0 == r
  {
    var m := MatrixOf(l, n, squares);
    var h := RowHeader(l, n, r);
    assert h in m.primary && h !in {};
    var i :| i in s && h in m.ColumnsOf(i);
    assert i < |m.rows|;
    ColumnsOfSquare(l, n, squares, i);
    RowHeaderOnly(l, n, r, squares[i].0, squares[i].1);
  }

  lemma RowHeaderOnly(l: Layout, n: nat, r: nat, s: nat, d: nat)
    requires r < n && s < n && d < n && RowHeader(l, n, r) in SquareSet(l, n, s, d)
    ensures r == s
  {
  }

  /** The selection s puts exactly the queens of board b on the squares. */
  ghost predicate Picks(n: nat, squares: seq<(nat, nat)>, s: set<nat>, b: Board) {
    && |b| == n
    && (forall i :: i in s ==> i < |squares| && squares[i].0 < n && squares[i].1 == b[squares[i].0])
    && (forall r :: 0 <= r < n ==> Holds(squares, s, r, b[r]))
  }

  ghost predicate Holds(squares: seq<(nat, nat)>, s: set<nat>, r: nat, c: nat) {
    exists i :: i in s && i < |squares| && squares[i] == (r, c)
  }

  lemma CoverPicks(l: Layout, n: nat, squares: seq<(nat, nat)>, s: set<nat>)
    requires AllSquares(n, squares) && IsCover(MatrixOf(l, n, squares), {}, s)
    ensures Picks(n, squares, s, BoardOf(n, squares, s))
  {
    var b := BoardOf(n, squares, s);
    forall i | i in s ensures i < |squares| && squares[i].0 < n && squares[i].1 == b[squares[i].0] {
      CoverPicksOnePerRow(l, n, squares, s, i);
    }
    forall r | 0 <= r < n ensures Holds(squares, s, r, b[r]) {
      PickInRow(l, n, squares, s, r);
    }
  }

  lemma PickInRow(l: Layout, n: nat, squares: seq<(nat, nat)>, s: set<nat>, r: nat)
    requires AllSquares(n, squares) && IsCover(MatrixOf(l, n, squares), {}, s) && r < n
    ensures Holds(squares, s, r, QueenIn(n, squares, s, r))
  {
    CoverReachesRow(l, n, squares, s, r);
    var i :| i in s && i < |squares| && squares[i].0 == r;
    CoverPicksOnePerRow(l, n, squares, s, i);
    assert squares[i] == (r, QueenIn(n, squares, s, r));
  }

  lemma PicksSafe(l: Layout, n: nat, squares: seq<(nat, nat)>, s: set<nat>, b: Board)
    requires AllSquares(n, squares) && IsCover(MatrixOf(l, n, squares), {}, s) && Picks(n, squares, s, b)
    ensures InRange(b, n) && Safe(b)
  {
    forall r | 0 <= r < n ensures b[r] < n {
      assert Holds(squares, s, r, b[r]);
      var i :| i in s && i < |squares| && squares[i] == (r, b[r]);
    }
    forall r, t | 0 <= r < t < n ensures !Attacks(b[r], b[t], t - r) {
      assert Holds(squares, s, r, b[r]) && Holds(squares, s, t, b[t]);
      var i :| i in s && i < |squares| && squares[i] == (r, b[r]);
      var j :| j in s && j < |squares| && squares[j] == (t, b[t]);
      ColumnsOfSquare(l, n, squares, i);
      ColumnsOfSquare(l, n, squares, j);
      ClashIsAttack(l, n, r, b[r], t, b[t]);
    }
  }

  lemma PicksRows(n: nat, squares: seq<(nat, nat)>, s: set<nat>, b: Board)
    requires AllSquares(n, squares) && Picks(n, squares, s, b)
    ensures RowsOf(n, squares, b) == s
  {
    forall i: nat ensures i in RowsOf(n, squares, b) <==> i in s {
      if i in RowsOf(n, squares, b) {
        var r := squares[i].0;
        assert Holds(squares, s, r, b[r]);
        var j :| j in s && j < |squares| && squares[j] == (r, b[r]);
        SquareIndex(n, squares, i, j);
      }
    }
  }

  lemma SquareIndex(n: nat, squares: seq<(nat, nat)>, i: nat, j: nat)
    requires AllSquares(n, squares) && i < |squares| && j < |squares|
    ensures squares[i] == squares[j] <==> i == j
  {
  }

  lemma CoverIsBoard(l: Layout, n: nat, squares: seq<(nat, nat)>, s: set<nat>)
    requires AllSquares(n, squares) && IsCover(MatrixOf(l, n, squares), {}, s)
    ensures BoardOf(n, squares, s) in Solutions(n, [])
    ensures RowsOf(n, squares, BoardOf(n, squares, s)) == s
  {
    var b := BoardOf(n, squares, s);
    hide IsCover, AllSquares, MatrixOf, QueenIn, Picks, RowsOf;
    CoverPicks(l, n, squares, s);
    PicksSafe(l, n, squares, s, b);
    PicksRows(n, squares, s, b);
    assert b in Boards(n, n) && [] <= b;
  }

  lemma BoardIsCover(l: Layout, n: nat, squares: seq<(nat, nat)>, b: Board)
    requires AllSquares(n, squares) && b in Solutions(n, [])
    ensures IsCover(MatrixOf(l, n, squares), {}, RowsOf(n, squares, b))
    ensures BoardOf(n, squares, RowsOf(n, squares, b)) == b
  {
    var m, s := MatrixOf(l, n, squares), RowsOf(n, squares, b);
    forall i, j | i in s && j in s && i != j ensures m.ColumnsOf(i) !! m.ColumnsOf(j) {
      RowsApart(l, n, squares, b, i, j);
    }
    forall h | h in m.primary && h !in {} ensures exists i :: i in s && h in m.ColumnsOf(i) {
      HeaderReached(l, n, squares, b, h);
    }
    forall r | 0 <= r < n ensures QueenIn(n, squares, s, r) == b[r] {
      QueenFound(n, squares, b, r);
    }
    hide QueenIn, AllSquares;
  }

  /** The squares of two queens have no constraint in common. */
  lemma RowsApart(l: Layout, n: nat, squares: seq<(nat, nat)>, b: Board, i: nat, j: nat)
    requires AllSquares(n, squares) && b in Solutions(n, [])
    requires i in RowsOf(n, squares, b) && j in RowsOf(n, squares, b) && i != j
    ensures var m := MatrixOf(l, n, squares); m.ColumnsOf(i) !! m.ColumnsOf(j)
  {
    ColumnsOfSquare(l, n, squares, i);
    ColumnsOfSquare(l, n, squares, j);
    SquareIndex(n, squares, i, j);
    hide SquareSet, MatrixOf, AllSquares;
    var r, t := squares[i].0, squares[j].0;
    if r < t {
      ClashIsAttack(l, n, r, b[r], t, b[t]);
    } else if t < r {
      ClashIsAttack(l, n, t, b[t], r, b[r]);
    }
  }

  lemma QueenFound(n: nat, squares: seq<(nat, nat)>, b: Board, r: nat)
    requires AllSquares(n, squares) && |b| == n && InRange(b, n) && r < n
    ensures QueenIn(n, squares, RowsOf(n, squares, b), r) == b[r]
  {
    assert (r, b[r]) in squares;
    var i :| 0 <= i < |squares| && squares[i] == (r, b[r]);
    assert i in RowsOf(n, squares, b);
  }

  lemma HeaderReached(l: Layout, n: nat, squares: seq<(nat, nat)>, b: Board, h: nat)
    requires AllSquares(n, squares) && b in Solutions(n, []) && 1 <= h <= 2 * n
    ensures exists i :: i in RowsOf(n, squares, b) && h in MatrixOf(l, n, squares).ColumnsOf(i)
  {
    var r: nat;
    if exists c :: 0 <= c < n && ColumnHeader(l, n, c) == h {
      var c :| 0 <= c < n && ColumnHeader(l, n, c) == h;
      SafeIsInjective(b);
      EveryColumnUsed(n, b, c);
      r :| 0 <= r < n && b[r] == c;
    } else {
      PrimaryIsColumnOrRow(l, n, h);
      r :| 0 <= r < n && RowHeader(l, n, r) == h;
    }
    assert (r, b[r]) in squares;
    var i :| 0 <= i < |squares| && squares[i] == (r, b[r]);
    ColumnsOfSquare(l, n, squares, i);
    assert i in RowsOf(n, squares, b);
  }

  lemma PrimaryIsColumnOrRow(l: Layout, n: nat, h: nat)
    requires 1 <= h <= 2 * n
    ensures (exists c :: 0 <= c < n && ColumnHeader(l, n, c) == h) || (exists r :: 0 <= r < n && RowHeader(l, n, r) == h)
  {
    match l
    case ByName =>
      if h <= n { assert ColumnHeader(l, n, h - 1) == h; } else { assert RowHeader(l, n, h - 1 - n) == h; }
    case Interleaved =>
      if h % 2 == 1 { assert ColumnHeader(l, n, (h - 1) / 2) == h; } else { assert RowHeader(l, n, (h - 2) / 2) == h; }
  }

  /** The exact covers of the queens matrix are as many as the queens placements. */
  lemma CoversAreQueens(l: Layout, n: nat, squares: seq<(nat, nat)>)
    requires AllSquares(n, squares)
    ensures |Covers(MatrixOf(l, n, squares), {})| == NQueens(n)
  {
    var m := MatrixOf(l, n, squares);
    var f := (s: set<nat>) => BoardOf(n, squares, s);
    var g := (b: Board) => RowsOf(n, squares, b);
    forall s | s in Covers(m, {}) ensures f(s) in Solutions(n, []) && g(f(s)) == s {
      CoversIff(m, {}, s);
      CoverIsBoard(l, n, squares, s);
    }
    forall b | b in Solutions(n, []) ensures g(b) in Covers(m, {}) && f(g(b)) == b {
      BoardIsCover(l, n, squares, b);
      CoversIff(m, {}, g(b));
    }
    BijectionCard(Covers(m, {}), Solutions(n, []), f, g);
  }
}
