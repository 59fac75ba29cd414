/** `dl::Solver` of nqueens.h: Knuth's Algorithm X over an in-place node pool.
  * `QueenSolver` of nqueens_dl.cc runs the same search over another column order. */
module DancingLinks {
  import opened Rings
  import opened ExactCover
  import opened NodePool
  import opened PoolBuilder
  import opened QueensCover
  import Queens

  datatype Node = Node(left: nat, right: nat, up: nat, down: nat, col: nat, size: int)

  function PoolOf(s: seq<Node>): (p: Pool)
    ensures p.Sized() && |p.col| == |s|
    ensures forall i :: 0 <= i < |s| ==> p.left[i] == s[i].left && p.right[i] == s[i].right
    ensures forall i :: 0 <= i < |s| ==> p.up[i] == s[i].up && p.down[i] == s[i].down
    ensures forall i :: 0 <= i < |s| ==> p.col[i] == s[i].col && p.size[i] == s[i].size
  {
    Pool(seq(|s|, i requires 0 <= i < |s| => s[i].left), seq(|s|, i requires 0 <= i < |s| => s[i].right),
         seq(|s|, i requires 0 <= i < |s| => s[i].up), seq(|s|, i requires 0 <= i < |s| => s[i].down),
         seq(|s|, i requires 0 <= i < |s| => s[i].col), seq(|s|, i requires 0 <= i < |s| => s[i].size))
  }

  // ------------------------------------------------------- what a walk can see

  /** In any good state, stepping down or up column c follows its list. */
  lemma WalkColumn(p: Pool, m: Matrix, v: seq<seq<nat>>, c: nat, i: nat)
    requires Vertical(p, m, v) && 1 <= c <= m.columns && |v| == m.columns + 1 && i <= |v[c]|
    ensures m.Valid() && Cells(m, v[c])
    ensures At(c, v[c], i) < |p.down| && At(c, v[c], i + 1) < |p.up|
    ensures p.down[At(c, v[c], i)] == At(c, v[c], i + 1)
    ensures p.up[At(c, v[c], i + 1)] == At(c, v[c], i)
    ensures At(c, v[c], i + 1) == c <==> i == |v[c]|
    ensures i < |v[c]| ==> At(c, v[c], i + 1) == v[c][i]
    ensures At(c, v[c], 0) == c
  {
    assert Column(p, m, c, v[c]);
    if i < |v[c]| { AtInjective(c, v[c], i + 1, 0); }
  }

  /** Stepping right or left from a row node goes round its four nodes. */
  lemma WalkRow(p: Pool, m: Matrix, x: nat, j: nat)
    requires Static(p, m) && IsCell(m, x) && j < 4
    ensures IsCell(m, Peer(m, x, j)) && Peer(m, x, j) < |p.col| && p.Sized()
    ensures p.right[Peer(m, x, j)] == Peer(m, x, j + 1)
    ensures j > 0 ==> p.left[Peer(m, x, j)] == Peer(m, x, j - 1)
    ensures Peer(m, x, j + 1) == x <==> j == 3
    ensures j > 0 ==> (Peer(m, x, j - 1) == x <==> j == 1)
    ensures Peer(m, x, 0) == x && Peer(m, x, 4) == x && p.left[x] == Peer(m, x, 3)
    ensures m.Valid() && p.col[Peer(m, x, j)] == Header(m, Peer(m, x, j))
    ensures 1 <= Header(m, Peer(m, x, j)) <= m.columns
  {
    hide *;
    PeerNext(m, x, j);
    PeerNext(m, x, 0);
    if j < 3 { PeerNext(m, x, j + 1); }
    if j > 0 { PeerNext(m, x, j - 1); }
    CellLinks(p, m, x);
    CellLinks(p, m, Peer(m, x, j));
  }

  lemma CellLinks(p: Pool, m: Matrix, x: nat)
    requires Static(p, m) && IsCell(m, x)
    ensures m.Valid() && p.Sized() && x < |p.col| && p.col[x] == Header(m, x)
    ensures p.right[x] == Peer(m, x, 1) && p.left[x] == Peer(m, x, 3)
    ensures 1 <= Header(m, x) <= m.columns
  {
    HeaderInRange(m, x);
  }

  /** One unhooking step in the middle of `cover(c)`, and its undoing. */
  lemma HideStep(p: Pool, m: Matrix, v: seq<seq<nat>>, c: nat, t: nat)
    requires m.Valid() && Static(p, m) && Vertical(p, m, v) && 1 <= c <= m.columns && |v| == m.columns + 1
    requires Cells(m, v[c]) && Live(m, v, c) && t < 3 * |v[c]|
    ensures var q, x := HideRows(p, m, v[c], t), Visit(m, v[c], t);
      && q.Sized() && x < |q.col| && q.up[x] < |q.col| && q.down[x] < |q.col| && q.col[x] < |q.col|
      && q.up[x] != x && q.down[x] != x
      && var u := Unhook(q, x); u.Sized() && |u.col| == |q.col| && u.up[x] == q.up[x] && u.down[x] == q.down[x] && u.col[x] == q.col[x]
    ensures var q, x := HideRows(p, m, v[c], t), Visit(m, v[c], t);
      && HideRows(p, m, v[c], t + 1) == Unhook(q, x) && Rehook(Unhook(q, x), x) == q
      && x == Peer(m, v[c][t / 3], t % 3 + 1)
  {
    var q, w, x := HideRows(p, m, v[c], t), HideLists(v, m, v[c], t), Visit(m, v[c], t);
    HidingKeepsLists(p, m, v, c, t);
    LessOneMore(q, m, v, w, c, t);
    LinksOf(q, m, w, x);
  }

  lemma Midway(p: Pool, m: Matrix, v: seq<seq<nat>>, c: nat, t: nat)
    requires m.Valid() && Static(p, m) && Vertical(p, m, v) && 1 <= c <= m.columns && |v| == m.columns + 1
    requires Cells(m, v[c]) && Live(m, v, c) && t <= 3 * |v[c]|
    ensures var q, w := HideRows(p, m, v[c], t), HideLists(v, m, v[c], t);
      Static(q, m) && Vertical(q, m, w) && w[c] == v[c]
  {
    HidingKeepsLists(p, m, v, c, t);
  }

  lemma CellOf(m: Matrix, l: seq<nat>, i: nat)
    requires Cells(m, l) && i < |l|
    ensures IsCell(m, l[i])
  {
  }

  lemma InvStatic(p: Pool, m: Matrix, v: View)
    requires Inv(p, m, v)
    ensures m.Valid() && Static(p, m) && Vertical(p, m, v.lists) && |v.lists| == m.columns + 1
    ensures p.Sized() && |p.col| >= 1 + m.columns + 4 * |m.rows|
    ensures forall c :: c in v.heads ==> 1 <= c <= m.columns && c in m.primary && c !in v.covered
    ensures forall c :: c in m.primary && c !in v.covered ==> c in v.heads
  {
  }

  lemma CoverStarts(p: Pool, m: Matrix, v: View, c: nat)
    requires Inv(p, m, v) && 1 <= c <= m.columns && c !in v.covered
    ensures p.Sized() && c < |p.col| && p.left[c] < |p.col| && p.right[c] < |p.col|
    ensures |v.lists| == m.columns + 1 && Cells(m, v.lists[c])
    ensures var h := HideHeader(p, c);
      && Hiding(h, m, v.lists, c)
      && HideRows(h, m, v.lists[c], 0) == h
      && HideRows(h, m, v.lists[c], 3 * |v.lists[c]|) == Covered(p, m, v, c)
      && h.Sized() && |h.col| == |p.col| && h.left[c] < |p.col| && h.right[c] < |p.col|
      && ShowHeader(h, c) == p
  {
    HeaderLinks(p, m, v, c);
    CoverIsLive(p, m, v, c);
    HideHeaderKeeps(p, m, v, c);
  }

  /** The situation inside `cover(c)` and `uncover(c)`, with the header out of its ring. */
  ghost predicate Hiding(h: Pool, m: Matrix, v: seq<seq<nat>>, c: nat) {
    && m.Valid() && |v| == m.columns + 1 && 1 <= c <= m.columns && Cells(m, v[c]) && Live(m, v, c)
    && Static(h, m) && Vertical(h, m, v)
  }

  lemma HidingPool(h: Pool, m: Matrix, v: seq<seq<nat>>, c: nat, t: nat)
    requires Hiding(h, m, v, c) && t <= 3 * |v[c]|
    ensures Static(HideRows(h, m, v[c], t), m) && m.Valid() && Static(h, m) && Vertical(h, m, v)
    ensures Cells(m, v[c]) && Live(m, v, c)
    ensures 0 < t ==> IsCell(m, v[c][(t - 1) / 3])
    ensures t < 3 * |v[c]| ==> IsCell(m, v[c][t / 3])
  {
    Midway(h, m, v, c, t);
  }

  lemma HidingColumn(h: Pool, m: Matrix, v: seq<seq<nat>>, c: nat, t: nat, i: nat)
    requires Hiding(h, m, v, c) && t <= 3 * |v[c]| && i <= |v[c]|
    ensures var q, l := HideRows(h, m, v[c], t), v[c];
      && q.Sized() && At(c, l, i) < |q.col| && At(c, l, i + 1) < |q.col|
      && q.down[At(c, l, i)] == At(c, l, i + 1) && q.up[At(c, l, i + 1)] == At(c, l, i)
      && (At(c, l, i + 1) == c <==> i == |l|) && (At(c, l, i) == c <==> i == 0)
      && (i < |l| ==> At(c, l, i + 1) == l[i])
      && At(c, l, 0) == c && At(c, l, |l| + 1) == c
  {
    Midway(h, m, v, c, t);
    var q, w := HideRows(h, m, v[c], t), HideLists(v, m, v[c], t);
    WalkColumn(q, m, w, c, i);
    if i > 0 { WalkColumn(q, m, w, c, i - 1); }
  }

  lemma HeadsAt(p: Pool, m: Matrix, v: View, i: nat)
    requires Inv(p, m, v) && i <= |v.heads|
    ensures p.Sized() && At(0, v.heads, i) < |p.col| && p.right[At(0, v.heads, i)] == At(0, v.heads, i + 1)
    ensures At(0, v.heads, i + 1) == 0 <==> i == |v.heads|
    ensures At(0, v.heads, 0) == 0 && (0 < i ==> At(0, v.heads, i) == v.heads[i - 1] && v.heads[i - 1] in v.heads)
  {
    if i < |v.heads| { AtInjective(0, v.heads, i + 1, 0); }
  }

  lemma ByThree(i: nat, k: nat)
    requires k < 3
    ensures (3 * i + k) / 3 == i && (3 * i + k) % 3 == k
  {
  }

  // ---------------------------------------------------------- building the pool

  lemma Room(n: nat, k: nat)
    requires n <= k
    ensures 1 + 6 * n + 4 * (n * n) <= 1 + 6 * k + 4 * (k * k)
  {
    Product(n, k, n);
    Product(n, k, k);
    assert n * k == k * n;
  }

  lemma SquareFits(n: nat, a: nat, b: nat)
    requires a < n && b < n
    ensures a * n + b < n * n
  {
    Product(a + 1, n, n);
    assert (a + 1) * n == a * n + n;
  }

  lemma {:induction false} Product(a: nat, b: nat, n: nat)
    requires a <= b
    ensures a * n <= b * n
    decreases b - a
  {
    if a < b { Product(a + 1, b, n); }
  }

  lemma HeadersRoot(p: Pool, primary: nat, k: nat)
    requires HeadersMade(p, primary, k)
    ensures p.Sized() && 0 < |p.col| && k < |p.col| && p.left[0] < |p.col|
  {
    var l := UpTo(if k <= primary then k else primary);
    assert p.left[At(0, l, |l| + 1)] == At(0, l, |l|);
  }

  lemma AloneRoot(p: Pool, x: nat)
    requires p.Sized() && 0 < x < |p.col|
    ensures Alone(p, x, x).left[0] == p.left[0] && Alone(p, x, x).Sized()
  {
  }

  lemma BlankMatrix(l: Layout, n: nat)
    ensures OnBoard(n, []) && MatrixOf(l, n, []) == Blank(6 * n, 2 * n)
  {
    forall c: nat ensures c in PrimaryColumns(n) <==> c in UpTo(2 * n) {
      if 1 <= c <= 2 * n { assert UpTo(2 * n)[c - 1] == c; }
    }
    assert PrimaryColumns(n) == Blank(6 * n, 2 * n).primary;
  }

  /** Entering a square appends its row to the matrix. */
  lemma SquareRow(l: Layout, n: nat, squares: seq<(nat, nat)>, r: nat, c: nat)
    requires OnBoard(n, squares) && r < n && c < n
    ensures OnBoard(n, squares + [(r, c)]) && MatrixOf(l, n, squares).Valid()
    ensures GoodRow(MatrixOf(l, n, squares), SquareColumns(l, n, r, c))
    ensures MatrixOf(l, n, squares + [(r, c)]) == WithRow(MatrixOf(l, n, squares), SquareColumns(l, n, r, c))
    ensures SquareColumns(l, n, r, c)
         == [ColumnHeader(l, n, c), RowHeader(l, n, r), SumHeader(l, n, r + c), DiffHeader(l, n, n + r - c)]
  {
    SquareColumnsGood(l, n, r, c);
    MatrixValid(l, n, squares);
  }

  /** While the row is being hung, every pointer the next write follows is in range. */
  lemma HungBound(p: Pool, m: Matrix, v: View, cols: seq<nat>, k: nat)
    requires Inv(p, m, v) && m.Valid() && |cols| == 4 && GoodRow(m, cols) && k <= 4
    requires |p.col| >= NewBase(m) + 4
    ensures Hung(p, m, cols, 0) == p
    ensures var q := Hung(p, m, cols, k);
      && q.Sized() && |q.col| == |p.col|
      && (k < 4 ==> cols[k] < NewBase(m) && q.up[cols[k]] < |q.col| && Hung(p, m, cols, k + 1) == NewCell(q, cols[k], NewBase(m) + k))
  {
    HungSized(p, m, cols, k);
    if k < 4 { HungLast(p, m, v, cols, k); }
  }

  lemma HungSized(p: Pool, m: Matrix, cols: seq<nat>, k: nat)
    requires p.Sized() && |p.col| >= NewBase(m) + 4 && |cols| == 4 && k <= 4
    ensures Hung(p, m, cols, k).Sized() && |Hung(p, m, cols, k).col| == |p.col|
  {
    HungOutside(p, m, cols, k);
    hide Hung;
  }

  lemma HungLast(p: Pool, m: Matrix, v: View, cols: seq<nat>, k: nat)
    requires Inv(p, m, v) && m.Valid() && |cols| == 4 && GoodRow(m, cols) && k < 4
    requires |p.col| >= NewBase(m) + 4
    ensures var q := Hung(p, m, cols, k); cols[k] < NewBase(m) && cols[k] < |q.up| && q.up[cols[k]] < |q.col|
  {
    assert OldLists(m, v.lists);
    HungVertical(p, m, v.lists, cols, k);
    HungSized(p, m, cols, k);
    var q, n, w := Hung(p, m, cols, k), WithRow(m, cols), Lists(m, v.lists, cols, k);
    hide Hung, Lists;
    assert Column(q, n, cols[k], w[cols[k]]);
    LastOf(q, n, cols[k], w[cols[k]]);
  }

  lemma JoinedBound(p: Pool, m: Matrix, cols: seq<nat>, k: nat)
    requires p.Sized() && |cols| == 4 && |p.col| >= NewBase(m) + 4 && 1 <= k < 4
    ensures var h := Hung(p, m, cols, 4);
      && Joined(h, m, 1) == h && Joined(h, m, k).Sized() && |Joined(h, m, k).col| == |p.col|
      && Joined(h, m, k).left[NewBase(m)] < |p.col|
      && Joined(h, m, k + 1) == PutLeft(Joined(h, m, k), NewBase(m), NewBase(m) + k)
      && RowBuilt(p, m, cols) == Joined(h, m, 4)
  {
    hide *;
    HungOutside(p, m, cols, 4);
    OutsideParts(p, Hung(p, m, cols, 4), m, cols);
    JoinedRing(Hung(p, m, cols, 4), m, 1);
    JoinedRing(Hung(p, m, cols, 4), m, k);
    RingHead(Joined(Hung(p, m, cols, 4), m, k), NewBase(m), Others(m, k - 1));
    JoinedNext(Hung(p, m, cols, 4), m, k + 1);
    RowBuiltIs(p, m, cols);
  }

  lemma RingHead(q: Pool, b: nat, l: seq<nat>)
    requires q.Sized() && Ring(q.right, q.left, b, l)
    ensures b < |q.col| && q.left[b] < |q.col|
  {
    assert q.left[At(b, l, |l| + 1)] == At(b, l, |l|);
  }

  lemma RowBuiltIs(p: Pool, m: Matrix, cols: seq<nat>)
    requires |cols| == 4
    ensures RowBuilt(p, m, cols) == Joined(Hung(p, m, cols, 4), m, 4)
    ensures Joined(Hung(p, m, cols, 4), m, 1) == Hung(p, m, cols, 4)
  {
  }

  /** The squares entered so far: whole lines below `line`, and the first `done`
    * of that line; a line is a row, or a column when swapped. */
  ghost predicate SquaresBelow(n: nat, squares: seq<(nat, nat)>, line: nat, done: nat, swapped: bool) {
    && OnBoard(n, squares)
    && (forall i, j :: 0 <= i < j < |squares| ==> squares[i] != squares[j])
    && (forall r: nat, c: nat :: (r, c) in squares <==>
          r < n && c < n && var (a, b) := if swapped then (c, r) else (r, c); a < line || (a == line && b < done))
  }

  lemma NoSquares(n: nat, swapped: bool)
    ensures SquaresBelow(n, [], 0, 0, swapped)
  {
  }

  lemma RowRoom(n: nat, k: nat)
    requires k < n * n
    ensures 1 + 6 * n + 4 * k + 4 <= 1 + 6 * n + 4 * (n * n)
  {
  }

  lemma NextSquare(n: nat, squares: seq<(nat, nat)>, line: nat, done: nat, swapped: bool)
    requires SquaresBelow(n, squares, line, done, swapped) && line < n && done < n
    ensures SquaresBelow(n, squares + [if swapped then (done, line) else (line, done)], line, done + 1, swapped)
  {
    var q := squares + [if swapped then (done, line) else (line, done)];
    forall r: nat, c: nat ensures (r, c) in q <==> (r, c) in squares || (r, c) == q[|squares|] {}
  }

  lemma NextLine(n: nat, squares: seq<(nat, nat)>, line: nat, swapped: bool)
    requires SquaresBelow(n, squares, line, n, swapped) && line < n
    ensures SquaresBelow(n, squares, line + 1, 0, swapped)
    ensures line * n + n == (line + 1) * n
  {
  }

  lemma SquaresDone(n: nat, squares: seq<(nat, nat)>, swapped: bool)
    requires SquaresBelow(n, squares, n, 0, swapped)
    ensures AllSquares(n, squares)
  {
  }

  // ------------------------------------------------------- a step of the search

  datatype State = State(pool: Pool, view: View)

  ghost predicate Good(s: State, m: Matrix) {
    Inv(s.pool, m, s.view)
  }

  ghost function CoverState(s: State, m: Matrix, c: nat): State {
    if Good(s, m) && 1 <= c <= m.columns
    then State(Covered(s.pool, m, s.view, c), CoveredView(s.pool, m, s.view, c))
    else s
  }

  ghost function HeaderAt(m: Matrix, x: nat, j: nat): nat {
    if m.Valid() && IsCell(m, x) && IsCell(m, Peer(m, x, j)) then Header(m, Peer(m, x, j)) else 0
  }

  /** The state after the first k other columns of x's row have been covered too. */
  ghost function RowState(s: State, m: Matrix, x: nat, k: nat): State {
    if k == 0 then s else CoverState(RowState(s, m, x, k - 1), m, HeaderAt(m, x, k))
  }

  /** Row node x of the column just covered, in a row that hits nothing covered earlier. */
  ghost predicate Chosen(m: Matrix, before: set<nat>, after: set<nat>, x: nat) {
    && m.Valid() && IsCell(m, x) && RowOf(m, x) < |m.rows|
    && m.ColumnsOf(RowOf(m, x)) !! before && after == before + {Header(m, x)}
  }

  lemma HeadersApart(m: Matrix, x: nat, j: nat, k: nat)
    requires m.Valid() && IsCell(m, x) && j < k < 4
    ensures HeaderAt(m, x, j) != HeaderAt(m, x, k)
    ensures 1 <= HeaderAt(m, x, j) <= m.columns && 1 <= HeaderAt(m, x, k) <= m.columns
    ensures RowOf(m, x) < |m.rows|
    ensures HeaderAt(m, x, j) in m.ColumnsOf(RowOf(m, x)) && HeaderAt(m, x, k) in m.ColumnsOf(RowOf(m, x))
    ensures HeaderAt(m, x, 0) == Header(m, x)
  {
    PeerRow(m, x, j);
    PeerRow(m, x, k);
    PeerNext(m, x, 0);
    HeaderInRange(m, Peer(m, x, j));
    HeaderInRange(m, Peer(m, x, k));
    if HeaderAt(m, x, j) == HeaderAt(m, x, k) {
      OneNodePerColumn(m, Peer(m, x, j), Peer(m, x, k));
    }
  }

  ghost function FirstHeads(m: Matrix, x: nat, k: nat): set<nat> {
    if k == 0 then {} else FirstHeads(m, x, k - 1) + {HeaderAt(m, x, k)}
  }

  lemma {:induction false} RowStateGood(s: State, m: Matrix, before: set<nat>, x: nat, k: nat)
    requires Good(s, m) && Chosen(m, before, s.view.covered, x) && k <= 3
    ensures Good(RowState(s, m, x, k), m)
    ensures RowState(s, m, x, k).view.covered == s.view.covered + FirstHeads(m, x, k)
    ensures k < 3 ==> 1 <= HeaderAt(m, x, k + 1) <= m.columns
    ensures k < 3 ==> HeaderAt(m, x, k + 1) !in RowState(s, m, x, k).view.covered
  {
    hide *;
    if k == 0 {
      RowStateFirst(s, m, x);
    } else {
      RowStateGood(s, m, before, x, k - 1);
      RowStateNext(s, m, x, k);
      CoverStateGood(RowState(s, m, x, k - 1), m, HeaderAt(m, x, k));
    }
    if k < 3 { NextHeadFresh(m, before, s.view.covered, x, k); }
  }

  lemma RowStateFirst(s: State, m: Matrix, x: nat)
    ensures RowState(s, m, x, 0) == s && FirstHeads(m, x, 0) == {}
  {
  }

  lemma RowStateNext(s: State, m: Matrix, x: nat, k: nat)
    requires k > 0
    ensures RowState(s, m, x, k) == CoverState(RowState(s, m, x, k - 1), m, HeaderAt(m, x, k))
    ensures FirstHeads(m, x, k) == FirstHeads(m, x, k - 1) + {HeaderAt(m, x, k)}
  {
  }

  lemma CoverStateGood(u: State, m: Matrix, c: nat)
    requires Good(u, m) && 1 <= c <= m.columns && c !in u.view.covered
    ensures Good(CoverState(u, m, c), m) && CoverState(u, m, c).view.covered == u.view.covered + {c}
    ensures Inv(u.pool, m, u.view) && CoverState(u, m, c).pool == Covered(u.pool, m, u.view, c)
  {
    CoverKeepsInv(u.pool, m, u.view, c);
  }

  lemma NextHeadFresh(m: Matrix, before: set<nat>, after: set<nat>, x: nat, k: nat)
    requires Chosen(m, before, after, x) && k < 3
    ensures 1 <= HeaderAt(m, x, k + 1) <= m.columns && HeaderAt(m, x, k + 1) !in after + FirstHeads(m, x, k)
  {
    HeadersApart(m, x, 0, k + 1);
    if k >= 1 { HeadersApart(m, x, 1, k + 1); }
    if k >= 2 { HeadersApart(m, x, 2, k + 1); }
    hide HeaderAt;
    assert FirstHeads(m, x, 1) == {HeaderAt(m, x, 1)};
    assert FirstHeads(m, x, 2) == {HeaderAt(m, x, 1), HeaderAt(m, x, 2)};
  }

  lemma GoodInv(s: State, m: Matrix)
    ensures Good(s, m) <==> Inv(s.pool, m, s.view)
  {
  }

  lemma RowFullyCovered(m: Matrix, before: set<nat>, after: set<nat>, x: nat)
    requires Chosen(m, before, after, x)
    ensures after + FirstHeads(m, x, 3) == before + m.ColumnsOf(RowOf(m, x))
  {
    hide *;
    ChosenParts(m, before, after, x);
    RowHeads(m, x);
    Regroup(before, {HeaderAt(m, x, 0)}, FirstHeads(m, x, 3), m.ColumnsOf(RowOf(m, x)));
  }

  lemma Regroup(before: set<nat>, h: set<nat>, f: set<nat>, cols: set<nat>)
    requires f + h == cols
    ensures before + h + f == before + cols
  {
  }

  lemma RowHeads(m: Matrix, x: nat)
    requires m.Valid() && IsCell(m, x)
    ensures FirstHeads(m, x, 3) + {HeaderAt(m, x, 0)} == m.ColumnsOf(RowOf(m, x))
  {
    hide *;
    PlaceBelowFour(m, x);
    HeaderAtIs(m, x, 0);
    HeaderAtIs(m, x, 1);
    HeaderAtIs(m, x, 2);
    HeaderAtIs(m, x, 3);
    FourColumns(m, RowOf(m, x));
    RowStateNextHeads(m, x);
    Rotate(m.rows[RowOf(m, x)], Place(m, x));
  }

  lemma PlaceBelowFour(m: Matrix, x: nat)
    requires IsCell(m, x)
    ensures Place(m, x) < 4 && RowOf(m, x) < |m.rows|
  {
  }

  lemma ChosenParts(m: Matrix, before: set<nat>, after: set<nat>, x: nat)
    requires Chosen(m, before, after, x)
    ensures m.Valid() && IsCell(m, x) && RowOf(m, x) < |m.rows| && Place(m, x) < 4
    ensures after == before + {HeaderAt(m, x, 0)}
  {
    HeadersApart(m, x, 0, 1);
  }

  lemma Rotate(s: seq<nat>, a: nat)
    requires |s| == 4 && a < 4
    ensures {s[(a + 1) % 4], s[(a + 2) % 4], s[(a + 3) % 4]} + {s[(a + 0) % 4]} == {s[0], s[1], s[2], s[3]}
  {
    if a == 0 {
    } else if a == 1 {
    } else if a == 2 {
    } else {
    }
  }

  lemma HeaderAtIs(m: Matrix, x: nat, j: nat)
    requires m.Valid() && IsCell(m, x) && j < 4
    ensures RowOf(m, x) < |m.rows| && |m.rows[RowOf(m, x)]| == 4
    ensures HeaderAt(m, x, j) == m.rows[RowOf(m, x)][(Place(m, x) + j) % 4]
  {
    PeerRow(m, x, j);
  }

  lemma RowStateNextHeads(m: Matrix, x: nat)
    ensures FirstHeads(m, x, 3) == {HeaderAt(m, x, 1), HeaderAt(m, x, 2), HeaderAt(m, x, 3)}
  {
    hide HeaderAt;
    assert FirstHeads(m, x, 1) == {HeaderAt(m, x, 1)};
    assert FirstHeads(m, x, 2) == {HeaderAt(m, x, 1), HeaderAt(m, x, 2)};
  }

  lemma FourColumns(m: Matrix, r: nat)
    requires m.Valid() && r < |m.rows|
    ensures |m.rows[r]| == 4 && m.ColumnsOf(r) == {m.rows[r][0], m.rows[r][1], m.rows[r][2], m.rows[r][3]}
  {
  }

  ghost function RowIds(m: Matrix, l: seq<nat>): seq<nat> {
    seq(|l|, i requires 0 <= i < |l| => if IsCell(m, l[i]) then RowOf(m, l[i]) else 0)
  }

  ghost predicate EveryRowHasPrimary(m: Matrix) {
    forall r :: 0 <= r < |m.rows| ==> m.ColumnsOf(r) * m.primary != {}
  }

  /** After covering an uncovered primary column its list is the list of rows to try. */
  lemma AfterCover(p: Pool, m: Matrix, v: View, c: nat)
    requires Inv(p, m, v) && c in v.heads
    ensures m.Valid() && 1 <= c <= m.columns && c in m.primary && c !in v.covered
    ensures var s := CoverState(State(p, v), m, c);
      && Good(s, m) && s.pool == Covered(p, m, v, c) && s.view.covered == v.covered + {c}
      && |v.lists| == |s.view.lists| == m.columns + 1 && s.view.lists[c] == v.lists[c]
      && Vertical(s.pool, m, s.view.lists)
    ensures RowsOfColumn(m, v.covered, c, RowIds(m, v.lists[c]))
    ensures forall i :: 0 <= i < |v.lists[c]| ==> Chosen(m, v.covered, v.covered + {c}, v.lists[c][i])
  {
    CoverKeepsInv(p, m, v, c);
    InvCells(p, m, v, c);
    ColumnRows(p, m, v, c);
  }

  lemma ColumnRows(p: Pool, m: Matrix, v: View, c: nat)
    requires Vertical(p, m, v.lists) && ListsLive(m, v) && 1 <= c <= m.columns && c !in v.covered
    ensures RowsOfColumn(m, v.covered, c, RowIds(m, v.lists[c]))
    ensures forall i :: 0 <= i < |v.lists[c]| ==> Chosen(m, v.covered, v.covered + {c}, v.lists[c][i])
  {
    var l := v.lists[c];
    var ids := RowIds(m, l);
    assert Column(p, m, c, l);
    forall i | 0 <= i < |l|
      ensures Chosen(m, v.covered, v.covered + {c}, l[i]) && c in m.ColumnsOf(ids[i])
    {
      assert l[i] in l;
      HeaderInRange(m, l[i]);
    }
    forall i, j | 0 <= i < j < |l| ensures ids[i] != ids[j] {
      assert l[i] in l && l[j] in l;
      if ids[i] == ids[j] { OneNodePerColumn(m, l[i], l[j]); }
    }
    forall r: nat | r < |m.rows| && c in m.ColumnsOf(r) && m.ColumnsOf(r) !! v.covered ensures r in ids {
      var k :| 0 <= k < 4 && m.rows[r][k] == c;
      CellRow(m, r, k);
      var x := Cell(m, r, k);
      assert x in l;
      var i :| 0 <= i < |l| && l[i] == x;
      assert ids[i] == r;
    }
  }

  lemma PrimaryShrinks(m: Matrix, before: set<nat>, after: set<nat>, c: nat)
    requires c in m.primary && c !in before && before <= after && c in after
    ensures |m.primary - after| < |m.primary - before|
  {
    assert m.primary - after <= m.primary - before - {c};
    SubsetCard(m.primary - after, m.primary - before - {c});
  }

  lemma {:induction false} SubsetCard(a: set<nat>, b: set<nat>)
    requires a <= b
    ensures |a| <= |b|
  {
    if a != {} {
      var x :| x in a;
      SubsetCard(a - {x}, b - {x});
    }
  }

  ghost function PeerAt(m: Matrix, x: nat, j: nat): nat {
    if IsCell(m, x) then Peer(m, x, j) else 0
  }

  /** Walking round the chosen row while its columns are covered or uncovered. */
  lemma RowWalk(s: State, m: Matrix, before: set<nat>, x: nat, k: nat)
    requires Good(s, m) && Chosen(m, before, s.view.covered, x) && k <= 3
    ensures var t := RowState(s, m, x, k);
      && Inv(t.pool, m, t.view) && (k == 0 ==> t == s)
      && RowLinks(t.pool, m, x)
      && (PeerAt(m, x, k + 1) == x <==> k == 3) && (PeerAt(m, x, k) == x <==> k == 0)
    ensures k < 3 ==>
      var t, u, c := RowState(s, m, x, k), RowState(s, m, x, k + 1), HeaderAt(m, x, k + 1);
      && 1 <= c <= m.columns && c !in t.view.covered && u.pool == Covered(t.pool, m, t.view, c)
  {
    hide *;
    RowStateGood(s, m, before, x, k);
    RowStateFirst(s, m, x);
    GoodInv(RowState(s, m, x, k), m);
    LinksOfRow(RowState(s, m, x, k), m, before, s.view.covered, x);
    if k < 3 {
      RowStateNext(s, m, x, k + 1);
      CoverStateGood(RowState(s, m, x, k), m, HeaderAt(m, x, k + 1));
    }
  }

  /** The four nodes of x's row, left and right, and the columns they point to. */
  ghost predicate RowLinks(p: Pool, m: Matrix, x: nat) {
    && p.Sized() && PeerAt(m, x, 0) == x && PeerAt(m, x, 4) == x
    && forall k :: 0 <= k < 4 ==>
        && PeerAt(m, x, k) < |p.col|
        && p.right[PeerAt(m, x, k)] == PeerAt(m, x, k + 1)
        && p.left[PeerAt(m, x, k)] == PeerAt(m, x, if k == 0 then 3 else k - 1)
        && (0 < k ==> p.col[PeerAt(m, x, k)] == HeaderAt(m, x, k))
  }

  lemma LinksOfRow(t: State, m: Matrix, before: set<nat>, after: set<nat>, x: nat)
    requires Good(t, m) && Chosen(m, before, after, x)
    ensures RowLinks(t.pool, m, x)
    ensures forall k :: 0 < k < 4 ==> PeerAt(m, x, k) != x
    ensures PeerAt(m, x, 0) == x && PeerAt(m, x, 4) == x
  {
    InvStatic(t.pool, m, t.view);
    assert IsCell(m, x);
    hide Inv, Static, IsCell, Peer, Header;
    forall k | 0 <= k < 4
      ensures PeerAt(m, x, k) < |t.pool.col|
      ensures t.pool.right[PeerAt(m, x, k)] == PeerAt(m, x, k + 1)
      ensures t.pool.left[PeerAt(m, x, k)] == PeerAt(m, x, if k == 0 then 3 else k - 1)
      ensures 0 < k ==> t.pool.col[PeerAt(m, x, k)] == HeaderAt(m, x, k)
      ensures 0 < k ==> PeerAt(m, x, k) != x
    {
      WalkRow(t.pool, m, x, k);
      if k > 0 { WalkRow(t.pool, m, x, k - 1); }
    }
    WalkRow(t.pool, m, x, 0);
  }

  lemma RowLink(p: Pool, m: Matrix, x: nat, k: nat)
    requires RowLinks(p, m, x) && k < 4
    ensures p.Sized() && PeerAt(m, x, 0) == x && PeerAt(m, x, 4) == x && x < |p.col|
    ensures PeerAt(m, x, k) < |p.col| && p.right[PeerAt(m, x, k)] == PeerAt(m, x, k + 1)
    ensures p.left[PeerAt(m, x, k)] == PeerAt(m, x, if k == 0 then 3 else k - 1)
    ensures 0 < k ==> p.col[PeerAt(m, x, k)] == HeaderAt(m, x, k)
  {
    assert PeerAt(m, x, 0) < |p.col|;
  }

  lemma AllCovered(p: Pool, m: Matrix, v: View)
    requires Inv(p, m, v) && v.heads == [] && EveryRowHasPrimary(m)
    ensures |Covers(m, v.covered)| == 1
  {
    forall c | c in m.primary ensures c in v.covered {
      assert c !in v.heads;
    }
    NothingLeft(m, v.covered);
  }

  lemma RowIdsLength(m: Matrix, l: seq<nat>)
    ensures |RowIds(m, l)| == |l|
  {
  }

  lemma SumNone(m: Matrix, covered: set<nat>, list: seq<nat>)
    ensures SumCovers(m, covered, list, 0) == 0
  {
  }

  lemma StateColumn(s: State, m: Matrix, c: nat, i: nat)
    requires Good(s, m) && 1 <= c <= m.columns && |s.view.lists| == m.columns + 1 && i <= |s.view.lists[c]|
    ensures var p, l := s.pool, s.view.lists[c];
      && p.Sized() && At(c, l, i) < |p.col| && At(c, l, i + 1) < |p.col|
      && p.down[At(c, l, i)] == At(c, l, i + 1)
      && (At(c, l, i + 1) == c <==> i == |l|) && (i < |l| ==> At(c, l, i + 1) == l[i])
      && At(c, l, 0) == c
  {
    WalkColumn(s.pool, m, s.view.lists, c, i);
  }

  /** The recursive call works on a good state in which exactly the chosen row's columns are newly covered. */
  lemma BelowRow(p: Pool, s: State, m: Matrix, v: View, c: nat, i: nat)
    requires Inv(p, m, v) && c in v.heads && s == CoverState(State(p, v), m, c)
    requires 1 <= c <= m.columns && |v.lists| == m.columns + 1 && i < |v.lists[c]|
    ensures var t := RowState(s, m, v.lists[c][i], 3);
      && Inv(t.pool, m, t.view)
      && i < |RowIds(m, v.lists[c])| && t.view.covered == v.covered + m.ColumnsOf(RowIds(m, v.lists[c])[i])
      && |m.primary - t.view.covered| < |m.primary - v.covered|
  {
    AfterCover(p, m, v, c);
    var x := v.lists[c][i];
    RowStateGood(s, m, v.covered, x, 3);
    RowFullyCovered(m, v.covered, s.view.covered, x);
    PrimaryShrinks(m, v.covered, RowState(s, m, x, 3).view.covered, c);
  }

  class Solver {
    var nodes: array<Node>
    var count: nat
    var cur: nat
    ghost var squares: seq<(nat, nat)>
    ghost var view: View

    ghost function Links(): (p: Pool)
      reads `nodes, nodes
      ensures p.Sized() && |p.col| == nodes.Length
      ensures forall i {:trigger nodes[i]} :: 0 <= i < nodes.Length ==>
                && p.left[i] == nodes[i].left && p.right[i] == nodes[i].right
                && p.up[i] == nodes[i].up && p.down[i] == nodes[i].down
                && p.col[i] == nodes[i].col && p.size[i] == nodes[i].size
    {
      PoolOf(nodes[..])
    }

    /** `Solver(int N)` of nqueens.h, with room for kMaxQueens. */
    constructor ByNameOrder(n: nat, kMaxQueens: nat)
      requires n <= kMaxQueens
      ensures Ready(ByName, n) && count == 0 && fresh(nodes)
    {
      nodes := new Node[1 + 6 * kMaxQueens + 4 * (kMaxQueens * kMaxQueens)](_ => Node(0, 0, 0, 0, 0, 0));
      count, cur := 0, 0;
      squares, view := [], View([], [], {});
      new;
      hide *;
      Room(n, kMaxQueens);
      MakeHeaders(ByName, n);
      NoSquares(n, false);
      var r: nat := 0;
      while r < n
        invariant r <= n && Building(ByName, n) && |squares| == r * n && SquaresBelow(n, squares, r, 0, false)
        invariant fresh(nodes) && count == 0
      {
        EnterRow(n, r);
        NextLine(n, squares, r, false);
        r := r + 1;
      }
      Finish(ByName, n, false);
    }

    /** `QueenSolver(int N)` of nqueens_dl.cc: alternating headers, columns outside rows. */
    constructor InterleavedOrder(n: nat, kMaxQueens: nat)
      requires n <= kMaxQueens
      ensures Ready(Interleaved, n) && count == 0 && fresh(nodes)
    {
      nodes := new Node[1 + 6 * kMaxQueens + 4 * (kMaxQueens * kMaxQueens)](_ => Node(0, 0, 0, 0, 0, 0));
      count, cur := 0, 0;
      squares, view := [], View([], [], {});
      new;
      hide *;
      Room(n, kMaxQueens);
      MakeHeaders(Interleaved, n);
      NoSquares(n, true);
      var c: nat := 0;
      while c < n
        invariant c <= n && Building(Interleaved, n) && |squares| == c * n && SquaresBelow(n, squares, c, 0, true)
        invariant fresh(nodes) && count == 0
      {
        EnterColumn(n, c);
        NextLine(n, squares, c, true);
        c := c + 1;
      }
      Finish(Interleaved, n, true);
    }

    /** The inner loop of nqueens.h's constructor. */
    method EnterRow(n: nat, r: nat)
      requires Building(ByName, n) && r < n && |squares| == r * n && SquaresBelow(n, squares, r, 0, false)
      modifies this, nodes
      ensures nodes == old(nodes) && count == old(count)
      ensures Building(ByName, n) && |squares| == r * n + n && SquaresBelow(n, squares, r, n, false)
    {
      hide *;
      var c: nat := 0;
      while c < n
        invariant c <= n && Building(ByName, n) && |squares| == r * n + c && SquaresBelow(n, squares, r, c, false)
        invariant nodes == old(nodes) && count == old(count)
      {
        SquareFits(n, r, c);
        NextSquare(n, squares, r, c, false);
        AddSquare(ByName, n, r, c);
        c := c + 1;
      }
    }

    /** The inner loop of nqueens_dl.cc's constructor. */
    method EnterColumn(n: nat, c: nat)
      requires Building(Interleaved, n) && c < n && |squares| == c * n && SquaresBelow(n, squares, c, 0, true)
      modifies this, nodes
      ensures nodes == old(nodes) && count == old(count)
      ensures Building(Interleaved, n) && |squares| == c * n + n && SquaresBelow(n, squares, c, n, true)
    {
      hide *;
      var r: nat := 0;
      while r < n
        invariant r <= n && Building(Interleaved, n) && |squares| == c * n + r && SquaresBelow(n, squares, c, r, true)
        invariant nodes == old(nodes) && count == old(count)
      {
        SquareFits(n, c, r);
        NextSquare(n, squares, c, r, true);
        AddSquare(Interleaved, n, r, c);
        r := r + 1;
      }
    }

    /** Part of the board has been entered into the pool. */
    ghost predicate Building(l: Layout, n: nat)
      reads this, nodes
    {
      && OnBoard(n, squares) && view.covered == {} && Inv(Links(), MatrixOf(l, n, squares), view)
      && cur == 1 + 6 * n + 4 * |squares| && nodes.Length >= 1 + 6 * n + 4 * (n * n)
    }

    /** The pool holds the whole board. */
    ghost predicate Ready(l: Layout, n: nat)
      reads this, nodes
    {
      && AllSquares(n, squares) && view.covered == {} && Inv(Links(), MatrixOf(l, n, squares), view)
    }

    // ---------------------------------------------------------- construction

    method NewCol() returns (c: nat)
      requires cur < nodes.Length
      modifies `cur, nodes
      ensures c == old(cur) && cur == c + 1
      ensures Links() == Alone(old(Links()), c, c)
    {
      c := cur;
      cur := cur + 1;
      nodes[c] := Node(c, c, c, c, c, 0);
    }

    method PutLeftOf(o: nat, x: nat)
      requires o < nodes.Length && x < nodes.Length && o != x && nodes[o].left < nodes.Length
      modifies nodes
      ensures Links() == PutLeft(old(Links()), o, x)
    {
      hide PoolOf;
      SetLeft(x, nodes[o].left);
      SetRight(x, o);
      SetRight(nodes[o].left, x);
      SetLeft(o, x);
    }

    method NewRow(c: nat) returns (x: nat)
      requires cur < nodes.Length && c < nodes.Length && c != cur && nodes[c].up < nodes.Length
      modifies `cur, nodes
      ensures x == old(cur) && cur == x + 1
      ensures Links() == NewCell(old(Links()), c, x)
    {
      x := cur;
      cur := cur + 1;
      NewNode(x, c);
      hide PoolOf;
      SetUp(x, nodes[c].up);
      SetDown(x, c);
      SetDown(nodes[c].up, x);
      SetUp(c, x);
      AddSize(c, 1);
    }

    method NewNode(x: nat, c: nat)
      requires x < nodes.Length
      modifies nodes
      ensures Links() == Alone(old(Links()), x, c)
    {
      nodes[x] := Node(x, x, x, x, c, 0);
    }

    /** The root, the 2n primary headers in its ring, and the 4n secondary ones. */
    method MakeHeaders(ghost l: Layout, n: nat)
      requires cur == 0 && nodes.Length >= 1 + 6 * n + 4 * (n * n)
      modifies this, nodes
      ensures nodes == old(nodes) && count == old(count)
      ensures Building(l, n) && squares == []
    {
      hide *;
      var root := NewCol();
      RootMade(old(Links()), 2 * n);
      while cur < 1 + 2 * n
        invariant 1 <= cur <= 1 + 2 * n && HeadersMade(Links(), 2 * n, cur - 1)
        invariant nodes == old(nodes) && count == old(count)
      {
        HeadersRoot(Links(), 2 * n, cur - 1);
        PrimaryMade(Links(), 2 * n, cur - 1);
        AloneRoot(Links(), cur);
        var c := NewCol();
        PutLeftOf(root, c);
      }
      while cur < 1 + 6 * n
        invariant 1 + 2 * n <= cur <= 1 + 6 * n && HeadersMade(Links(), 2 * n, cur - 1)
        invariant nodes == old(nodes) && count == old(count)
      {
        SecondaryMade(Links(), 2 * n, cur - 1);
        var c := NewCol();
      }
      HeadersDone(Links(), 2 * n, 6 * n);
      BlankMatrix(l, n);
      squares, view := [], BlankView(6 * n, 2 * n);
      StartBuilding(l, n);
    }

    lemma StartBuilding(l: Layout, n: nat)
      requires squares == [] && view == BlankView(6 * n, 2 * n) && cur == 1 + 6 * n
      requires nodes.Length >= 1 + 6 * n + 4 * (n * n)
      requires OnBoard(n, []) && Inv(Links(), MatrixOf(l, n, []), BlankView(6 * n, 2 * n))
      ensures Building(l, n)
    {
    }

    /** One square: its four nodes are hung under their columns and joined into a row. */
    method AddSquare(l: Layout, n: nat, r: nat, c: nat)
      requires Building(l, n) && r < n && c < n && |squares| < n * n
      modifies this, nodes
      ensures nodes == old(nodes) && count == old(count)
      ensures Building(l, n) && squares == old(squares) + [(r, c)]
    {
      hide *;
      Unfold(l, n);
      ghost var p, m, v := Links(), MatrixOf(l, n, squares), view;
      ghost var cols := SquareColumns(l, n, r, c);
      SquareRow(l, n, squares, r, c);
      RowRoom(n, |squares|);
      var n0 := HangNodes(ColumnHeader(l, n, c), RowHeader(l, n, r), SumHeader(l, n, r + c), DiffHeader(l, n, n + r - c), p, m, v, cols);
      JoinNodes(n0, p, m, cols);
      RowKeepsInv(p, m, v, cols);
      squares, view := squares + [(r, c)], RowView(m, v, cols);
      Refold(l, n, m, p, v, cols);
    }

    /** `n0 = new_row(..)` to `n3 = new_row(..)`: four consecutive nodes. */
    method HangNodes(c0: nat, c1: nat, c2: nat, c3: nat, ghost p: Pool, ghost m: Matrix, ghost v: View, ghost cols: seq<nat>)
      returns (n0: nat)
      requires Inv(p, m, v) && Links() == p && m.Valid() && cols == [c0, c1, c2, c3] && GoodRow(m, cols)
      requires cur == NewBase(m) && NewBase(m) + 4 <= nodes.Length
      modifies `cur, nodes
      ensures n0 == NewBase(m) && cur == NewBase(m) + 4 && Links() == Hung(p, m, cols, 4)
    {
      hide *;
      HungBound(p, m, v, cols, 0);
      n0 := NewRow(c0);
      HungBound(p, m, v, cols, 1);
      var n1 := NewRow(c1);
      HungBound(p, m, v, cols, 2);
      var n2 := NewRow(c2);
      HungBound(p, m, v, cols, 3);
      var n3 := NewRow(c3);
    }

    /** `put_left(n0, n1)` to `put_left(n0, n3)`. */
    method JoinNodes(n0: nat, ghost p: Pool, ghost m: Matrix, ghost cols: seq<nat>)
      requires p.Sized() && |p.col| == nodes.Length && |cols| == 4 && NewBase(m) + 4 <= nodes.Length
      requires n0 == NewBase(m) && Links() == Hung(p, m, cols, 4)
      modifies nodes
      ensures Links() == RowBuilt(p, m, cols)
    {
      hide *;
      JoinedBound(p, m, cols, 1);
      PutLeftOf(n0, n0 + 1);
      JoinedBound(p, m, cols, 2);
      PutLeftOf(n0, n0 + 2);
      JoinedBound(p, m, cols, 3);
      PutLeftOf(n0, n0 + 3);
    }

    lemma Finish(l: Layout, n: nat, swapped: bool)
      requires Building(l, n) && SquaresBelow(n, squares, n, 0, swapped)
      ensures Ready(l, n)
    {
      SquaresDone(n, squares, swapped);
    }

    lemma Unfold(l: Layout, n: nat)
      requires Building(l, n)
      ensures OnBoard(n, squares) && view.covered == {} && Inv(Links(), MatrixOf(l, n, squares), view)
      ensures cur == NewBase(MatrixOf(l, n, squares)) == 1 + 6 * n + 4 * |squares|
      ensures nodes.Length >= 1 + 6 * n + 4 * (n * n)
    {
    }

    lemma Refold(l: Layout, n: nat, m: Matrix, p: Pool, v: View, cols: seq<nat>)
      requires OnBoard(n, squares) && cur == 1 + 6 * n + 4 * |squares| && nodes.Length >= 1 + 6 * n + 4 * (n * n)
      requires |cols| == 4 && m.Valid() && |v.lists| == m.columns + 1 && GoodRow(m, cols)
      requires MatrixOf(l, n, squares) == WithRow(m, cols) && view == RowView(m, v, cols) && v.covered == {}
      requires Links() == RowBuilt(p, m, cols) && Inv(RowBuilt(p, m, cols), WithRow(m, cols), RowView(m, v, cols))
      ensures Building(l, n)
    {
    }

    // The field writes of the source, one by one.

    method SetLeft(i: nat, v: nat)
      requires i < nodes.Length
      modifies nodes
      ensures Links() == old(Links()).(left := Put(old(Links()).left, i, v))
    {
      nodes[i] := nodes[i].(left := v);
    }

    method SetRight(i: nat, v: nat)
      requires i < nodes.Length
      modifies nodes
      ensures Links() == old(Links()).(right := Put(old(Links()).right, i, v))
    {
      nodes[i] := nodes[i].(right := v);
    }

    method SetUp(i: nat, v: nat)
      requires i < nodes.Length
      modifies nodes
      ensures Links() == old(Links()).(up := Put(old(Links()).up, i, v))
    {
      nodes[i] := nodes[i].(up := v);
    }

    method SetDown(i: nat, v: nat)
      requires i < nodes.Length
      modifies nodes
      ensures Links() == old(Links()).(down := Put(old(Links()).down, i, v))
    {
      nodes[i] := nodes[i].(down := v);
    }

    method AddSize(i: nat, k: int)
      requires i < nodes.Length
      modifies nodes
      ensures Links() == old(Links()).(size := Add(old(Links()).size, i, k))
    {
      nodes[i] := nodes[i].(size := nodes[i].size + k);
    }

    method Hook(j: nat)
      requires j < nodes.Length && nodes[j].down < nodes.Length && nodes[j].up < nodes.Length && nodes[j].col < nodes.Length
      requires nodes[j].up != j && nodes[j].down != j
      modifies nodes
      ensures Links() == Rehook(old(Links()), j)
    {
      hide PoolOf;
      AddSize(nodes[j].col, 1);
      SetUp(nodes[j].down, j);
      SetDown(nodes[j].up, j);
    }

    method UnhookNode(j: nat)
      requires j < nodes.Length && nodes[j].down < nodes.Length && nodes[j].up < nodes.Length && nodes[j].col < nodes.Length
      requires nodes[j].up != j && nodes[j].down != j
      modifies nodes
      ensures Links() == Unhook(old(Links()), j)
    {
      hide PoolOf;
      SetUp(nodes[j].down, nodes[j].up);
      SetDown(nodes[j].up, nodes[j].down);
      AddSize(nodes[j].col, -1);
    }

    method UnlinkHeader(c: nat)
      requires c < nodes.Length && nodes[c].left < nodes.Length && nodes[c].right < nodes.Length
      modifies nodes
      ensures Links() == HideHeader(old(Links()), c)
    {
      hide PoolOf;
      SetLeft(nodes[c].right, nodes[c].left);
      SetRight(nodes[c].left, nodes[c].right);
    }

    method RelinkHeader(c: nat)
      requires c < nodes.Length && nodes[c].left < nodes.Length && nodes[c].right < nodes.Length
      modifies nodes
      ensures Links() == ShowHeader(old(Links()), c)
    {
      hide PoolOf;
      SetLeft(nodes[c].right, c);
      SetRight(nodes[c].left, c);
    }

    /** Unhook the k-th other node of the i-th row of c. */
    method HideNode(j: nat, ghost row: nat, ghost h: Pool, ghost m: Matrix, ghost v: seq<seq<nat>>, ghost c: nat,
                    ghost i: nat, ghost k: nat)
      requires m.Valid() && |v| == m.columns + 1 && 1 <= c <= m.columns && i < |v[c]| && Cells(m, v[c])
      requires Hiding(h, m, v, c) && row == v[c][i] && IsCell(m, row) && 1 <= k <= 3 && j == Peer(m, row, k)
      requires Links() == HideRows(h, m, v[c], 3 * i + (k - 1))
      modifies nodes
      ensures Links() == HideRows(h, m, v[c], 3 * i + k)
    {
      hide *;
      HidingPool(h, m, v, c, 3 * i + (k - 1));
      ByThree(i, k - 1);
      HideStep(h, m, v, c, 3 * i + (k - 1));
      UnhookNode(j);
    }

    /** Hook the k-th other node of the i-th row of c back in. */
    method ShowNode(j: nat, ghost row: nat, ghost h: Pool, ghost m: Matrix, ghost v: seq<seq<nat>>, ghost c: nat,
                    ghost i: nat, ghost k: nat)
      requires m.Valid() && |v| == m.columns + 1 && 1 <= c <= m.columns && i < |v[c]| && Cells(m, v[c])
      requires Hiding(h, m, v, c) && row == v[c][i] && IsCell(m, row) && 1 <= k <= 3 && j == Peer(m, row, k)
      requires Links() == HideRows(h, m, v[c], 3 * i + k)
      modifies nodes
      ensures Links() == HideRows(h, m, v[c], 3 * i + (k - 1))
    {
      hide *;
      HidingPool(h, m, v, c, 3 * i + (k - 1));
      ByThree(i, k - 1);
      HideStep(h, m, v, c, 3 * i + (k - 1));
      Hook(j);
    }

    /** The inner loop of `cover`: unhook the other nodes of the i-th row of c. */
    method HideRow(row: nat, ghost h: Pool, ghost m: Matrix, ghost v: seq<seq<nat>>, ghost c: nat, ghost i: nat)
      requires m.Valid() && |v| == m.columns + 1 && 1 <= c <= m.columns && i < |v[c]| && Cells(m, v[c])
      requires Hiding(h, m, v, c) && row == v[c][i] && Links() == HideRows(h, m, v[c], 3 * i)
      modifies nodes
      ensures Links() == HideRows(h, m, v[c], 3 * (i + 1))
    {
      hide *;
      ghost var l := v[c];
      CellOf(m, l, i);
      HidingPool(h, m, v, c, 3 * i);
      WalkRow(Links(), m, row, 0);
      var j := nodes[row].right;
      ghost var k: nat := 1;
      while j != row
        invariant 1 <= k <= 4 && j == Peer(m, row, k) && Links() == HideRows(h, m, l, 3 * i + (k - 1))
        invariant j == row <==> k == 4
        decreases 4 - k
      {
        HideNode(j, row, h, m, v, c, i, k);
        HidingPool(h, m, v, c, 3 * i + k);
        WalkRow(Links(), m, row, k);
        j := nodes[j].right;
        k := k + 1;
      }
    }

    /** Hides column c and every row in its list. */
    method Cover(c: nat, ghost m: Matrix, ghost v: View)
      requires Inv(Links(), m, v) && 1 <= c <= m.columns && c !in v.covered
      modifies nodes
      ensures Inv(old(Links()), m, v) && Links() == Covered(old(Links()), m, v, c)
    {
      hide *;
      ghost var p := Links();
      ghost var h := HideHeader(p, c);
      CoverStarts(p, m, v, c);
      ghost var l := v.lists[c];
      UnlinkHeader(c);
      ghost var i: nat := 0;
      HidingColumn(h, m, v.lists, c, 0, 0);
      var row := nodes[c].down;
      while row != c
        invariant i <= |l| && row == At(c, l, i + 1) && Links() == HideRows(h, m, l, 3 * i)
        invariant row == c <==> i == |l|
        decreases |l| - i
      {
        HidingColumn(h, m, v.lists, c, 3 * i, i);
        HideRow(row, h, m, v.lists, c, i);
        HidingColumn(h, m, v.lists, c, 3 * (i + 1), i + 1);
        row := nodes[row].down;
        i := i + 1;
      }
    }

    /** The inner loop of `uncover`: hook the other nodes of the i-th row of c back in. */
    method ShowRow(row: nat, ghost h: Pool, ghost m: Matrix, ghost v: seq<seq<nat>>, ghost c: nat, ghost i: nat)
      requires m.Valid() && |v| == m.columns + 1 && 1 <= c <= m.columns && i < |v[c]| && Cells(m, v[c])
      requires Hiding(h, m, v, c) && row == v[c][i] && Links() == HideRows(h, m, v[c], 3 * (i + 1))
      modifies nodes
      ensures Links() == HideRows(h, m, v[c], 3 * i)
    {
      hide *;
      ghost var l := v[c];
      CellOf(m, l, i);
      HidingPool(h, m, v, c, 3 * (i + 1));
      WalkRow(Links(), m, row, 3);
      WalkRow(Links(), m, row, 0);
      var j := nodes[row].left;
      ghost var k: nat := 3;
      while j != row
        invariant 0 <= k <= 3 && j == Peer(m, row, k) && Links() == HideRows(h, m, l, 3 * i + k)
        invariant j == row <==> k == 0
        decreases k
      {
        ShowNode(j, row, h, m, v, c, i, k);
        HidingPool(h, m, v, c, 3 * i + (k - 1));
        WalkRow(Links(), m, row, k);
        j := nodes[j].left;
        k := k - 1;
      }
    }

    /** Undoes `cover(c)` exactly: every link and size is what it was. */
    method Uncover(c: nat, ghost p: Pool, ghost m: Matrix, ghost v: View)
      requires Inv(p, m, v) && 1 <= c <= m.columns && c !in v.covered
      requires Links() == Covered(p, m, v, c)
      modifies nodes
      ensures Links() == p
    {
      hide *;
      ghost var h := HideHeader(p, c);
      CoverStarts(p, m, v, c);
      ghost var l := v.lists[c];
      ghost var i: nat := |l|;
      HidingColumn(h, m, v.lists, c, 3 * i, i);
      var row := nodes[c].up;
      while row != c
        invariant i <= |l| && row == At(c, l, i) && Links() == HideRows(h, m, l, 3 * i)
        invariant row == c <==> i == 0
        decreases i
      {
        HidingColumn(h, m, v.lists, c, 3 * i, i - 1);
        ShowRow(row, h, m, v.lists, c, i - 1);
        HidingColumn(h, m, v.lists, c, 3 * (i - 1), i - 1);
        row := nodes[row].up;
        i := i - 1;
      }
      RelinkHeader(c);
    }

    /** A listed header whose column is a shortest one, or has at most one row left. */
    method GetMinColumn(ghost m: Matrix, ghost v: View) returns (best: nat)
      requires Inv(Links(), m, v) && |v.heads| > 0
      ensures best in v.heads && best < nodes.Length
      ensures nodes[best].size <= 1 || forall d :: d in v.heads ==> d < nodes.Length && nodes[best].size <= nodes[d].size
    {
      hide *;
      HeadsAt(Links(), m, v, 0);
      best := nodes[0].right;
      HeadsAt(Links(), m, v, 1);
      var min_sz := nodes[best].size;
      if min_sz > 1 {
        ghost var i: nat := 2;
        var c := nodes[best].right;
        while c != 0
          invariant 2 <= i <= |v.heads| + 1 && c == At(0, v.heads, i) && (c == 0 <==> i == |v.heads| + 1)
          invariant best in v.heads && best < nodes.Length && nodes[best].size == min_sz && min_sz > 1
          invariant forall d :: 0 <= d < i - 1 ==> v.heads[d] < nodes.Length && min_sz <= nodes[v.heads[d]].size
          decreases |v.heads| - i
        {
          HeadsAt(Links(), m, v, i);
          if nodes[c].size < min_sz {
            best := c;
            min_sz := nodes[c].size;
            if min_sz <= 1 {
              break;
            }
          }
          c := nodes[c].right;
          i := i + 1;
        }
      }
    }

    /** `for (j = row->right; j != row; j = j->right) cover(j->col)`. */
    method CoverOthers(row: nat, ghost m: Matrix, ghost before: set<nat>, ghost s: State)
      requires Good(s, m) && Chosen(m, before, s.view.covered, row) && Links() == s.pool
      modifies nodes
      ensures Links() == RowState(s, m, row, 3).pool
    {
      hide *;
      RowWalk(s, m, before, row, 0);
      RowLink(Links(), m, row, 0);
      var j := nodes[row].right;
      ghost var k: nat := 1;
      while j != row
        invariant 1 <= k <= 4 && j == PeerAt(m, row, k) && Links() == RowState(s, m, row, k - 1).pool
        invariant j == row <==> k == 4
        decreases 4 - k
      {
        RowWalk(s, m, before, row, k - 1);
        RowLink(Links(), m, row, k);
        Cover(nodes[j].col, m, RowState(s, m, row, k - 1).view);
        RowWalk(s, m, before, row, k);
        RowLink(Links(), m, row, k);
        j := nodes[j].right;
        k := k + 1;
      }
    }

    /** `for (j = row->left; j != row; j = j->left) uncover(j->col)`. */
    method UncoverOthers(row: nat, ghost m: Matrix, ghost before: set<nat>, ghost s: State)
      requires Good(s, m) && Chosen(m, before, s.view.covered, row) && Links() == RowState(s, m, row, 3).pool
      modifies nodes
      ensures Links() == s.pool
    {
      hide *;
      RowWalk(s, m, before, row, 3);
      RowLink(Links(), m, row, 0);
      var j := nodes[row].left;
      ghost var k: nat := 3;
      while j != row
        invariant 0 <= k <= 3 && j == PeerAt(m, row, k) && Links() == RowState(s, m, row, k).pool
        invariant j == row <==> k == 0
        decreases k
      {
        RowWalk(s, m, before, row, k);
        RowLink(Links(), m, row, k);
        RowWalk(s, m, before, row, k - 1);
        ghost var t := RowState(s, m, row, k - 1);
        Uncover(nodes[j].col, t.pool, m, t.view);
        RowLink(Links(), m, row, k);
        j := nodes[j].left;
        k := k - 1;
      }
      RowWalk(s, m, before, row, 0);
    }

    /** Adds the number of exact covers that remain, and restores every link and size. */
    method SolveImpl(ghost m: Matrix, ghost v: View)
      requires Inv(Links(), m, v) && EveryRowHasPrimary(m)
      modifies `count, nodes
      ensures Links() == old(Links())
      ensures count == old(count) + |Covers(m, v.covered)|
      decreases |m.primary - v.covered|
    {
      hide *;
      ghost var p := Links();
      HeadsAt(p, m, v, 0);
      if nodes[0].right == 0 {
        AllCovered(p, m, v);
        count := count + 1;
        return;
      }
      var col := GetMinColumn(m, v);
      AfterCover(p, m, v, col);
      ghost var s := CoverState(State(p, v), m, col);
      Cover(col, m, v);
      ghost var l := v.lists[col];
      ghost var rows := RowIds(m, l);
      RowIdsLength(m, l);
      ghost var i: nat := 0;
      StateColumn(s, m, col, 0);
      SumNone(m, v.covered, rows);
      var row := nodes[col].down;
      while row != col
        invariant i <= |l| && row == At(col, l, i + 1) && Links() == s.pool
        invariant row == col <==> i == |l|
        invariant count == old(count) + SumCovers(m, v.covered, rows, i)
        decreases |l| - i
      {
        StateColumn(s, m, col, i);
        CoverOthers(row, m, v.covered, s);
        BelowRow(p, s, m, v, col, i);
        SolveImpl(m, RowState(s, m, row, 3).view);
        UncoverOthers(row, m, v.covered, s);
        SumStep(m, v.covered, rows, i + 1);
        StateColumn(s, m, col, i + 1);
        row := nodes[row].down;
        i := i + 1;
      }
      BranchOnColumn(m, v.covered, col, rows);
      Uncover(col, p, m, v);
    }

    method CountQueens(ghost l: Layout, n: nat) returns (solutions: nat)
      requires Ready(l, n)
      modifies `count, nodes
      ensures Ready(l, n) && Links() == old(Links())
      ensures solutions == Queens.NQueens(n)
    {
      ghost var m := MatrixOf(l, n, squares);
      MatrixValid(l, n, squares);
      CoversAreQueens(l, n, squares);
      hide *;
      solutions := Solve(m, view);
      assert Ready(l, n) by { StillReady(l, n); }
    }

    lemma StillReady(l: Layout, n: nat)
      requires AllSquares(n, squares) && view.covered == {} && OnBoard(n, squares)
      requires Inv(Links(), MatrixOf(l, n, squares), view)
      ensures Ready(l, n)
    {
    }

    /** `solve`: the number of exact covers of the matrix the pool holds. */
    method Solve(ghost m: Matrix, ghost v: View) returns (solutions: nat)
      requires Inv(Links(), m, v) && EveryRowHasPrimary(m) && v.covered == {}
      modifies `count, nodes
      ensures Links() == old(Links())
      ensures solutions == |Covers(m, {})|
    {
      count := 0;
      SolveImpl(m, v);
      solutions := count;
    }
  }

  /** `solve_dancing_links`: the queens count, whatever column is picked at each
    * level, with the pool left as the constructor built it. */
  method SolveDancingLinks(n: nat, kMaxQueens: nat) returns (solutions: nat)
    requires n <= kMaxQueens
    ensures solutions == Queens.NQueens(n)
  {
    var solver := new Solver.ByNameOrder(n, kMaxQueens);
    solutions := solver.CountQueens(ByName, n);
  }

  /** The program of nqueens_dl.cc. */
  method SolveInterleaved(n: nat, kMaxQueens: nat) returns (solutions: nat)
    requires n <= kMaxQueens
    ensures solutions == Queens.NQueens(n)
  {
    var solver := new Solver.InterleavedOrder(n, kMaxQueens);
    solutions := solver.CountQueens(Interleaved, n);
  }
}
