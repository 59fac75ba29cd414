/** The node pool of the dancing-links solver as a value: the link fields of all
  * nodes, the writes that cover and uncover make to them, and what those writes
  * do to the lists threaded through the pool. Node 0 is the root, nodes
  * 1..columns are the column headers, and the four nodes of row r follow at
  * 1 + columns + 4 * r. */
module NodePool {
  import opened Rings
  import opened ExactCover

  datatype Pool = Pool(left: seq<nat>, right: seq<nat>, up: seq<nat>, down: seq<nat>, col: seq<nat>, size: seq<int>) {
    ghost predicate Sized() {
      |left| == |right| == |up| == |down| == |col| == |size|
    }
  }

  function Get(s: seq<nat>, i: nat): nat {
    if i < |s| then s[i] else 0
  }

  function Put(s: seq<nat>, i: nat, v: nat): (t: seq<nat>)
    ensures |t| == |s|
  {
    if i < |s| then s[i := v] else s
  }

  function Add(s: seq<int>, i: nat, k: int): (t: seq<int>)
    ensures |t| == |s|
  {
    if i < |s| then s[i := s[i] + k] else s
  }

  // ------------------------------------------------------------ single writes

  /** The three writes `cover` makes for node x. */
  function Unhook(p: Pool, x: nat): Pool {
    var q := p.(up := Put(p.up, Get(p.down, x), Get(p.up, x)));
    var r := q.(down := Put(q.down, Get(q.up, x), Get(q.down, x)));
    r.(size := Add(r.size, Get(r.col, x), -1))
  }

  /** The three writes `uncover` makes for node x. */
  function Rehook(p: Pool, x: nat): Pool {
    var q := p.(size := Add(p.size, Get(p.col, x), 1));
    var r := q.(up := Put(q.up, Get(q.down, x), x));
    r.(down := Put(r.down, Get(r.up, x), x))
  }

  /** `c->right->left = c->left; c->left->right = c->right`. */
  function HideHeader(p: Pool, c: nat): Pool {
    var q := p.(left := Put(p.left, Get(p.right, c), Get(p.left, c)));
    q.(right := Put(q.right, Get(q.left, c), Get(q.right, c)))
  }

  /** `c->right->left = c; c->left->right = c`. */
  function ShowHeader(p: Pool, c: nat): Pool {
    var q := p.(left := Put(p.left, Get(p.right, c), c));
    q.(right := Put(q.right, Get(q.left, c), c))
  }

  lemma RehookUndoes(p: Pool, n: nat, x: nat)
    requires p.Sized() && n == |p.col| && x < n && p.down[x] < n && p.up[x] < n && p.col[x] < n
    requires p.up[p.down[x]] == x && p.down[p.up[x]] == x && p.down[x] != x && p.up[x] != x
    ensures Rehook(Unhook(p, x), x) == p
  {
    var u := Unhook(p, x);
    assert u.down[x] == p.down[x] && u.up[x] == p.up[x];
    var r := Rehook(u, x);
    assert r.up == p.up && r.down == p.down && r.size == p.size;
  }

  lemma ShowUndoes(p: Pool, n: nat, c: nat)
    requires p.Sized() && n == |p.col| && c < n && p.left[c] < n && p.right[c] < n
    requires p.left[p.right[c]] == c && p.right[p.left[c]] == c
    ensures ShowHeader(HideHeader(p, c), c) == p
  {
    var h := HideHeader(p, c);
    var s := ShowHeader(h, c);
    if p.right[c] == c {
      assert s.left == p.left && s.right == p.right;
    } else {
      assert p.left[c] != c;
      assert h.right[c] == p.right[c] && h.left[c] == p.left[c];
      assert s.left == p.left && s.right == p.right;
    }
  }

  // --------------------------------------------------------- rows and columns

  ghost predicate IsCell(m: Matrix, x: nat) {
    1 + m.columns <= x < 1 + m.columns + 4 * |m.rows|
  }

  ghost function Cell(m: Matrix, r: nat, k: nat): nat {
    1 + m.columns + 4 * r + k
  }

  ghost function RowOf(m: Matrix, x: nat): nat
    requires IsCell(m, x)
  {
    (x - 1 - m.columns) / 4
  }

  ghost function Place(m: Matrix, x: nat): nat
    requires IsCell(m, x)
  {
    (x - 1 - m.columns) % 4
  }

  /** The column header of a row node. */
  ghost function Header(m: Matrix, x: nat): nat
    requires m.Valid() && IsCell(m, x)
  {
    m.rows[RowOf(m, x)][Place(m, x)]
  }

  /** The node j places to the right of x in its row. */
  ghost function Peer(m: Matrix, x: nat, j: nat): nat
    requires IsCell(m, x)
  {
    Cell(m, RowOf(m, x), (Place(m, x) + j) % 4)
  }

  lemma PeerRow(m: Matrix, x: nat, j: nat)
    requires IsCell(m, x)
    ensures RowOf(m, x) < |m.rows| && Place(m, x) < 4
    ensures IsCell(m, Peer(m, x, j))
    ensures RowOf(m, Peer(m, x, j)) == RowOf(m, x)
    ensures Place(m, Peer(m, x, j)) == (Place(m, x) + j) % 4
    ensures x == Cell(m, RowOf(m, x), Place(m, x))
  {
  }

  lemma PeerNext(m: Matrix, x: nat, j: nat)
    requires IsCell(m, x) && j < 4
    ensures IsCell(m, Peer(m, x, j))
    ensures Peer(m, Peer(m, x, j), 1) == Peer(m, x, j + 1)
    ensures j > 0 ==> Peer(m, Peer(m, x, j), 3) == Peer(m, x, j - 1)
    ensures Peer(m, x, 0) == x && Peer(m, x, 4) == x
    ensures 0 < j ==> Peer(m, x, j) != x
  {
    PeerRow(m, x, j);
    var a := Place(m, x);
    Turn(a, j);
    hide RowOf, Place, IsCell;
  }

  /** Four steps make a full turn. */
  lemma Turn(a: nat, j: nat)
    requires a < 4 && j < 4
    ensures ((a + j) % 4 + 1) % 4 == (a + (j + 1)) % 4
    ensures j > 0 ==> ((a + j) % 4 + 3) % 4 == (a + (j - 1)) % 4
    ensures (a + 0) % 4 == a && (a + 4) % 4 == a
    ensures 0 < j ==> (a + j) % 4 != a
  {
  }

  lemma CellRow(m: Matrix, r: nat, k: nat)
    requires r < |m.rows| && k < 4
    ensures IsCell(m, Cell(m, r, k)) && RowOf(m, Cell(m, r, k)) == r && Place(m, Cell(m, r, k)) == k
  {
  }

  lemma HeaderInRange(m: Matrix, x: nat)
    requires m.Valid() && IsCell(m, x)
    ensures RowOf(m, x) < |m.rows| && 1 <= Header(m, x) <= m.columns
    ensures Header(m, x) in m.ColumnsOf(RowOf(m, x))
  {
    PeerRow(m, x, 0);
  }

  /** A row meets a column in at most one node. */
  lemma OneNodePerColumn(m: Matrix, x: nat, y: nat)
    requires m.Valid() && IsCell(m, x) && IsCell(m, y)
    requires RowOf(m, x) == RowOf(m, y) && Header(m, x) == Header(m, y)
    ensures x == y
  {
    PeerRow(m, x, 0);
    PeerRow(m, y, 0);
  }

  // ---------------------------------------------------------------- the lists

  /** Node x of column c's ring belongs to c alone. */
  ghost predicate Column(p: Pool, m: Matrix, c: nat, l: seq<nat>)
    requires m.Valid()
  {
    && Ring(p.down, p.up, c, l)
    && (forall x :: x in l ==> IsCell(m, x) && Header(m, x) == c)
    && c < |p.size| && p.size[c] == |l|
  }

  ghost predicate Vertical(p: Pool, m: Matrix, v: seq<seq<nat>>) {
    && m.Valid() && |v| == m.columns + 1
    && forall c :: 1 <= c <= m.columns ==> Column(p, m, c, v[c])
  }

  /** Row rings and column pointers, which never change after construction. */
  ghost predicate Static(p: Pool, m: Matrix) {
    && m.Valid()
    && p.Sized() && |p.col| >= 1 + m.columns + 4 * |m.rows|
    && (forall x: nat :: IsCell(m, x) ==> p.col[x] == Header(m, x))
    && (forall x: nat :: IsCell(m, x) ==> p.right[x] == Peer(m, x, 1))
    && (forall x: nat :: IsCell(m, x) ==> p.left[x] == Peer(m, x, 3))
  }

  ghost function Without(l: seq<nat>, x: nat): seq<nat> {
    if x in l then
      var k :| 0 <= k < |l| && l[k] == x;
      Drop(l, k)
    else l
  }

  lemma WithoutMembers(c: nat, l: seq<nat>, x: nat)
    requires Distinct(c, l)
    ensures forall y :: y in Without(l, x) <==> y in l && y != x
  {
    if x in l {
      var k :| 0 <= k < |l| && l[k] == x && Without(l, x) == Drop(l, k);
      DropDistinct(c, l, k);
    }
  }

  /** The lists after node x has been taken out of its column. */
  ghost function Removed(m: Matrix, v: seq<seq<nat>>, x: nat): seq<seq<nat>>
    requires m.Valid() && IsCell(m, x) && |v| == m.columns + 1
  {
    HeaderInRange(m, x);
    v[Header(m, x) := Without(v[Header(m, x)], x)]
  }

  lemma LinksOf(p: Pool, m: Matrix, v: seq<seq<nat>>, x: nat)
    requires Static(p, m) && Vertical(p, m, v) && IsCell(m, x) && |v| == m.columns + 1
    requires 1 <= Header(m, x) <= m.columns && x in v[Header(m, x)]
    ensures p.Sized()
    ensures var n, c := |p.up|, Header(m, x);
      && x < n && p.down[x] < n && p.up[x] < n && p.col[x] == c < n
      && p.up[p.down[x]] == x && p.down[p.up[x]] == x && p.down[x] != x && p.up[x] != x
      && (p.down[x] == c || p.down[x] in v[c]) && (p.up[x] == c || p.up[x] in v[c])
      && Rehook(Unhook(p, x), x) == p
  {
    var c := Header(m, x);
    assert Column(p, m, c, v[c]);
    var k :| 0 <= k < |v[c]| && v[c][k] == x;
    RingNeighbours(p.down, p.up, c, v[c], k);
    RehookUndoes(p, |p.up|, x);
  }

  /** Unhooking a linked node removes it from its own column and nothing else. */
  lemma UnhookVertical(p: Pool, m: Matrix, v: seq<seq<nat>>, x: nat)
    requires Static(p, m) && Vertical(p, m, v) && IsCell(m, x) && |v| == m.columns + 1
    requires 1 <= Header(m, x) <= m.columns && x in v[Header(m, x)]
    ensures Static(Unhook(p, x), m) && Vertical(Unhook(p, x), m, Removed(m, v, x))
  {
    var d := Header(m, x);
    LinksOf(p, m, v, x);
    var q, w := Unhook(p, x), Removed(m, v, x);
    assert q.down == p.down[p.up[x] := p.down[x]] && q.up == p.up[p.down[x] := p.up[x]];
    forall c | 1 <= c <= m.columns ensures Column(q, m, c, w[c]) {
      assert Column(p, m, c, v[c]);
      if c == d {
        var k :| 0 <= k < |v[d]| && v[d][k] == x && Without(v[d], x) == Drop(v[d], k);
        RingRemove(p.down, p.up, d, v[d], k);
        DropDistinct(d, v[d], k);
      } else {
        assert Column(p, m, d, v[d]);
        RingFrame(p.down, p.up, q.down, q.up, c, v[c]);
      }
    }
  }

  // ----------------------------------------------------- covering one column

  ghost predicate Cells(m: Matrix, l: seq<nat>) {
    forall i :: 0 <= i < |l| ==> IsCell(m, l[i])
  }

  /** The t-th node unhooked when the rows of list l are hidden: each row's three
    * other nodes, left to right. */
  ghost function Visit(m: Matrix, l: seq<nat>, t: nat): nat
    requires t < 3 * |l| && Cells(m, l)
  {
    Peer(m, l[t / 3], t % 3 + 1)
  }

  ghost function HideRows(p: Pool, m: Matrix, l: seq<nat>, t: nat): Pool
    requires Cells(m, l) && t <= 3 * |l|
  {
    if t == 0 then p else Unhook(HideRows(p, m, l, t - 1), Visit(m, l, t - 1))
  }

  ghost function HideLists(v: seq<seq<nat>>, m: Matrix, l: seq<nat>, t: nat): (w: seq<seq<nat>>)
    requires m.Valid() && |v| == m.columns + 1 && Cells(m, l) && t <= 3 * |l|
    ensures |w| == |v|
  {
    if t == 0 then v
    else
      PeerRow(m, l[(t - 1) / 3], (t - 1) % 3 + 1);
      Removed(m, HideLists(v, m, l, t - 1), Visit(m, l, t - 1))
  }

  /** Every node about to be unhooked is still linked into its column. */
  ghost predicate Live(m: Matrix, v: seq<seq<nat>>, c: nat)
    requires m.Valid() && |v| == m.columns + 1 && c < |v| && Cells(m, v[c])
  {
    forall t :: 0 <= t < 3 * |v[c]| ==>
      var x := Visit(m, v[c], t);
      IsCell(m, x) && Header(m, x) < |v| && Header(m, x) != c && x in v[Header(m, x)]
  }

  lemma VisitInjective(m: Matrix, c: nat, l: seq<nat>, s: nat, t: nat)
    requires m.Valid() && Cells(m, l) && Distinct(c, l)
    requires forall x :: x in l ==> IsCell(m, x) && Header(m, x) == c
    requires s < t < 3 * |l|
    ensures Visit(m, l, s) != Visit(m, l, t)
  {
    var a, b := l[s / 3], l[t / 3];
    assert a in l && b in l;
    PeerRow(m, a, s % 3 + 1);
    PeerRow(m, b, t % 3 + 1);
    if a != b && RowOf(m, a) == RowOf(m, b) {
      OneNodePerColumn(m, a, b);
    }
    if a == b {
      assert s / 3 == t / 3;
    }
  }

  /** After t nodes have been unhooked every list is what it was, less those nodes. */
  ghost predicate LessVisited(m: Matrix, v: seq<seq<nat>>, w: seq<seq<nat>>, l: seq<nat>, t: nat)
    requires Cells(m, l) && t <= 3 * |l|
  {
    && |w| == |v| == m.columns + 1
    && forall d, x :: 1 <= d <= m.columns ==>
         (x in w[d] <==> x in v[d] && forall s :: 0 <= s < t ==> Visit(m, l, s) != x)
  }

  lemma LessOneMore(p: Pool, m: Matrix, v: seq<seq<nat>>, w: seq<seq<nat>>, c: nat, t: nat)
    requires m.Valid() && |v| == m.columns + 1 && 1 <= c <= m.columns && Cells(m, v[c]) && Live(m, v, c)
    requires t < 3 * |v[c]| && LessVisited(m, v, w, v[c], t) && w[c] == v[c] && Vertical(p, m, w)
    ensures var x := Visit(m, v[c], t);
      && IsCell(m, x) && 1 <= Header(m, x) <= m.columns && x in w[Header(m, x)]
      && LessVisited(m, v, Removed(m, w, x), v[c], t + 1) && Removed(m, w, x)[c] == v[c]
  {
    var l := v[c];
    var x := Visit(m, l, t);
    NotYetVisited(p, m, v, w, c, t);
    hide *;
    forall d, y | 1 <= d <= m.columns ensures |Removed(m, w, x)| == |w| && (y in Removed(m, w, x)[d] <==> y in w[d] && y != x) {
      RemovedMembers(p, m, w, x, d, y);
    }
    VisitedOneMore(m, v, w, Removed(m, w, x), l, t);
    RemovedElsewhere(m, w, x, c);
  }

  /** The next node is still in its list, which is not c's. */
  lemma NotYetVisited(p: Pool, m: Matrix, v: seq<seq<nat>>, w: seq<seq<nat>>, c: nat, t: nat)
    requires m.Valid() && |v| == m.columns + 1 && 1 <= c <= m.columns && Cells(m, v[c]) && Live(m, v, c)
    requires t < 3 * |v[c]| && LessVisited(m, v, w, v[c], t) && w[c] == v[c] && Vertical(p, m, w)
    ensures var x := Visit(m, v[c], t);
      IsCell(m, x) && 1 <= Header(m, x) <= m.columns && Header(m, x) != c && |w| == m.columns + 1 && x in w[Header(m, x)]
  {
    var l := v[c];
    var x := Visit(m, l, t);
    assert IsCell(m, x) && Header(m, x) != c && x in v[Header(m, x)];
    assert Column(p, m, c, w[c]);
    forall s | 0 <= s < t ensures Visit(m, l, s) != x {
      VisitInjective(m, c, l, s, t);
    }
    HeaderInRange(m, x);
    hide Visit, Header, Ring;
  }

  lemma VisitedOneMore(m: Matrix, v: seq<seq<nat>>, w: seq<seq<nat>>, u: seq<seq<nat>>, l: seq<nat>, t: nat)
    requires Cells(m, l) && t < 3 * |l| && LessVisited(m, v, w, l, t) && |u| == |w|
    requires forall d, y :: 1 <= d <= m.columns && d < |w| ==> (y in u[d] <==> y in w[d] && y != Visit(m, l, t))
    ensures LessVisited(m, v, u, l, t + 1)
  {
    hide Visit;
  }

  lemma RemovedElsewhere(m: Matrix, w: seq<seq<nat>>, x: nat, c: nat)
    requires m.Valid() && IsCell(m, x) && |w| == m.columns + 1 && c < |w| && Header(m, x) != c
    ensures |Removed(m, w, x)| == |w| && Removed(m, w, x)[c] == w[c]
  {
    HeaderInRange(m, x);
  }

  /** Taking x out of its list takes it, and nothing else, out of all the lists. */
  lemma RemovedMembers(p: Pool, m: Matrix, w: seq<seq<nat>>, x: nat, d: nat, y: nat)
    requires Vertical(p, m, w) && IsCell(m, x) && 1 <= d <= m.columns
    ensures |Removed(m, w, x)| == |w| && (y in Removed(m, w, x)[d] <==> y in w[d] && y != x)
  {
    HeaderInRange(m, x);
    var h := Header(m, x);
    assert Column(p, m, h, w[h]) && Column(p, m, d, w[d]);
    WithoutMembers(h, w[h], x);
    hide Without, Header;
  }

  /** The state while the rows of column c are being hidden: every list is intact
    * but for the nodes already unhooked, and c's own list is untouched. */
  lemma {:induction false} HidingKeepsLists(p: Pool, m: Matrix, v: seq<seq<nat>>, c: nat, t: nat)
    requires m.Valid() && Static(p, m) && Vertical(p, m, v) && 1 <= c <= m.columns && |v| == m.columns + 1
    requires Cells(m, v[c]) && Live(m, v, c) && t <= 3 * |v[c]|
    ensures var q, w := HideRows(p, m, v[c], t), HideLists(v, m, v[c], t);
      && Static(q, m) && Vertical(q, m, w) && w[c] == v[c] && LessVisited(m, v, w, v[c], t)
  {
    hide Static, Vertical, LessVisited, Live, Cells, Visit, Removed, Unhook;
    if t == 0 {
      NoneVisited(m, v, v[c]);
    } else {
      HidingKeepsLists(p, m, v, c, t - 1);
      var q, w := HideRows(p, m, v[c], t - 1), HideLists(v, m, v[c], t - 1);
      LessOneMore(q, m, v, w, c, t - 1);
      UnhookVertical(q, m, w, Visit(m, v[c], t - 1));
    }
  }

  lemma NoneVisited(m: Matrix, v: seq<seq<nat>>, l: seq<nat>)
    requires Cells(m, l) && |v| == m.columns + 1
    ensures LessVisited(m, v, v, l, 0)
  {
  }

  // ------------------------------------------------------------- solver states

  /** What the pool represents: each column's list, the header list, and the
    * columns covered so far. */
  datatype View = View(lists: seq<seq<nat>>, heads: seq<nat>, covered: set<nat>)

  /** A row node is listed under an uncovered column exactly when its row hits
    * no covered column. */
  ghost predicate ListsLive(m: Matrix, v: View) {
    && m.Valid() && |v.lists| == m.columns + 1
    && forall c, x: nat :: 1 <= c <= m.columns && c !in v.covered ==>
         (x in v.lists[c] <==> IsCell(m, x) && Header(m, x) == c && m.ColumnsOf(RowOf(m, x)) !! v.covered)
  }

  /** The root's ring holds exactly the uncovered primary columns; a secondary
    * header is linked to itself. */
  ghost predicate HeadsListed(p: Pool, m: Matrix, v: View) {
    && Ring(p.right, p.left, 0, v.heads)
    && (forall x: nat :: x in v.heads <==> x in m.primary && x !in v.covered)
    && (forall c :: c in v.covered ==> 1 <= c <= m.columns)
    && (forall c :: 1 <= c <= m.columns && c !in m.primary ==> c < |p.left| && c < |p.right| && p.left[c] == p.right[c] == c)
  }

  ghost predicate Inv(p: Pool, m: Matrix, v: View) {
    && Static(p, m) && Vertical(p, m, v.lists) && HeadsListed(p, m, v) && ListsLive(m, v)
  }

  lemma InvCells(p: Pool, m: Matrix, v: View, c: nat)
    requires Inv(p, m, v) && 1 <= c <= m.columns
    ensures m.Valid() && |v.lists| == m.columns + 1 && Cells(m, v.lists[c])
  {
    assert Column(p, m, c, v.lists[c]);
  }

  /** The pool after `cover(c)`. */
  ghost function Covered(p: Pool, m: Matrix, v: View, c: nat): Pool
    requires Inv(p, m, v) && 1 <= c <= m.columns
  {
    InvCells(p, m, v, c);
    HideRows(HideHeader(p, c), m, v.lists[c], 3 * |v.lists[c]|)
  }

  ghost function CoveredView(p: Pool, m: Matrix, v: View, c: nat): View
    requires Inv(p, m, v) && 1 <= c <= m.columns
  {
    InvCells(p, m, v, c);
    View(HideLists(v.lists, m, v.lists[c], 3 * |v.lists[c]|), Without(v.heads, c), v.covered + {c})
  }

  lemma HeaderLinks(p: Pool, m: Matrix, v: View, c: nat)
    requires Inv(p, m, v) && 1 <= c <= m.columns && c !in v.covered
    ensures p.Sized() && c < |p.col| && p.left[c] < |p.col| && p.right[c] < |p.col|
    ensures p.left[p.right[c]] == c && p.right[p.left[c]] == c
    ensures !IsCell(m, p.left[c]) && !IsCell(m, p.right[c])
    ensures c in m.primary ==> p.left[c] != c
    ensures ShowHeader(HideHeader(p, c), c) == p
  {
    if c in m.primary {
      var k :| 0 <= k < |v.heads| && v.heads[k] == c;
      RingNeighbours(p.right, p.left, 0, v.heads, k);
      assert p.left[c] == 0 || p.left[c] in v.heads;
      assert p.right[c] == 0 || p.right[c] in v.heads;
    }
    ShowUndoes(p, |p.col|, c);
  }

  lemma HideHeaderKeeps(p: Pool, m: Matrix, v: View, c: nat)
    requires Inv(p, m, v) && 1 <= c <= m.columns && c !in v.covered
    ensures Static(HideHeader(p, c), m) && Vertical(HideHeader(p, c), m, v.lists)
  {
    HeaderLinks(p, m, v, c);
    var q := HideHeader(p, c);
    forall x: nat | IsCell(m, x) ensures q.left[x] == p.left[x] && q.right[x] == p.right[x] {}
    forall d | 1 <= d <= m.columns ensures Column(q, m, d, v.lists[d]) {
      assert Column(p, m, d, v.lists[d]);
    }
  }

  lemma HideHeaderRing(p: Pool, m: Matrix, v: View, c: nat)
    requires Inv(p, m, v) && 1 <= c <= m.columns && c !in v.covered
    ensures HeadsListed(HideHeader(p, c), m, View(v.lists, Without(v.heads, c), v.covered + {c}))
  {
    HeaderLinks(p, m, v, c);
    var q := HideHeader(p, c);
    var h := Without(v.heads, c);
    WithoutMembers(0, v.heads, c);
    if c in m.primary {
      var k :| 0 <= k < |v.heads| && v.heads[k] == c && h == Drop(v.heads, k);
      RingRemove(p.right, p.left, 0, v.heads, k);
      assert q.right == p.right[p.left[c] := p.right[c]] && q.left == p.left[p.right[c] := p.left[c]];
      forall d | 1 <= d <= m.columns && d !in m.primary ensures q.left[d] == q.right[d] == d {
        assert d != p.left[c] by {
          assert p.left[d] == p.right[d] == d;
          assert p.right[p.left[c]] == c;
        }
        assert d != p.right[c] by {
          assert p.left[p.right[c]] == c;
        }
      }
    } else {
      assert q.right == p.right && q.left == p.left && h == v.heads;
    }
  }

  lemma {:induction false} HideRowsFrame(p: Pool, m: Matrix, l: seq<nat>, t: nat)
    requires Cells(m, l) && t <= 3 * |l|
    ensures var q := HideRows(p, m, l, t); q.left == p.left && q.right == p.right && q.col == p.col
  {
    if t > 0 { HideRowsFrame(p, m, l, t - 1); }
  }

  /** All nodes to be unhooked belong to rows that are still live. */
  lemma CoverIsLive(p: Pool, m: Matrix, v: View, c: nat)
    requires Inv(p, m, v) && 1 <= c <= m.columns && c !in v.covered
    ensures m.Valid() && |v.lists| == m.columns + 1 && Cells(m, v.lists[c]) && Live(m, v.lists, c)
  {
    InvCells(p, m, v, c);
    var l := v.lists[c];
    forall t | 0 <= t < 3 * |l|
      ensures var x := Visit(m, l, t);
        IsCell(m, x) && Header(m, x) < |v.lists| && Header(m, x) != c && x in v.lists[Header(m, x)]
    {
      var a := l[t / 3];
      var x := Visit(m, l, t);
      assert a in l;
      PeerRow(m, a, t % 3 + 1);
      PeerNext(m, a, t % 3 + 1);
      HeaderInRange(m, x);
      if Header(m, x) == c { OneNodePerColumn(m, a, x); }
      assert m.ColumnsOf(RowOf(m, x)) !! v.covered;
    }
  }

  /** A node is unhooked by `cover(c)` exactly when its row has another node in c's list. */
  lemma VisitedIff(m: Matrix, v: View, c: nat, x: nat)
    requires ListsLive(m, v) && 1 <= c <= m.columns && c !in v.covered && Cells(m, v.lists[c])
    requires IsCell(m, x) && Header(m, x) != c && m.ColumnsOf(RowOf(m, x)) !! v.covered
    ensures (exists t :: 0 <= t < 3 * |v.lists[c]| && Visit(m, v.lists[c], t) == x) <==> c in m.ColumnsOf(RowOf(m, x))
  {
    var l := v.lists[c];
    var r := RowOf(m, x);
    PeerRow(m, x, 0);
    if t :| 0 <= t < 3 * |l| && Visit(m, l, t) == x {
      var a := l[t / 3];
      assert a in l;
      PeerRow(m, a, t % 3 + 1);
      HeaderInRange(m, a);
    }
    if c in m.ColumnsOf(r) {
      var k :| 0 <= k < 4 && m.rows[r][k] == c;
      var a := Cell(m, r, k);
      CellRow(m, r, k);
      assert a in l;
      var i :| 0 <= i < |l| && l[i] == a;
      VisitReaches(m, l, i, x);
    }
  }

  lemma VisitReaches(m: Matrix, l: seq<nat>, i: nat, x: nat)
    requires Cells(m, l) && i < |l| && IsCell(m, x) && RowOf(m, l[i]) == RowOf(m, x) && l[i] != x
    ensures exists t :: 0 <= t < 3 * |l| && Visit(m, l, t) == x
  {
    PeerRow(m, x, 0);
    PeerRow(m, l[i], 0);
    var j := (Place(m, x) + 4 - Place(m, l[i])) % 4;
    var t := 3 * i + (j - 1);
    assert j != 0 && (Place(m, l[i]) + j) % 4 == Place(m, x);
    assert t / 3 == i && t % 3 == j - 1;
    assert Visit(m, l, t) == x;
  }

  lemma CoverLists(p: Pool, m: Matrix, v: View, c: nat)
    requires Inv(p, m, v) && 1 <= c <= m.columns && c !in v.covered
    ensures ListsLive(m, CoveredView(p, m, v, c)) && CoveredView(p, m, v, c).lists[c] == v.lists[c]
  {
    CoverIsLive(p, m, v, c);
    HideHeaderKeeps(p, m, v, c);
    var l := v.lists[c];
    var w := CoveredView(p, m, v, c);
    HidingKeepsLists(HideHeader(p, c), m, v.lists, c, 3 * |l|);
    hide Static, Vertical, HeadsListed, HideLists, Visit;
    forall d, x: nat | 1 <= d <= m.columns && d !in w.covered
      ensures x in w.lists[d] <==> IsCell(m, x) && Header(m, x) == d && m.ColumnsOf(RowOf(m, x)) !! w.covered
    {
      if x in v.lists[d] { VisitedIff(m, v, c, x); }
    }
  }

  /** Covering a column moves the solver from one good state to another. */
  lemma CoverKeepsInv(p: Pool, m: Matrix, v: View, c: nat)
    requires Inv(p, m, v) && 1 <= c <= m.columns && c !in v.covered
    ensures Inv(Covered(p, m, v, c), m, CoveredView(p, m, v, c))
    ensures CoveredView(p, m, v, c).covered == v.covered + {c}
    ensures m.Valid() && CoveredView(p, m, v, c).lists[c] == v.lists[c]
  {
    CoverIsLive(p, m, v, c);
    var l, h, w := v.lists[c], HideHeader(p, c), CoveredView(p, m, v, c);
    var q := Covered(p, m, v, c);
    assert q == HideRows(h, m, l, 3 * |l|);
    assert w == View(HideLists(v.lists, m, l, 3 * |l|), Without(v.heads, c), v.covered + {c});
    hide *;
    HideHeaderKeeps(p, m, v, c);
    HideHeaderRing(p, m, v, c);
    HidingKeepsLists(h, m, v.lists, c, 3 * |l|);
    HideRowsFrame(h, m, l, 3 * |l|);
    CoverLists(p, m, v, c);
    HeadsFrame(h, q, m, View(v.lists, w.heads, w.covered), w);
    InvParts(q, m, w);
  }

  lemma HeadsFrame(p: Pool, q: Pool, m: Matrix, v: View, w: View)
    requires HeadsListed(p, m, v) && q.left == p.left && q.right == p.right
    requires v.heads == w.heads && v.covered == w.covered
    ensures HeadsListed(q, m, w)
  {
  }

  lemma InvParts(p: Pool, m: Matrix, v: View)
    requires Static(p, m) && Vertical(p, m, v.lists) && HeadsListed(p, m, v) && ListsLive(m, v)
    ensures Inv(p, m, v)
  {
  }
}
