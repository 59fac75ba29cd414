/** Building the node pool: headers first, then one four-node row at a time. */
module PoolBuilder {
  import opened Rings
  import opened ExactCover
  import opened NodePool

  // ------------------------------------------------------------- field writes

  /** A node linked to itself in both directions. */
  function Alone(p: Pool, x: nat, c: nat): Pool {
    Pool(Put(p.left, x, x), Put(p.right, x, x), Put(p.up, x, x), Put(p.down, x, x), Put(p.col, x, c),
         if x < |p.size| then p.size[x := 0] else p.size)
  }

  /** `put_left(old, nnew)`. */
  function PutLeft(p: Pool, o: nat, x: nat): Pool {
    var a := p.(left := Put(p.left, x, Get(p.left, o)));
    var b := a.(right := Put(a.right, x, o));
    var c := b.(right := Put(b.right, Get(b.left, o), x));
    c.(left := Put(c.left, o, x))
  }

  /** The vertical links `new_row` makes for node x at the bottom of column c. */
  function PutBottom(p: Pool, c: nat, x: nat): Pool {
    var a := p.(up := Put(p.up, x, Get(p.up, c)));
    var b := a.(down := Put(a.down, x, c));
    var d := b.(down := Put(b.down, Get(b.up, c), x));
    var e := d.(up := Put(d.up, c, x));
    e.(size := Add(e.size, c, 1))
  }

  function NewCell(p: Pool, c: nat, x: nat): Pool {
    PutBottom(Alone(p, x, c), c, x)
  }

  // ------------------------------------------------------------------ headers

  function UpTo(k: nat): seq<nat> {
    seq(k, i requires 0 <= i < k => i + 1)
  }

  /** Headers 1..k exist; the first `primary` of them hang in the root's ring. */
  ghost predicate HeadersMade(p: Pool, primary: nat, k: nat) {
    && p.Sized() && k < |p.col|
    && Ring(p.right, p.left, 0, UpTo(if k <= primary then k else primary))
    && (forall c :: 1 <= c <= k ==> p.down[c] == c && p.up[c] == c && p.size[c] == 0)
    && (forall c :: primary < c <= k ==> p.left[c] == c && p.right[c] == c)
  }

  lemma RootMade(p: Pool, primary: nat)
    requires p.Sized() && 0 < |p.col|
    ensures HeadersMade(Alone(p, 0, 0), primary, 0)
  {
    var q := Alone(p, 0, 0);
    assert At(0, UpTo(0), 0) == 0 && At(0, UpTo(0), 1) == 0;
  }

  lemma PrimaryMade(p: Pool, primary: nat, k: nat)
    requires HeadersMade(p, primary, k) && k < primary && k + 1 < |p.col|
    ensures HeadersMade(PutLeft(Alone(p, k + 1, k + 1), 0, k + 1), primary, k + 1)
  {
    var x := k + 1;
    var q := Alone(p, x, x);
    var l := UpTo(k);
    assert x !in l;
    RingFrame(p.right, p.left, q.right, q.left, 0, l);
    RingAppend(q.right, q.left, 0, l, x);
    assert UpTo(x) == l + [x];
    var r := PutLeft(q, 0, x);
    assert r.right == q.right[x := 0][q.left[0] := x] && r.left == q.left[x := q.left[0]][0 := x];
  }

  lemma SecondaryMade(p: Pool, primary: nat, k: nat)
    requires HeadersMade(p, primary, k) && primary <= k && k + 1 < |p.col|
    ensures HeadersMade(Alone(p, k + 1, k + 1), primary, k + 1)
  {
    var x := k + 1;
    var q := Alone(p, x, x);
    RingFrame(p.right, p.left, q.right, q.left, 0, UpTo(primary));
  }

  ghost function Blank(columns: nat, primary: nat): Matrix {
    Matrix(columns, set c | c in UpTo(primary), [])
  }

  ghost function BlankView(columns: nat, primary: nat): View {
    View(seq(columns + 1, _ => []), UpTo(primary), {})
  }

  lemma HeadersDone(p: Pool, primary: nat, columns: nat)
    requires HeadersMade(p, primary, columns) && primary <= columns
    ensures Inv(p, Blank(columns, primary), BlankView(columns, primary))
  {
    var m, v := Blank(columns, primary), BlankView(columns, primary);
    forall c | 1 <= c <= columns ensures Column(p, m, c, v.lists[c]) {
      assert At(c, [], 0) == c && At(c, [], 1) == c;
    }
    forall c: nat | 1 <= c <= primary ensures c in m.primary {
      assert UpTo(primary)[c - 1] == c;
    }
  }

  // ----------------------------------------------------------------- one row

  ghost function WithRow(m: Matrix, cols: seq<nat>): Matrix {
    m.(rows := m.rows + [cols])
  }

  ghost predicate GoodRow(m: Matrix, cols: seq<nat>) {
    && |cols| == 4 && (forall k :: 0 <= k < 4 ==> 1 <= cols[k] <= m.columns)
    && (forall k, l :: 0 <= k < l < 4 ==> cols[k] != cols[l])
  }

  lemma WithRowValid(m: Matrix, cols: seq<nat>)
    requires m.Valid() && GoodRow(m, cols)
    ensures WithRow(m, cols).Valid()
  {
  }

  lemma OldCell(m: Matrix, cols: seq<nat>, x: nat)
    requires m.Valid() && GoodRow(m, cols) && IsCell(m, x)
    ensures WithRow(m, cols).Valid() && IsCell(WithRow(m, cols), x)
    ensures Header(WithRow(m, cols), x) == Header(m, x)
    ensures forall j: nat :: Peer(WithRow(m, cols), x, j) == Peer(m, x, j)
  {
    PeerRow(m, x, 0);
  }

  lemma NewCellOf(m: Matrix, cols: seq<nat>, k: nat)
    requires m.Valid() && GoodRow(m, cols) && k < 4
    ensures var n, x := WithRow(m, cols), NewBase(m) + k;
      && n.Valid() && IsCell(n, x) && Header(n, x) == cols[k]
      && Peer(n, x, 1) == NewBase(m) + (k + 1) % 4
      && Peer(n, x, 3) == NewBase(m) + (k + 3) % 4
  {
    var n := WithRow(m, cols);
    CellRow(n, |m.rows|, k);
  }

  /** The first node of the row that is appended to m. */
  ghost function NewBase(m: Matrix): nat {
    1 + m.columns + 4 * |m.rows|
  }

  /** The lists after the first k nodes of the new row have been hung up. */
  ghost function Lists(m: Matrix, v: seq<seq<nat>>, cols: seq<nat>, k: nat): (w: seq<seq<nat>>)
    requires |v| == m.columns + 1 && GoodRow(m, cols) && k <= 4
    ensures |w| == |v|
  {
    if k == 0 then v
    else
      var w := Lists(m, v, cols, k - 1);
      w[cols[k - 1] := w[cols[k - 1]] + [NewBase(m) + (k - 1)]]
  }

  lemma {:induction false} ListsMembers(m: Matrix, v: seq<seq<nat>>, cols: seq<nat>, k: nat, d: nat, x: nat)
    requires |v| == m.columns + 1 && GoodRow(m, cols) && k <= 4 && 1 <= d <= m.columns
    ensures x in Lists(m, v, cols, k)[d] <==> x in v[d] || exists i :: 0 <= i < k && cols[i] == d && x == NewBase(m) + i
  {
    if k > 0 {
      ListsMembers(m, v, cols, k - 1, d, x);
      if cols[k - 1] == d && x == NewBase(m) + (k - 1) {
        var i := k - 1;
        assert 0 <= i < k && cols[i] == d && x == NewBase(m) + i;
      }
    }
  }

  lemma ExtendVertical(p: Pool, m: Matrix, v: seq<seq<nat>>, cols: seq<nat>)
    requires m.Valid() && Vertical(p, m, v) && GoodRow(m, cols)
    ensures Vertical(p, WithRow(m, cols), Lists(m, v, cols, 0))
  {
    var n := WithRow(m, cols);
    WithRowValid(m, cols);
    forall c | 1 <= c <= n.columns ensures Column(p, n, c, v[c]) {
      assert Column(p, m, c, v[c]);
      forall x | x in v[c] ensures IsCell(n, x) && Header(n, x) == c {
        OldCell(m, cols, x);
      }
    }
  }

  lemma HangCell(p: Pool, m: Matrix, v: seq<seq<nat>>, cols: seq<nat>, k: nat)
    requires m.Valid() && GoodRow(m, cols) && k < 4 && |v| == m.columns + 1
    requires p.Sized() && |p.col| >= NewBase(m) + 4
    requires OldLists(m, v) && Vertical(p, WithRow(m, cols), Lists(m, v, cols, k))
    ensures Vertical(NewCell(p, cols[k], NewBase(m) + k), WithRow(m, cols), Lists(m, v, cols, k + 1))
  {
    var n, x, c := WithRow(m, cols), NewBase(m) + k, cols[k];
    var w := Lists(m, v, cols, k);
    NewCellOf(m, cols, k);
    NotYet(m, v, cols, k);
    hide Lists, OldLists, NewBase, GoodRow;
    HangUnder(p, n, w, c, x);
    assert Lists(m, v, cols, k + 1) == w[c := w[c] + [x]] by { ListsNext(m, v, cols, k); }
  }

  lemma NotYet(m: Matrix, v: seq<seq<nat>>, cols: seq<nat>, k: nat)
    requires GoodRow(m, cols) && k < 4 && OldLists(m, v)
    ensures forall d :: 1 <= d <= m.columns ==> NewBase(m) + k !in Lists(m, v, cols, k)[d]
  {
    forall d | 1 <= d <= m.columns ensures NewBase(m) + k !in Lists(m, v, cols, k)[d] {
      var x := NewBase(m) + k;
      ListsMembers(m, v, cols, k, d, x);
      assert x in v[d] ==> IsCell(m, x);
    }
  }

  lemma ListsNext(m: Matrix, v: seq<seq<nat>>, cols: seq<nat>, k: nat)
    requires |v| == m.columns + 1 && GoodRow(m, cols) && k < 4
    ensures Lists(m, v, cols, k + 1) == Lists(m, v, cols, k)[cols[k] := Lists(m, v, cols, k)[cols[k]] + [NewBase(m) + k]]
  {
  }

  ghost predicate OldLists(m: Matrix, v: seq<seq<nat>>) {
    |v| == m.columns + 1 && forall c, x :: 1 <= c <= m.columns && x in v[c] ==> IsCell(m, x)
  }

  /** Appending a fresh node to one column's list leaves the other lists alone. */
  lemma HangUnder(p: Pool, n: Matrix, w: seq<seq<nat>>, c: nat, x: nat)
    requires n.Valid() && Vertical(p, n, w) && |w| == n.columns + 1 && 1 <= c <= n.columns
    requires IsCell(n, x) && Header(n, x) == c && p.Sized() && x < |p.col|
    requires forall d :: 1 <= d <= n.columns ==> x !in w[d]
    ensures Vertical(NewCell(p, c, x), n, w[c := w[c] + [x]])
  {
    var q := Alone(p, x, c);
    var r := PutBottom(q, c, x);
    var w' := w[c := w[c] + [x]];
    forall d | 1 <= d <= n.columns ensures Column(q, n, d, w[d]) {
      assert Column(p, n, d, w[d]);
      RingFrame(p.down, p.up, q.down, q.up, d, w[d]);
    }
    assert Column(q, n, c, w[c]);
    LastOf(q, n, c, w[c]);
    RingAppend(q.down, q.up, c, w[c], x);
    assert r.down == q.down[x := c][q.up[c] := x] && r.up == q.up[x := q.up[c]][c := x];
    forall d | 1 <= d <= n.columns ensures Column(r, n, d, w'[d]) {
      assert Column(q, n, d, w[d]);
      if d != c {
        RingFrame(q.down, q.up, r.down, r.up, d, w[d]);
      }
    }
  }

  lemma LastOf(q: Pool, n: Matrix, c: nat, l: seq<nat>)
    requires n.Valid() && Column(q, n, c, l)
    ensures c < |q.up| && (q.up[c] == c || q.up[c] in l)
  {
    assert q.up[At(c, l, |l| + 1)] == At(c, l, |l|);
  }

  // ------------------------------------------------- the four nodes joined up

  ghost function Hung(p: Pool, m: Matrix, cols: seq<nat>, k: nat): Pool
    requires |cols| == 4 && k <= 4
  {
    if k == 0 then p else NewCell(Hung(p, m, cols, k - 1), cols[k - 1], NewBase(m) + (k - 1))
  }

  ghost function Joined(p: Pool, m: Matrix, k: nat): Pool
    requires 1 <= k <= 4
  {
    if k == 1 then p else PutLeft(Joined(p, m, k - 1), NewBase(m), NewBase(m) + (k - 1))
  }

  /** The pool after one iteration of the constructor's double loop. */
  ghost function RowBuilt(p: Pool, m: Matrix, cols: seq<nat>): Pool
    requires |cols| == 4
  {
    Joined(Hung(p, m, cols, 4), m, 4)
  }

  ghost function RowView(m: Matrix, v: View, cols: seq<nat>): View
    requires |v.lists| == m.columns + 1 && GoodRow(m, cols)
  {
    v.(lists := Lists(m, v.lists, cols, 4))
  }

  /** Below the new row nothing but vertical links changes; the new nodes stand alone. */
  ghost predicate Outside(p: Pool, q: Pool, m: Matrix, cols: seq<nat>, k: nat)
    requires |cols| == 4 && k <= 4
  {
    && p.Sized() && q.Sized() && |p.col| == |q.col| >= NewBase(m) + 4
    && (forall x :: 0 <= x < |p.col| && !(NewBase(m) <= x < NewBase(m) + k) ==>
          q.left[x] == p.left[x] && q.right[x] == p.right[x] && q.col[x] == p.col[x])
    && (forall x :: NewBase(m) <= x < NewBase(m) + k ==> q.left[x] == x && q.right[x] == x && q.col[x] == cols[x - NewBase(m)])
  }

  lemma {:induction false} HungOutside(p: Pool, m: Matrix, cols: seq<nat>, k: nat)
    requires p.Sized() && |p.col| >= NewBase(m) + 4 && |cols| == 4 && k <= 4
    ensures Outside(p, Hung(p, m, cols, k), m, cols, k)
  {
    hide *;
    if k > 0 {
      HungOutside(p, m, cols, k - 1);
      HungNext(p, m, cols, k);
      OutsideNext(p, Hung(p, m, cols, k - 1), m, cols, k);
    } else {
      OutsideNone(p, m, cols);
    }
  }

  lemma OutsideNone(p: Pool, m: Matrix, cols: seq<nat>)
    requires p.Sized() && |p.col| >= NewBase(m) + 4 && |cols| == 4
    ensures Outside(p, Hung(p, m, cols, 0), m, cols, 0)
  {
  }

  /** Hanging one more node sets that node's own links and nobody else's sideways ones. */
  lemma OutsideNext(p: Pool, q: Pool, m: Matrix, cols: seq<nat>, k: nat)
    requires |cols| == 4 && 0 < k <= 4 && Outside(p, q, m, cols, k - 1)
    ensures Outside(p, NewCell(q, cols[k - 1], NewBase(m) + (k - 1)), m, cols, k)
  {
    hide NewBase;
  }

  lemma {:induction false} HungVertical(p: Pool, m: Matrix, v: seq<seq<nat>>, cols: seq<nat>, k: nat)
    requires m.Valid() && |v| == m.columns + 1 && |cols| == 4 && GoodRow(m, cols) && k <= 4 && OldLists(m, v)
    requires p.Sized() && |p.col| >= NewBase(m) + 4 && Vertical(p, m, v)
    ensures Vertical(Hung(p, m, cols, k), WithRow(m, cols), Lists(m, v, cols, k))
  {
    hide *;
    if k == 0 {
      HungNone(p, m, v, cols);
      ExtendVertical(p, m, v, cols);
    } else {
      HungVertical(p, m, v, cols, k - 1);
      HungOutside(p, m, cols, k - 1);
      OutsideSize(p, Hung(p, m, cols, k - 1), m, cols, k - 1);
      HangCell(Hung(p, m, cols, k - 1), m, v, cols, k - 1);
      HungNext(p, m, cols, k);
    }
  }

  lemma HungNone(p: Pool, m: Matrix, v: seq<seq<nat>>, cols: seq<nat>)
    requires GoodRow(m, cols)
    ensures |cols| == 4 && Hung(p, m, cols, 0) == p
  {
  }

  lemma HungNext(p: Pool, m: Matrix, cols: seq<nat>, k: nat)
    requires |cols| == 4 && 0 < k <= 4
    ensures Hung(p, m, cols, k) == NewCell(Hung(p, m, cols, k - 1), cols[k - 1], NewBase(m) + (k - 1))
  {
  }

  lemma OutsideSize(p: Pool, q: Pool, m: Matrix, cols: seq<nat>, k: nat)
    requires |cols| == 4 && k <= 4 && Outside(p, q, m, cols, k)
    ensures q.Sized() && |q.col| == |p.col| >= NewBase(m) + 4
  {
  }

  ghost function Others(m: Matrix, k: nat): (l: seq<nat>)
    ensures |l| == k && forall i :: 0 <= i < k ==> l[i] == NewBase(m) + 1 + i
  {
    if k == 0 then [] else Others(m, k - 1) + [NewBase(m) + k]
  }

  lemma {:induction false} JoinedRing(p: Pool, m: Matrix, k: nat)
    requires p.Sized() && |p.col| >= NewBase(m) + 4 && 1 <= k <= 4
    requires forall x :: NewBase(m) <= x < NewBase(m) + 4 ==> p.left[x] == x && p.right[x] == x
    ensures var q := Joined(p, m, k);
      && Ring(q.right, q.left, NewBase(m), Others(m, k - 1))
      && q.Sized() && |q.col| == |p.col| && q.up == p.up && q.down == p.down && q.col == p.col && q.size == p.size
      && (forall x :: 0 <= x < |p.col| && !(NewBase(m) <= x < NewBase(m) + k) ==> q.left[x] == p.left[x] && q.right[x] == p.right[x])
  {
    hide *;
    if k == 1 {
      JoinedFirst(p, m);
    } else {
      JoinedRing(p, m, k - 1);
      OneMore(m, k);
      RingPutLeft(Joined(p, m, k - 1), NewBase(m), Others(m, k - 2), NewBase(m) + (k - 1));
      JoinedNext(p, m, k);
    }
  }

  lemma JoinedFirst(p: Pool, m: Matrix)
    requires p.Sized() && |p.col| >= NewBase(m) + 4
    requires forall x :: NewBase(m) <= x < NewBase(m) + 4 ==> p.left[x] == x && p.right[x] == x
    ensures Joined(p, m, 1) == p && Ring(p.right, p.left, NewBase(m), Others(m, 0))
  {
    var b := NewBase(m);
    assert p.left[b] == b && p.right[b] == b;
    assert At(b, [], 0) == b && At(b, [], 1) == b;
  }

  lemma OneMore(m: Matrix, k: nat)
    requires 2 <= k <= 4
    ensures var b, l := NewBase(m), Others(m, k - 2);
      && Others(m, k - 1) == l + [b + (k - 1)] && b + (k - 1) !in l
      && forall y :: y in l ==> b < y < b + (k - 1)
  {
  }

  lemma JoinedNext(p: Pool, m: Matrix, k: nat)
    requires 2 <= k <= 4
    ensures Joined(p, m, k) == PutLeft(Joined(p, m, k - 1), NewBase(m), NewBase(m) + (k - 1))
  {
  }

  lemma RingPutLeft(q: Pool, b: nat, l: seq<nat>, x: nat)
    requires q.Sized() && Ring(q.right, q.left, b, l) && x < |q.col| && x != b && x !in l
    ensures var r := PutLeft(q, b, x);
      && Ring(r.right, r.left, b, l + [x])
      && r.Sized() && |r.col| == |q.col| && r.up == q.up && r.down == q.down && r.col == q.col && r.size == q.size
      && forall y :: 0 <= y < |q.col| && y != x && y != b && y !in l ==> r.left[y] == q.left[y] && r.right[y] == q.right[y]
  {
    assert q.left[At(b, l, |l| + 1)] == At(b, l, |l|);
    RingAppend(q.right, q.left, b, l, x);
    var r := PutLeft(q, b, x);
    assert r.right == q.right[x := b][q.left[b] := x] && r.left == q.left[x := q.left[b]][b := x];
    assert q.left[b] == b || q.left[b] in l;
  }

  lemma FourRing(q: Pool, m: Matrix, k: nat)
    requires Ring(q.right, q.left, NewBase(m), Others(m, 3)) && k < 4
    ensures var b := NewBase(m);
      b + 3 < |q.right| == |q.left| && q.right[b + k] == b + (k + 1) % 4 && q.left[b + k] == b + (k + 3) % 4
  {
    var b, l := NewBase(m), Others(m, 3);
    assert l[2] == b + 3 && l[1] == b + 2 && l[0] == b + 1;
    assert At(b, l, 0) == b && At(b, l, 1) == b + 1 && At(b, l, 2) == b + 2 && At(b, l, 3) == b + 3 && At(b, l, 4) == b;
    assert q.right[At(b, l, k)] == At(b, l, k + 1);
    assert q.left[At(b, l, if k == 0 then 4 else k)] == At(b, l, if k == 0 then 3 else k - 1);
  }

  /** One more row keeps the pool in good order. */
  lemma RowKeepsStatic(p: Pool, m: Matrix, cols: seq<nat>)
    requires Static(p, m) && |cols| == 4 && GoodRow(m, cols) && |p.col| >= NewBase(m) + 4
    ensures Static(RowBuilt(p, m, cols), WithRow(m, cols)) && RowBuilt(p, m, cols).Sized()
    ensures |RowBuilt(p, m, cols).col| == |p.col| && p.Sized()
    ensures var q := RowBuilt(p, m, cols);
      forall x :: 0 <= x < NewBase(m) ==> q.left[x] == p.left[x] && q.right[x] == p.right[x]
  {
    var n := WithRow(m, cols);
    var h := Hung(p, m, cols, 4);
    var q := Joined(h, m, 4);
    assert RowBuilt(p, m, cols) == q;
    hide *;
    HungOutside(p, m, cols, 4);
    OutsideParts(p, h, m, cols);
    JoinedRing(h, m, 4);
    OldSize(p, m);
    WithRowValid(m, cols);
    forall x: nat | IsCell(n, x) ensures CellGood(q, n, x) {
      if IsCell(m, x) {
        OldCellStatic(p, q, m, cols, x);
      } else {
        CellSplit(m, cols, x);
        NewCellStatic(q, m, cols, x);
      }
    }
    StaticCells(q, n);
  }

  ghost predicate CellGood(q: Pool, n: Matrix, x: nat) {
    && n.Valid() && IsCell(n, x) && q.Sized() && x < |q.col|
    && q.col[x] == Header(n, x) && q.right[x] == Peer(n, x, 1) && q.left[x] == Peer(n, x, 3)
  }

  lemma StaticCells(q: Pool, n: Matrix)
    requires n.Valid() && q.Sized() && |q.col| >= 1 + n.columns + 4 * |n.rows|
    requires forall x: nat :: IsCell(n, x) ==> CellGood(q, n, x)
    ensures Static(q, n)
  {
    forall x: nat | IsCell(n, x)
      ensures q.col[x] == Header(n, x) && q.right[x] == Peer(n, x, 1) && q.left[x] == Peer(n, x, 3)
    {
      assert CellGood(q, n, x);
    }
  }

  lemma OldSize(p: Pool, m: Matrix)
    requires Static(p, m)
    ensures m.Valid() && p.Sized() && NewBase(m) == 1 + m.columns + 4 * |m.rows|
  {
  }

  lemma CellSplit(m: Matrix, cols: seq<nat>, x: nat)
    requires IsCell(WithRow(m, cols), x) && !IsCell(m, x)
    ensures NewBase(m) <= x < NewBase(m) + 4
  {
  }

  lemma OutsideParts(p: Pool, h: Pool, m: Matrix, cols: seq<nat>)
    requires |cols| == 4 && Outside(p, h, m, cols, 4)
    ensures h.Sized() && |h.col| == |p.col| >= NewBase(m) + 4
    ensures forall x :: NewBase(m) <= x < NewBase(m) + 4 ==> h.left[x] == x && h.right[x] == x && h.col[x] == cols[x - NewBase(m)]
    ensures forall x :: 0 <= x < NewBase(m) ==> h.left[x] == p.left[x] && h.right[x] == p.right[x] && h.col[x] == p.col[x]
  {
  }

  lemma OldCellStatic(p: Pool, q: Pool, m: Matrix, cols: seq<nat>, x: nat)
    requires Static(p, m) && GoodRow(m, cols) && IsCell(m, x) && q.Sized() && |q.col| == |p.col| >= NewBase(m) + 4
    requires x < NewBase(m) ==> q.left[x] == p.left[x] && q.right[x] == p.right[x] && q.col[x] == p.col[x]
    ensures CellGood(q, WithRow(m, cols), x)
  {
    OldCell(m, cols, x);
  }

  lemma NewCellStatic(q: Pool, m: Matrix, cols: seq<nat>, x: nat)
    requires m.Valid() && GoodRow(m, cols) && IsCell(WithRow(m, cols), x) && !IsCell(m, x)
    requires q.Sized() && Ring(q.right, q.left, NewBase(m), Others(m, 3)) && x < |q.col|
    requires x >= NewBase(m) && x - NewBase(m) < 4 && q.col[x] == cols[x - NewBase(m)]
    ensures CellGood(q, WithRow(m, cols), x)
  {
    var k := x - NewBase(m);
    NewCellOf(m, cols, k);
    FourRing(q, m, k);
  }

  lemma RowKeepsInv(p: Pool, m: Matrix, v: View, cols: seq<nat>)
    requires Inv(p, m, v) && v.covered == {} && GoodRow(m, cols) && |p.col| >= NewBase(m) + 4
    ensures m.Valid() && |v.lists| == m.columns + 1
    ensures Inv(RowBuilt(p, m, cols), WithRow(m, cols), RowView(m, v, cols))
  {
    var n, q, w := WithRow(m, cols), RowBuilt(p, m, cols), RowView(m, v, cols);
    assert OldLists(m, v.lists);
    RowKeepsStatic(p, m, cols);
    HungVertical(p, m, v.lists, cols, 4);
    HungOutside(p, m, cols, 4);
    JoinedRing(Hung(p, m, cols, 4), m, 4);
    VerticalFrame(Hung(p, m, cols, 4), q, n, w.lists);
    HeadsUntouched(p, q, m, v, cols);
    ListsComplete(m, v, cols);
  }

  lemma VerticalFrame(p: Pool, q: Pool, m: Matrix, v: seq<seq<nat>>)
    requires Vertical(p, m, v) && q.up == p.up && q.down == p.down && q.size == p.size
    ensures Vertical(q, m, v)
  {
    forall c | 1 <= c <= m.columns ensures Column(q, m, c, v[c]) {
      assert Column(p, m, c, v[c]);
    }
  }

  lemma HeadsUntouched(p: Pool, q: Pool, m: Matrix, v: View, cols: seq<nat>)
    requires m.Valid() && HeadsListed(p, m, v) && |v.lists| == m.columns + 1 && GoodRow(m, cols)
    requires p.Sized() && q.Sized() && |p.col| == |q.col| >= NewBase(m) + 4
    requires forall x :: 0 <= x < NewBase(m) ==> q.left[x] == p.left[x] && q.right[x] == p.right[x]
    ensures HeadsListed(q, WithRow(m, cols), RowView(m, v, cols))
  {
    forall y | y in v.heads ensures y < NewBase(m) {
      assert y in m.primary;
    }
    RingFrame(p.right, p.left, q.right, q.left, 0, v.heads);
  }

  lemma ListsComplete(m: Matrix, v: View, cols: seq<nat>)
    requires ListsLive(m, v) && v.covered == {} && GoodRow(m, cols)
    ensures ListsLive(WithRow(m, cols), RowView(m, v, cols))
  {
    var n, w := WithRow(m, cols), RowView(m, v, cols);
    WithRowValid(m, cols);
    forall c, x: nat | 1 <= c <= n.columns
      ensures x in w.lists[c] <==> IsCell(n, x) && Header(n, x) == c && n.ColumnsOf(RowOf(n, x)) !! w.covered
    {
      ListsMembers(m, v.lists, cols, 4, c, x);
      if IsCell(m, x) {
        OldCell(m, cols, x);
      } else if IsCell(n, x) {
        NewCellOf(m, cols, x - NewBase(m));
      }
    }
  }
}
