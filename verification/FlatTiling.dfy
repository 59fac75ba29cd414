/** The two-dimensional tiling of `case3_flat_2d`: rectangles cut by a partitioner,
  * walked in grain-aligned tiles, with phantom cells past the end of short rows. */
module FlatTiling {
  import opened SlotReduction
  import R = RingSlots
  import opened Sums

  /** A leaf of the two-dimensional range. */
  datatype Rect = Rect(r0: nat, r1: nat, c0: nat, c1: nat)

  /** Cells past the end of a row are phantoms and count as nothing. */
  function Guarded(elem: (nat, nat) -> real, sizes: seq<nat>): (nat, nat) -> real {
    (i: nat, j: nat) => if i < |sizes| && j < sizes[i] then elem(i, j) else 0.0
  }

  /** Row i's slots start at its row block's. */
  function RowOffset(i: nat, grain: nat, colSlots: nat): nat
    requires grain > 0
  {
    Block(i, grain) * colSlots
  }

  /** What rows r0 .. r1 and columns c0 .. c1 share into slot k. */
  ghost function RectShare(f: (nat, nat) -> real, grain: nat, colSlots: nat, k: nat, r0: nat, r1: nat, c0: nat, c1: nat): real
    requires grain > 0
    decreases r1
  {
    if r1 <= r0 then 0.0
    else
      var m := SlotMap(RowOffset(r1 - 1, grain, colSlots), grain);
      RectShare(f, grain, colSlots, k, r0, r1 - 1, c0, c1) + Share(Row(f, r1 - 1), m, k, c0, c1)
  }

  ghost function RectSum(f: (nat, nat) -> real, r0: nat, r1: nat, c0: nat, c1: nat): real
    decreases r1
  {
    if r1 <= r0 then 0.0 else RectSum(f, r0, r1 - 1, c0, c1) + Part(Row(f, r1 - 1), c0, c1)
  }

  lemma {:induction false} RowsSplit(f: (nat, nat) -> real, grain: nat, colSlots: nat, k: nat,
                                     r0: nat, mid: nat, r1: nat, c0: nat, c1: nat)
    requires grain > 0 && r0 <= mid <= r1
    ensures RectShare(f, grain, colSlots, k, r0, r1, c0, c1)
         == RectShare(f, grain, colSlots, k, r0, mid, c0, c1) + RectShare(f, grain, colSlots, k, mid, r1, c0, c1)
    decreases r1
  {
    if mid < r1 { RowsSplit(f, grain, colSlots, k, r0, mid, r1 - 1, c0, c1); }
  }

  lemma {:induction false} ColumnsSplit(f: (nat, nat) -> real, grain: nat, colSlots: nat, k: nat,
                                        r0: nat, r1: nat, c0: nat, mid: nat, c1: nat)
    requires grain > 0 && c0 <= mid <= c1
    ensures RectShare(f, grain, colSlots, k, r0, r1, c0, c1)
         == RectShare(f, grain, colSlots, k, r0, r1, c0, mid) + RectShare(f, grain, colSlots, k, r0, r1, mid, c1)
    decreases r1
  {
    if r0 < r1 {
      ColumnsSplit(f, grain, colSlots, k, r0, r1 - 1, c0, mid, c1);
      ShareSplit(Row(f, r1 - 1), SlotMap(RowOffset(r1 - 1, grain, colSlots), grain), k, c0, mid, c1);
    }
  }

  lemma {:induction false} NoColumns(f: (nat, nat) -> real, grain: nat, colSlots: nat, k: nat, r0: nat, r1: nat, c: nat)
    requires grain > 0
    ensures RectShare(f, grain, colSlots, k, r0, r1, c, c) == 0.0
    decreases r1
  {
    if r0 < r1 { NoColumns(f, grain, colSlots, k, r0, r1 - 1, c); }
  }

  /** A tile inside one row block and one column block shares into one slot. */
  lemma {:induction false} TileOfOneSlot(f: (nat, nat) -> real, grain: nat, colSlots: nat, k: nat, slot: nat,
                                         r0: nat, r1: nat, c0: nat, c1: nat)
    requires grain > 0 && r0 <= r1
    requires forall i: nat, j: nat :: r0 <= i < r1 && c0 <= j < c1 ==>
      RowOffset(i, grain, colSlots) + Block(j, grain) == slot
    ensures RectShare(f, grain, colSlots, k, r0, r1, c0, c1) == if k == slot then RectSum(f, r0, r1, c0, c1) else 0.0
    decreases r1
  {
    if r0 < r1 {
      TileOfOneSlot(f, grain, colSlots, k, slot, r0, r1 - 1, c0, c1);
      ShareOfOneSlot(Row(f, r1 - 1), SlotMap(RowOffset(r1 - 1, grain, colSlots), grain), k, slot, c0, c1);
    }
  }

  /** The two inner loops of a tile: its real cells, each once. */
  method TileSum(sizes: seq<nat>, elem: (nat, nat) -> real, rb: nat, re: nat, cb: nat, ce: nat) returns (local: real)
    requires rb <= re <= |sizes| && cb <= ce
    ensures local == RectSum(Guarded(elem, sizes), rb, re, cb, ce)
  {
    local := 0.0;
    ghost var f := Guarded(elem, sizes);
    for i := rb to re
      invariant local == RectSum(f, rb, i, cb, ce)
    {
      ghost var before := local;
      for j := cb to ce
        invariant local == before + Part(Row(f, i), cb, j)
      {
        if j < sizes[i] {
          local := local + elem(i, j);
        }
      }
    }
  }

  /** One round of the column loop: the tile that starts at (rb, cb). */
  method AddTile(sums: array<real>, sizes: seq<nat>, elem: (nat, nat) -> real, grain: nat, colSlots: nat,
                 rb: nat, re: nat, cb: nat, c1: nat)
    returns (ce: nat)
    requires grain > 0 && rb < re <= |sizes| && cb < c1
    requires forall i: nat :: rb <= i < re ==> Block(i, grain) == Block(rb, grain)
    requires RowOffset(rb, grain, colSlots) + Block(cb, grain) < sums.Length
    modifies sums
    ensures cb < ce <= c1
    ensures forall k :: 0 <= k < sums.Length ==>
      sums[k] == old(sums[k]) + RectShare(Guarded(elem, sizes), grain, colSlots, k, rb, re, cb, ce)
  {
    ce := NextCut(cb, c1, grain);
    CutStaysInBlock(cb, c1, grain);
    var local := TileSum(sizes, elem, rb, re, cb, ce);
    var slot := RowOffset(rb, grain, colSlots) + Block(cb, grain);
    forall k: nat ensures RectShare(Guarded(elem, sizes), grain, colSlots, k, rb, re, cb, ce)
      == if k == slot then RectSum(Guarded(elem, sizes), rb, re, cb, ce) else 0.0
    {
      TileOfOneSlot(Guarded(elem, sizes), grain, colSlots, k, slot, rb, re, cb, ce);
    }
    hide *;
    sums[slot] := sums[slot] + local;
  }

  /** The cells of a leaf all have a slot. */
  ghost predicate RectPlaced(x: Rect, rows: nat, grain: nat, colSlots: nat, slots: nat)
    requires grain > 0
  {
    && x.r0 <= x.r1 <= rows && x.c0 <= x.c1
    && forall i: nat, j: nat :: i < x.r1 && j < x.c1 ==> RowOffset(i, grain, colSlots) + Block(j, grain) < slots
  }

  /** The leaf body of `case3_flat_2d`: row segments, and in each the column segments. */
  method FlatLeaf(sums: array<real>, sizes: seq<nat>, elem: (nat, nat) -> real, grain: nat, colSlots: nat, x: Rect)
    requires grain > 0 && RectPlaced(x, |sizes|, grain, colSlots, sums.Length)
    modifies sums
    ensures forall k :: 0 <= k < sums.Length ==>
      sums[k] == old(sums[k]) + RectShare(Guarded(elem, sizes), grain, colSlots, k, x.r0, x.r1, x.c0, x.c1)
  {
    ghost var f := Guarded(elem, sizes);
    assert x.r0 <= x.r1 <= |sizes| && x.c0 <= x.c1;
    var rb := x.r0;
    hide Guarded, Share, SlotMap, NextCut, Block;
    while rb < x.r1
      invariant x.r0 <= rb <= x.r1
      invariant forall k :: 0 <= k < sums.Length ==>
        sums[k] == old(sums[k]) + RectShare(f, grain, colSlots, k, x.r0, rb, x.c0, x.c1)
    {
      var re := NextCut(rb, x.r1, grain);
      CutStaysInBlock(rb, x.r1, grain);
      RowSegment(sums, sizes, elem, grain, colSlots, x, rb, re);
      forall k: nat ensures RectShare(f, grain, colSlots, k, x.r0, re, x.c0, x.c1)
        == RectShare(f, grain, colSlots, k, x.r0, rb, x.c0, x.c1) + RectShare(f, grain, colSlots, k, rb, re, x.c0, x.c1)
      {
        RowsSplit(f, grain, colSlots, k, x.r0, rb, re, x.c0, x.c1);
      }
      rb := re;
    }
  }

  /** The column loop over one row segment. */
  method RowSegment(sums: array<real>, sizes: seq<nat>, elem: (nat, nat) -> real, grain: nat, colSlots: nat,
                    x: Rect, rb: nat, re: nat)
    requires grain > 0 && RectPlaced(x, |sizes|, grain, colSlots, sums.Length) && rb < re <= x.r1
    requires forall i: nat :: rb <= i < re ==> Block(i, grain) == Block(rb, grain)
    modifies sums
    ensures forall k :: 0 <= k < sums.Length ==>
      sums[k] == old(sums[k]) + RectShare(Guarded(elem, sizes), grain, colSlots, k, rb, re, x.c0, x.c1)
  {
    ghost var f := Guarded(elem, sizes);
    forall k: nat ensures RectShare(f, grain, colSlots, k, rb, re, x.c0, x.c0) == 0.0 {
      NoColumns(f, grain, colSlots, k, rb, re, x.c0);
    }
    hide Guarded, RectShare, Block, RowOffset;
    var cb := x.c0;
    while cb < x.c1
      invariant x.c0 <= cb <= x.c1
      invariant forall k :: 0 <= k < sums.Length ==>
        sums[k] == old(sums[k]) + RectShare(f, grain, colSlots, k, rb, re, x.c0, cb)
    {
      assert RowOffset(rb, grain, colSlots) + Block(cb, grain) < sums.Length;
      var ce := AddTile(sums, sizes, elem, grain, colSlots, rb, re, cb, x.c1);
      forall k: nat ensures RectShare(f, grain, colSlots, k, rb, re, x.c0, ce)
        == RectShare(f, grain, colSlots, k, rb, re, x.c0, cb) + RectShare(f, grain, colSlots, k, rb, re, cb, ce)
      {
        ColumnsSplit(f, grain, colSlots, k, rb, re, x.c0, cb, ce);
      }
      cb := ce;
    }
  }

  // -------------------------------------------------- leaves tile by tile, in any order

  /** A leaf under way: the tile at (rb, cb) is next. */
  datatype Tiler = Tiler(x: Rect, rb: nat, cb: nat)

  ghost predicate TilerOk(w: Tiler) {
    && w.x.r0 <= w.rb <= w.x.r1 && w.x.c0 <= w.cb <= w.x.c1
    && (w.rb < w.x.r1 && w.x.c0 < w.x.c1 ==> w.cb < w.x.c1)
  }

  predicate HasTile(w: Tiler) {
    w.rb < w.x.r1 && w.cb < w.x.c1
  }

  function RowEnd(w: Tiler, grain: nat): nat
    requires grain > 0
  {
    if w.rb < w.x.r1 then NextCut(w.rb, w.x.r1, grain) else w.rb
  }

  /** After a tile up to column ce comes the next in the row segment, or the next
    * segment. */
  function AfterTile(w: Tiler, grain: nat, ce: nat): Tiler
    requires grain > 0
  {
    if ce < w.x.c1 then w.(cb := ce) else Tiler(w.x, RowEnd(w, grain), w.x.c0)
  }

  /** What a leaf has added to slot k so far. */
  ghost function Added(f: (nat, nat) -> real, grain: nat, colSlots: nat, k: nat, w: Tiler): real
    requires grain > 0
  {
    RectShare(f, grain, colSlots, k, w.x.r0, w.rb, w.x.c0, w.x.c1)
    + RectShare(f, grain, colSlots, k, w.rb, RowEnd(w, grain), w.x.c0, w.cb)
  }

  ghost function AllAdded(f: (nat, nat) -> real, grain: nat, colSlots: nat, k: nat, ws: seq<Tiler>): real
    requires grain > 0
  {
    if |ws| == 0 then 0.0
    else AllAdded(f, grain, colSlots, k, ws[..|ws| - 1]) + Added(f, grain, colSlots, k, ws[|ws| - 1])
  }

  lemma {:induction false} AllAddedChange(f: (nat, nat) -> real, grain: nat, colSlots: nat, k: nat,
                                          ws: seq<Tiler>, n: nat, w: Tiler)
    requires grain > 0 && n < |ws|
    ensures AllAdded(f, grain, colSlots, k, ws[n := w]) - Added(f, grain, colSlots, k, w)
         == AllAdded(f, grain, colSlots, k, ws) - Added(f, grain, colSlots, k, ws[n])
  {
    hide Added;
    var m := |ws| - 1;
    if n < m {
      AllAddedChange(f, grain, colSlots, k, ws[..m], n, w);
      assert ws[n := w][..m] == ws[..m][n := w];
    } else {
      assert ws[n := w][..m] == ws[..m];
    }
  }

  lemma NoRows(f: (nat, nat) -> real, grain: nat, colSlots: nat, k: nat, r: nat, c0: nat, c1: nat)
    requires grain > 0
    ensures RectShare(f, grain, colSlots, k, r, r, c0, c1) == 0.0
  {
  }

  /** A tile adds exactly its own share. */
  lemma TileAdds(f: (nat, nat) -> real, grain: nat, colSlots: nat, k: nat, w: Tiler, ce: nat)
    requires grain > 0 && TilerOk(w) && HasTile(w) && w.cb < ce <= w.x.c1
    ensures TilerOk(AfterTile(w, grain, ce))
    ensures Added(f, grain, colSlots, k, AfterTile(w, grain, ce))
         == Added(f, grain, colSlots, k, w) + RectShare(f, grain, colSlots, k, w.rb, RowEnd(w, grain), w.cb, ce)
  {
    var x, re, v := w.x, RowEnd(w, grain), AfterTile(w, grain, ce);
    CutStaysInBlock(w.rb, x.r1, grain);
    ColumnsSplit(f, grain, colSlots, k, w.rb, re, x.c0, w.cb, ce);
    hide RectShare, NextCut;
    if ce == x.c1 {
      RowsSplit(f, grain, colSlots, k, x.r0, w.rb, re, x.c0, x.c1);
      NoColumns(f, grain, colSlots, k, v.rb, RowEnd(v, grain), x.c0);
    }
  }

  lemma FreshAdded(f: (nat, nat) -> real, grain: nat, colSlots: nat, k: nat, x: Rect)
    requires grain > 0
    ensures Added(f, grain, colSlots, k, Tiler(x, x.r0, x.c0)) == 0.0
  {
    var w := Tiler(x, x.r0, x.c0);
    NoRows(f, grain, colSlots, k, x.r0, x.c0, x.c1);
    NoColumns(f, grain, colSlots, k, x.r0, RowEnd(w, grain), x.c0);
  }

  lemma DoneAdded(f: (nat, nat) -> real, grain: nat, colSlots: nat, k: nat, w: Tiler)
    requires grain > 0 && TilerOk(w) && !HasTile(w)
    ensures Added(f, grain, colSlots, k, w) == RectShare(f, grain, colSlots, k, w.x.r0, w.x.r1, w.x.c0, w.x.c1)
  {
    var x := w.x;
    if w.rb == x.r1 {
      NoRows(f, grain, colSlots, k, x.r1, x.c0, w.cb);
    } else {
      NoColumns(f, grain, colSlots, k, x.r0, w.rb, x.c0);
      NoColumns(f, grain, colSlots, k, w.rb, RowEnd(w, grain), x.c0);
      NoColumns(f, grain, colSlots, k, x.r0, x.r1, x.c0);
    }
  }

  /** Columns of row segments still to come; it bounds the tiles left. */
  function TilesLeft(w: Tiler): nat {
    (if w.rb < w.x.r1 then w.x.r1 - w.rb else 0) * (Width(w.x) + 1) + (if w.cb < w.x.c1 then w.x.c1 - w.cb else 0)
  }

  function Width(x: Rect): nat {
    if x.c0 < x.c1 then x.c1 - x.c0 else 0
  }

  lemma FewerTiles(w: Tiler, grain: nat, ce: nat)
    requires grain > 0 && TilerOk(w) && HasTile(w) && w.cb < ce <= w.x.c1
    ensures TilesLeft(AfterTile(w, grain, ce)) < TilesLeft(w)
  {
    if ce == w.x.c1 {
      var re := RowEnd(w, grain);
      CutStaysInBlock(w.rb, w.x.r1, grain);
      RowsCost(w.x.r1 - w.rb, w.x.r1 - re, Width(w.x) + 1);
    }
  }

  lemma RowsCost(a: nat, b: nat, c: nat)
    requires b < a
    ensures b * c + c <= a * c
  {
    assert a * c == b * c + c + (a - b - 1) * c;
    assert (a - b - 1) * c >= 0;
  }

  function Started(rects: seq<Rect>): seq<Tiler> {
    seq(|rects|, n requires 0 <= n < |rects| => Tiler(rects[n], rects[n].r0, rects[n].c0))
  }

  /** Leaves under way: the rectangles they walk, and that all is in order. */
  ghost predicate Walking(ws: seq<Tiler>, rects: seq<Rect>) {
    |ws| == |rects| && forall n :: 0 <= n < |ws| ==> ws[n].x == rects[n] && TilerOk(ws[n])
  }

  ghost function AllShares(f: (nat, nat) -> real, grain: nat, colSlots: nat, k: nat, rects: seq<Rect>): real
    requires grain > 0
  {
    if |rects| == 0 then 0.0
    else
      var x := rects[|rects| - 1];
      AllShares(f, grain, colSlots, k, rects[..|rects| - 1]) + RectShare(f, grain, colSlots, k, x.r0, x.r1, x.c0, x.c1)
  }

  lemma {:induction false} NothingAdded(f: (nat, nat) -> real, grain: nat, colSlots: nat, k: nat, rects: seq<Rect>)
    requires grain > 0
    ensures AllAdded(f, grain, colSlots, k, Started(rects)) == 0.0
  {
    if |rects| > 0 {
      var m := |rects| - 1;
      assert Started(rects)[..m] == Started(rects[..m]);
      NothingAdded(f, grain, colSlots, k, rects[..m]);
      FreshAdded(f, grain, colSlots, k, rects[m]);
    }
  }

  lemma {:induction false} EverythingAdded(f: (nat, nat) -> real, grain: nat, colSlots: nat, k: nat,
                                           ws: seq<Tiler>, rects: seq<Rect>)
    requires grain > 0 && Walking(ws, rects) && forall n :: 0 <= n < |ws| ==> !HasTile(ws[n])
    ensures AllAdded(f, grain, colSlots, k, ws) == AllShares(f, grain, colSlots, k, rects)
  {
    if |ws| > 0 {
      var m := |ws| - 1;
      EverythingAdded(f, grain, colSlots, k, ws[..m], rects[..m]);
      DoneAdded(f, grain, colSlots, k, ws[m]);
      hide Added;
    }
  }

  /** One tile of one leaf, with everything else standing still. */
  method TileStep(sums: array<real>, sizes: seq<nat>, elem: (nat, nat) -> real, grain: nat, colSlots: nat, w: Tiler)
    returns (v: Tiler)
    requires grain > 0 && TilerOk(w) && HasTile(w) && RectPlaced(w.x, |sizes|, grain, colSlots, sums.Length)
    modifies sums
    ensures TilerOk(v) && v.x == w.x && TilesLeft(v) < TilesLeft(w)
    ensures forall k :: 0 <= k < sums.Length ==>
      sums[k] == old(sums[k]) + Added(Guarded(elem, sizes), grain, colSlots, k, v)
                              - Added(Guarded(elem, sizes), grain, colSlots, k, w)
  {
    ghost var f := Guarded(elem, sizes);
    var re := RowEnd(w, grain);
    CutStaysInBlock(w.rb, w.x.r1, grain);
    hide Guarded, Added, RectShare, Block, RowOffset, NextCut, TilesLeft;
    var ce := AddTile(sums, sizes, elem, grain, colSlots, w.rb, re, w.cb, w.x.c1);
    v := AfterTile(w, grain, ce);
    FewerTiles(w, grain, ce);
    forall k: nat
      ensures TilerOk(v)
      ensures Added(f, grain, colSlots, k, v)
        == Added(f, grain, colSlots, k, w) + RectShare(f, grain, colSlots, k, w.rb, re, w.cb, ce)
    {
      TileAdds(f, grain, colSlots, k, w, ce);
    }
    TileAdds(f, grain, colSlots, 0, w, ce);
  }

  /** All leaves at once, on any number of threads: whoever is next adds its next
    * tile. Each slot ends up with the shares of all the leaves. */
  method RunTiles(sums: array<real>, sizes: seq<nat>, elem: (nat, nat) -> real, grain: nat, colSlots: nat, rects: seq<Rect>)
    requires grain > 0 && forall n :: 0 <= n < |rects| ==> RectPlaced(rects[n], |sizes|, grain, colSlots, sums.Length)
    modifies sums
    ensures forall k :: 0 <= k < sums.Length ==>
      sums[k] == old(sums[k]) + AllShares(Guarded(elem, sizes), grain, colSlots, k, rects)
  {
    ghost var f := Guarded(elem, sizes);
    var ws := Started(rects);
    forall k: nat ensures AllAdded(f, grain, colSlots, k, ws) == 0.0 { NothingAdded(f, grain, colSlots, k, rects); }
    hide Guarded, Added, AllAdded, AllShares, Block, RowOffset, TilesLeft;
    while exists n: nat :: n < |ws| && HasTile(ws[n])
      invariant Walking(ws, rects)
      invariant forall k :: 0 <= k < sums.Length ==> sums[k] == old(sums[k]) + AllAdded(f, grain, colSlots, k, ws)
      decreases Sum(ws, TilesLeft)
    {
      var n: nat :| n < |ws| && HasTile(ws[n]);
      var v := TileStep(sums, sizes, elem, grain, colSlots, ws[n]);
      forall k: nat
        ensures AllAdded(f, grain, colSlots, k, ws[n := v])
          == AllAdded(f, grain, colSlots, k, ws) + Added(f, grain, colSlots, k, v) - Added(f, grain, colSlots, k, ws[n])
      {
        AllAddedChange(f, grain, colSlots, k, ws, n, v);
      }
      SumUpdate(ws, TilesLeft, n, v);
      ws := ws[n := v];
    }
    forall k: nat ensures AllAdded(f, grain, colSlots, k, ws) == AllShares(f, grain, colSlots, k, rects) {
      EverythingAdded(f, grain, colSlots, k, ws, rects);
    }
  }

  // ---------------------------------------------------- rectangles as row leaves

  function RowLeaves(x: Rect, r1: nat): seq<Leaf> {
    if r1 <= x.r0 then [] else RowLeaves(x, r1 - 1) + [Leaf(r1 - 1, x.c0, x.c1)]
  }

  function AllRowLeaves(rects: seq<Rect>): seq<Leaf> {
    if |rects| == 0 then []
    else AllRowLeaves(rects[..|rects| - 1]) + RowLeaves(rects[|rects| - 1], rects[|rects| - 1].r1)
  }

  /** How many rectangles contain cell (i, j). */
  ghost function CoverCell(rects: seq<Rect>, i: nat, j: nat): nat {
    if |rects| == 0 then 0
    else
      var x := rects[|rects| - 1];
      CoverCell(rects[..|rects| - 1], i, j) + if x.r0 <= i < x.r1 && x.c0 <= j < x.c1 then 1 else 0
  }

  /** The rectangles tile rows x cols: every cell is in exactly one. */
  ghost predicate Tiling(rects: seq<Rect>, rows: nat, cols: nat) {
    && (forall x :: 0 <= x < |rects| ==> rects[x].r0 <= rects[x].r1 <= rows && rects[x].c0 <= rects[x].c1 <= cols)
    && (forall i: nat, j: nat :: i < rows && j < cols ==> CoverCell(rects, i, j) == 1)
  }

  lemma {:induction false} CoverConcat(a: seq<Leaf>, b: seq<Leaf>, t: nat, j: nat)
    ensures Cover(a + b, t, j) == Cover(a, t, j) + Cover(b, t, j)
  {
    if |b| == 0 {
      assert a + b == a;
    } else {
      assert (a + b)[..|a + b| - 1] == a + b[..|b| - 1];
      CoverConcat(a, b[..|b| - 1], t, j);
    }
  }

  lemma {:induction false} CoverOfRect(x: Rect, r1: nat, i: nat, j: nat)
    ensures Cover(RowLeaves(x, r1), i, j) == if x.r0 <= i < r1 && x.c0 <= j < x.c1 then 1 else 0
  {
    if x.r0 < r1 {
      CoverOfRect(x, r1 - 1, i, j);
      assert RowLeaves(x, r1)[..|RowLeaves(x, r1)| - 1] == RowLeaves(x, r1 - 1);
    }
  }

  lemma {:induction false} CoverOfAll(rects: seq<Rect>, i: nat, j: nat)
    ensures Cover(AllRowLeaves(rects), i, j) == CoverCell(rects, i, j)
  {
    if |rects| > 0 {
      var x := rects[|rects| - 1];
      CoverOfAll(rects[..|rects| - 1], i, j);
      CoverConcat(AllRowLeaves(rects[..|rects| - 1]), RowLeaves(x, x.r1), i, j);
      CoverOfRect(x, x.r1, i, j);
    }
  }

  /** Leaves that stay inside rows x cols. */
  ghost predicate Inside(leaves: seq<Leaf>, rows: nat, cols: nat) {
    forall y :: 0 <= y < |leaves| ==> leaves[y].task < rows && leaves[y].begin <= leaves[y].end <= cols
  }

  lemma {:induction false} RectInside(x: Rect, r1: nat, rows: nat, cols: nat)
    requires r1 <= rows && x.c0 <= x.c1 <= cols
    ensures Inside(RowLeaves(x, r1), rows, cols)
  {
    if x.r0 < r1 { RectInside(x, r1 - 1, rows, cols); }
  }

  lemma {:induction false} AllInside(rects: seq<Rect>, rows: nat, cols: nat)
    requires forall x :: 0 <= x < |rects| ==> rects[x].r0 <= rects[x].r1 <= rows && rects[x].c0 <= rects[x].c1 <= cols
    ensures Inside(AllRowLeaves(rects), rows, cols)
  {
    if |rects| > 0 {
      AllInside(rects[..|rects| - 1], rows, cols);
      RectInside(rects[|rects| - 1], rects[|rects| - 1].r1, rows, cols);
    }
  }

  // ------------------------------------------------------ what a slot receives

  /** What the leaves add to slot k, leaf by leaf. */
  ghost function LeafShares(f: (nat, nat) -> real, grain: nat, colSlots: nat, leaves: seq<Leaf>, k: nat): real
    requires grain > 0
  {
    if |leaves| == 0 then 0.0
    else
      var leaf := leaves[|leaves| - 1];
      var m := SlotMap(RowOffset(leaf.task, grain, colSlots), grain);
      LeafShares(f, grain, colSlots, leaves[..|leaves| - 1], k) + Share(Row(f, leaf.task), m, k, leaf.begin, leaf.end)
  }

  lemma {:induction false} SharesConcat(f: (nat, nat) -> real, grain: nat, colSlots: nat, a: seq<Leaf>, b: seq<Leaf>, k: nat)
    requires grain > 0
    ensures LeafShares(f, grain, colSlots, a + b, k)
         == LeafShares(f, grain, colSlots, a, k) + LeafShares(f, grain, colSlots, b, k)
  {
    if |b| == 0 {
      assert a + b == a;
    } else {
      assert (a + b)[..|a + b| - 1] == a + b[..|b| - 1];
      SharesConcat(f, grain, colSlots, a, b[..|b| - 1], k);
    }
  }

  lemma {:induction false} RectIsLeaves(f: (nat, nat) -> real, grain: nat, colSlots: nat, x: Rect, r1: nat, k: nat)
    requires grain > 0
    ensures LeafShares(f, grain, colSlots, RowLeaves(x, r1), k)
         == RectShare(f, grain, colSlots, k, x.r0, r1, x.c0, x.c1)
  {
    if x.r0 < r1 {
      RectIsLeaves(f, grain, colSlots, x, r1 - 1, k);
      assert RowLeaves(x, r1)[..|RowLeaves(x, r1)| - 1] == RowLeaves(x, r1 - 1);
    }
  }

  lemma {:induction false} SharesAreLeaves(f: (nat, nat) -> real, grain: nat, colSlots: nat, rects: seq<Rect>, k: nat)
    requires grain > 0
    ensures AllShares(f, grain, colSlots, k, rects) == LeafShares(f, grain, colSlots, AllRowLeaves(rects), k)
  {
    if |rects| > 0 {
      var m := |rects| - 1;
      SharesAreLeaves(f, grain, colSlots, rects[..m], k);
      SharesConcat(f, grain, colSlots, AllRowLeaves(rects[..m]), RowLeaves(rects[m], rects[m].r1), k);
      RectIsLeaves(f, grain, colSlots, rects[m], rects[m].r1, k);
    }
  }

  /** The same sum row by row, each cell counted as often as leaves contain it. */
  ghost function RowsCounted(f: (nat, nat) -> real, grain: nat, colSlots: nat, leaves: seq<Leaf>, k: nat,
                             rows: nat, cols: nat): real
    requires grain > 0
  {
    if rows == 0 then 0.0
    else
      var m := SlotMap(RowOffset(rows - 1, grain, colSlots), grain);
      RowsCounted(f, grain, colSlots, leaves, k, rows - 1, cols)
      + Counted(Row(f, rows - 1), m, k, leaves, rows - 1, cols)
  }

  lemma {:induction false} RowsCountedNone(f: (nat, nat) -> real, grain: nat, colSlots: nat, k: nat, rows: nat, cols: nat)
    requires grain > 0
    ensures RowsCounted(f, grain, colSlots, [], k, rows, cols) == 0.0
  {
    if rows > 0 {
      RowsCountedNone(f, grain, colSlots, k, rows - 1, cols);
      CountedNone(Row(f, rows - 1), SlotMap(RowOffset(rows - 1, grain, colSlots), grain), k, rows - 1, cols);
    }
  }

  lemma {:induction false} RowsCountedNext(f: (nat, nat) -> real, grain: nat, colSlots: nat, leaves: seq<Leaf>, k: nat,
                                           rows: nat, cols: nat)
    requires grain > 0 && |leaves| > 0 && leaves[|leaves| - 1].end <= cols
    ensures var leaf := leaves[|leaves| - 1];
      RowsCounted(f, grain, colSlots, leaves, k, rows, cols)
        == RowsCounted(f, grain, colSlots, leaves[..|leaves| - 1], k, rows, cols)
         + if leaf.task < rows
           then Share(Row(f, leaf.task), SlotMap(RowOffset(leaf.task, grain, colSlots), grain), k, leaf.begin, leaf.end)
           else 0.0
  {
    if rows > 0 {
      RowsCountedNext(f, grain, colSlots, leaves, k, rows - 1, cols);
      CountedNext(Row(f, rows - 1), SlotMap(RowOffset(rows - 1, grain, colSlots), grain), k, leaves, rows - 1, cols);
      hide SlotMap, Row, RowOffset;
    }
  }

  lemma {:induction false} SharesAreCounted(f: (nat, nat) -> real, grain: nat, colSlots: nat, leaves: seq<Leaf>, k: nat,
                                            rows: nat, cols: nat)
    requires grain > 0 && Inside(leaves, rows, cols)
    ensures LeafShares(f, grain, colSlots, leaves, k) == RowsCounted(f, grain, colSlots, leaves, k, rows, cols)
  {
    if |leaves| == 0 {
      RowsCountedNone(f, grain, colSlots, k, rows, cols);
    } else {
      SharesAreCounted(f, grain, colSlots, leaves[..|leaves| - 1], k, rows, cols);
      RowsCountedNext(f, grain, colSlots, leaves, k, rows, cols);
      hide SlotMap, Row, RowOffset;
    }
  }

  lemma {:induction false} CountedIsWhole(f: (nat, nat) -> real, grain: nat, colSlots: nat, leaves: seq<Leaf>, k: nat,
                                          rows: nat, cols: nat)
    requires grain > 0 && forall i: nat, j: nat :: i < rows && j < cols ==> Cover(leaves, i, j) == 1
    ensures RowsCounted(f, grain, colSlots, leaves, k, rows, cols)
         == RectShare(f, grain, colSlots, k, 0, rows, 0, cols)
  {
    if rows > 0 {
      CountedIsWhole(f, grain, colSlots, leaves, k, rows - 1, cols);
      CountedOnce(Row(f, rows - 1), SlotMap(RowOffset(rows - 1, grain, colSlots), grain), k, leaves, rows - 1, cols);
    }
  }

  /** Whatever the tiling, slot k receives exactly its own block of the rectangle. */
  lemma AnyTilingSameSlots(f: (nat, nat) -> real, grain: nat, colSlots: nat, rects: seq<Rect>, k: nat, rows: nat, cols: nat)
    requires grain > 0 && Tiling(rects, rows, cols)
    ensures LeafShares(f, grain, colSlots, AllRowLeaves(rects), k)
         == RectShare(f, grain, colSlots, k, 0, rows, 0, cols)
  {
    AllInside(rects, rows, cols);
    forall i: nat, j: nat | i < rows && j < cols ensures Cover(AllRowLeaves(rects), i, j) == 1 {
      CoverOfAll(rects, i, j);
    }
    SharesAreCounted(f, grain, colSlots, AllRowLeaves(rects), k, rows, cols);
    CountedIsWhole(f, grain, colSlots, AllRowLeaves(rects), k, rows, cols);
  }

  // --------------------------------------------------------------------- merge

  lemma {:induction false} SumOfTwo(a: seq<real>, b: seq<real>, c: seq<real>, hi: nat)
    requires hi <= |a| == |b| == |c| && forall k :: 0 <= k < hi ==> c[k] == a[k] + b[k]
    ensures SumOf(c, 0, hi) == SumOf(a, 0, hi) + SumOf(b, 0, hi)
  {
    if hi > 0 { SumOfTwo(a, b, c, hi - 1); }
  }

  ghost function ShareVector(f: nat -> real, m: nat -> nat, n: nat, slots: nat): seq<real> {
    seq(slots, k requires 0 <= k < slots => Share(f, m, k, 0, n))
  }

  ghost function RectVector(f: (nat, nat) -> real, grain: nat, colSlots: nat, rows: nat, cols: nat, slots: nat): seq<real>
    requires grain > 0
  {
    seq(slots, k requires 0 <= k < slots => RectShare(f, grain, colSlots, k, 0, rows, 0, cols))
  }

  /** Slots that hold all shares of the rectangle add up to its sum. */
  lemma {:induction false} RectAddsUp(f: (nat, nat) -> real, grain: nat, colSlots: nat, rows: nat, cols: nat, slots: nat)
    requires grain > 0
    requires forall i: nat, j: nat :: i < rows && j < cols ==> RowOffset(i, grain, colSlots) + Block(j, grain) < slots
    ensures SumOf(RectVector(f, grain, colSlots, rows, cols, slots), 0, slots) == RectSum(f, 0, rows, 0, cols)
  {
    var whole := RectVector(f, grain, colSlots, rows, cols, slots);
    if rows == 0 {
      SumZero(whole, 0, slots);
    } else {
      var m := SlotMap(RowOffset(rows - 1, grain, colSlots), grain);
      var row := ShareVector(Row(f, rows - 1), m, cols, slots);
      RectAddsUp(f, grain, colSlots, rows - 1, cols, slots);
      SharesAddUp(Row(f, rows - 1), m, row, 0, slots, cols);
      SumOfTwo(RectVector(f, grain, colSlots, rows - 1, cols, slots), row, whole, slots);
    }
  }

  lemma {:induction false} PhantomsCountNothing(elem: (nat, nat) -> real, sizes: seq<nat>, i: nat, cols: nat)
    requires i < |sizes|
    ensures Part(Row(Guarded(elem, sizes), i), 0, cols)
         == Part(Row(elem, i), 0, if cols < sizes[i] then cols else sizes[i])
  {
    if cols > 0 { PhantomsCountNothing(elem, sizes, i, cols - 1); }
  }

  lemma {:induction false} RectIsReference(elem: (nat, nat) -> real, sizes: seq<nat>, rows: nat, cols: nat)
    requires rows <= |sizes| && forall i :: 0 <= i < rows ==> sizes[i] <= cols
    ensures RectSum(Guarded(elem, sizes), 0, rows, 0, cols) == Reference(elem, sizes, rows)
  {
    if rows > 0 {
      RectIsReference(elem, sizes, rows - 1, cols);
      PhantomsCountNothing(elem, sizes, rows - 1, cols);
    }
  }

  lemma CellHasSlot(rows: nat, cols: nat, grain: nat, i: nat, j: nat)
    requires grain > 0 && i < rows && j < cols
    ensures RowOffset(i, grain, Chunks(cols, grain)) + Block(j, grain) < Chunks(rows, grain) * Chunks(cols, grain)
  {
    ElementInChunk(i, rows, grain);
    ElementInChunk(j, cols, grain);
    hide Chunks, Block;
    InTable(Block(i, grain), Chunks(rows, grain), Chunks(cols, grain), Block(j, grain));
  }

  /** A slot is one block of the rectangle: the cells that share into slot (a, b) of the
    * table are exactly those of row block a and column block b. */
  lemma CellSlotIsBlock(cols: nat, grain: nat, i: nat, j: nat, a: nat, b: nat)
    requires grain > 0 && j < cols && b < Chunks(cols, grain)
    ensures RowOffset(i, grain, Chunks(cols, grain)) + Block(j, grain) == a * Chunks(cols, grain) + b <==>
      a * grain <= i < a * grain + grain && b * grain <= j < b * grain + grain
  {
    ElementInChunk(j, cols, grain);
    BlockOf(i, grain, a);
    BlockOf(j, grain, b);
    var c, d := Chunks(cols, grain), Block(i, grain) - a;
    hide Chunks, Block;
    assert Block(i, grain) * c == a * c + d * c;
    R.MulGrows(d, c);
  }

  lemma InTable(b: nat, r: nat, c: nat, d: nat)
    requires b < r && d < c
    ensures b * c + d < r * c
  {
    var e := r - b - 1;
    assert r * c == b * c + c + e * c;
    assert e * c >= 0;
  }

  /** `case3_flat_2d`: for every tiling of rows x cols into leaves, whatever order
    * their tiles are run in, the merged slots are the serial reference over the real
    * cells. */
  method Flat2d(sizes: seq<nat>, cols: nat, grain: nat, rects: seq<Rect>, elem: (nat, nat) -> real) returns (total: real)
    requires grain > 0 && (forall i :: 0 <= i < |sizes| ==> sizes[i] <= cols) && Tiling(rects, |sizes|, cols)
    ensures total == Reference(elem, sizes, |sizes|)
  {
    var colSlots, rowSlots := Chunks(cols, grain), Chunks(|sizes|, grain);
    var sums := new real[rowSlots * colSlots](_ => 0.0);
    ghost var f := Guarded(elem, sizes);
    ghost var rows := |sizes|;
    forall i: nat, j: nat | i < rows && j < cols ensures RowOffset(i, grain, colSlots) + Block(j, grain) < sums.Length {
      CellHasSlot(rows, cols, grain, i, j);
    }
    hide Chunks, RowOffset, Block, LeafShares, RectShare, AllRowLeaves, Guarded, AllShares;
    RunTiles(sums, sizes, elem, grain, colSlots, rects);
    forall k: nat ensures AllShares(f, grain, colSlots, k, rects) == RectShare(f, grain, colSlots, k, 0, rows, 0, cols) {
      SharesAreLeaves(f, grain, colSlots, rects, k);
      AnyTilingSameSlots(f, grain, colSlots, rects, k, rows, cols);
    }
    assert sums[..] == RectVector(f, grain, colSlots, rows, cols, sums.Length);
    RectAddsUp(f, grain, colSlots, rows, cols, sums.Length);
    RectIsReference(elem, sizes, rows, cols);
    total := SlotMerge(sums);
  }
}
