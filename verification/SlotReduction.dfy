/** Slot reduction of bench_common.h and case3_nestedTask.cpp: a scheduler cuts
  * ranges into leaves as it likes, each leaf adds grain-aligned partial sums into
  * shared slots, and the result must not depend on the cuts or on the order. */
module SlotReduction {
  import R = RingSlots

  // ------------------------------------------------------------------ sums

  /** The serial sum of f over lo .. hi. */
  ghost function Part(f: nat -> real, lo: nat, hi: nat): real
    decreases hi
  {
    if hi <= lo then 0.0 else Part(f, lo, hi - 1) + f(hi - 1)
  }

  /** The part of that sum whose elements belong to slot k under the map m. */
  ghost function Share(f: nat -> real, m: nat -> nat, k: nat, lo: nat, hi: nat): real
    decreases hi
  {
    if hi <= lo then 0.0 else Share(f, m, k, lo, hi - 1) + if m(hi - 1) == k then f(hi - 1) else 0.0
  }

  lemma {:induction false} ShareSplit(f: nat -> real, m: nat -> nat, k: nat, lo: nat, mid: nat, hi: nat)
    requires lo <= mid <= hi
    ensures Share(f, m, k, lo, hi) == Share(f, m, k, lo, mid) + Share(f, m, k, mid, hi)
    decreases hi
  {
    if mid < hi { ShareSplit(f, m, k, lo, mid, hi - 1); }
  }

  /** A stretch that lies in one slot is shared by no other. */
  lemma {:induction false} ShareOfOneSlot(f: nat -> real, m: nat -> nat, k: nat, slot: nat, lo: nat, hi: nat)
    requires forall i :: lo <= i < hi ==> m(i) == slot
    ensures Share(f, m, k, lo, hi) == if k == slot then Part(f, lo, hi) else 0.0
    decreases hi
  {
    if lo < hi { ShareOfOneSlot(f, m, k, slot, lo, hi - 1); }
  }

  // --------------------------------------------------------------- grain cuts

  function Block(i: nat, grain: nat): nat
    requires grain > 0
  {
    i / grain
  }

  /** The next canonical boundary after b, or end if that comes first. */
  function NextCut(b: nat, end: nat, grain: nat): nat
    requires grain > 0 && b < end
  {
    var c := b + (grain - b % grain);
    if c < end then c else end
  }

  lemma CutStaysInBlock(b: nat, end: nat, grain: nat)
    requires grain > 0 && b < end
    ensures b < NextCut(b, end, grain) <= end
    ensures forall i: nat :: b <= i < NextCut(b, end, grain) ==> Block(i, grain) == Block(b, grain)
  {
    var q, r := b / grain, b % grain;
    assert b == q * grain + r;
    forall i: nat | b <= i < b + (grain - r) ensures i / grain == q {
      QuotientIs(i, grain, q);
    }
  }

  lemma QuotientIs(i: nat, grain: nat, q: nat)
    requires grain > 0 && q * grain <= i < q * grain + grain
    ensures i / grain == q
  {
    var d := i / grain - q;
    assert i == (i / grain) * grain + i % grain;
    assert (i / grain) * grain == q * grain + d * grain;
    R.MulGrows(d, grain);
  }

  /** Slot of element i of a task whose slots start at `offset`. */
  function SlotMap(offset: nat, grain: nat): nat -> nat
    requires grain > 0
  {
    (i: nat) => offset + Block(i, grain)
  }

  /** One round of the loop in `slotAccumulate`: sum up to the next canonical
    * boundary and add the result into that block's slot. */
  method AddFragment(sums: array<real>, b: nat, end: nat, grain: nat, offset: nat, f: nat -> real)
    returns (e: nat)
    requires grain > 0 && b < end && offset + Block(b, grain) < sums.Length
    modifies sums
    ensures b < e <= end
    ensures forall k :: 0 <= k < sums.Length ==>
      sums[k] == old(sums[k]) + Share(f, SlotMap(offset, grain), k, b, e)
  {
    e := NextCut(b, end, grain);
    CutStaysInBlock(b, end, grain);
    var local := 0.0;
    for j := b to e
      invariant local == Part(f, b, j)
    {
      local := local + f(j);
    }
    var slot := offset + Block(b, grain);
    forall k: nat ensures Share(f, SlotMap(offset, grain), k, b, e) == if k == slot then Part(f, b, e) else 0.0 {
      ShareOfOneSlot(f, SlotMap(offset, grain), k, slot, b, e);
    }
    sums[slot] := sums[slot] + local;
  }

  /** `slotAccumulate` on one leaf, undisturbed. */
  method SlotAccumulate(sums: array<real>, begin: nat, end: nat, grain: nat, offset: nat, f: nat -> real)
    requires grain > 0 && begin <= end
    requires forall i: nat :: begin <= i < end ==> offset + Block(i, grain) < sums.Length
    modifies sums
    ensures forall k :: 0 <= k < sums.Length ==>
      sums[k] == old(sums[k]) + Share(f, SlotMap(offset, grain), k, begin, end)
  {
    var b := begin;
    while b < end
      invariant begin <= b <= end
      invariant forall k :: 0 <= k < sums.Length ==>
        sums[k] == old(sums[k]) + Share(f, SlotMap(offset, grain), k, begin, b)
    {
      var e := AddFragment(sums, b, end, grain, offset, f);
      forall k: nat ensures Share(f, SlotMap(offset, grain), k, begin, e)
        == Share(f, SlotMap(offset, grain), k, begin, b) + Share(f, SlotMap(offset, grain), k, b, e)
      {
        ShareSplit(f, SlotMap(offset, grain), k, begin, b, e);
      }
      b := e;
    }
  }

  // ------------------------------------------------------- leaves in any order

  /** A leaf of the range of one task, as some partitioner cut it. */
  datatype Leaf = Leaf(task: nat, begin: nat, end: nat)

  /** The values of one task's elements. */
  function Row(elem: (nat, nat) -> real, task: nat): nat -> real {
    (j: nat) => elem(task, j)
  }

  /** What slot k has received when leaf x has got as far as cur[x]. */
  ghost function Gains(elem: (nat, nat) -> real, offsets: seq<nat>, grain: nat, leaves: seq<Leaf>, cur: seq<nat>, k: nat): real
    requires grain > 0 && |cur| == |leaves| && forall x :: 0 <= x < |leaves| ==> leaves[x].task < |offsets|
  {
    if |leaves| == 0 then 0.0
    else
      var m := |leaves| - 1;
      Gains(elem, offsets, grain, leaves[..m], cur[..m], k) + Gain(elem, offsets, grain, leaves[m], cur[m], k)
  }

  ghost function Gain(elem: (nat, nat) -> real, offsets: seq<nat>, grain: nat, leaf: Leaf, upto: nat, k: nat): real
    requires grain > 0 && leaf.task < |offsets|
  {
    Share(Row(elem, leaf.task), SlotMap(offsets[leaf.task], grain), k, leaf.begin, upto)
  }

  lemma {:induction false} GainsStep(elem: (nat, nat) -> real, offsets: seq<nat>, grain: nat, leaves: seq<Leaf>,
                                     cur: seq<nat>, x: nat, e: nat, k: nat)
    requires grain > 0 && |cur| == |leaves| && forall y :: 0 <= y < |leaves| ==> leaves[y].task < |offsets|
    requires x < |leaves|
    ensures Gains(elem, offsets, grain, leaves, cur[x := e], k) - Gain(elem, offsets, grain, leaves[x], e, k)
         == Gains(elem, offsets, grain, leaves, cur, k) - Gain(elem, offsets, grain, leaves[x], cur[x], k)
  {
    var m := |leaves| - 1;
    if x < m {
      GainsStep(elem, offsets, grain, leaves[..m], cur[..m], x, e, k);
      assert cur[x := e][..m] == cur[..m][x := e];
    } else {
      assert cur[x := e][..m] == cur[..m];
    }
  }

  lemma {:induction false} GainsBegin(elem: (nat, nat) -> real, offsets: seq<nat>, grain: nat, leaves: seq<Leaf>, k: nat)
    requires grain > 0 && forall y :: 0 <= y < |leaves| ==> leaves[y].task < |offsets|
    ensures Gains(elem, offsets, grain, leaves, Begins(leaves), k) == 0.0
  {
    if |leaves| > 0 {
      var m := |leaves| - 1;
      GainsBegin(elem, offsets, grain, leaves[..m], k);
      assert Begins(leaves)[..m] == Begins(leaves[..m]);
    }
  }

  function Begins(leaves: seq<Leaf>): seq<nat> {
    seq(|leaves|, x requires 0 <= x < |leaves| => leaves[x].begin)
  }

  function Ends(leaves: seq<Leaf>): seq<nat> {
    seq(|leaves|, x requires 0 <= x < |leaves| => leaves[x].end)
  }

  /** Elements not yet summed. */
  ghost function Left(ends: seq<nat>, cur: seq<nat>): int
    requires |ends| == |cur|
  {
    if |ends| == 0 then 0
    else Left(ends[..|ends| - 1], cur[..|ends| - 1]) + ends[|ends| - 1] - cur[|ends| - 1]
  }

  lemma {:induction false} LeftShrinks(ends: seq<nat>, cur: seq<nat>, x: nat, e: nat)
    requires |ends| == |cur| && x < |ends| && forall y :: 0 <= y < |ends| ==> cur[y] <= ends[y]
    requires cur[x] < e <= ends[x]
    ensures 0 <= Left(ends, cur[x := e]) < Left(ends, cur)
  {
    var m := |ends| - 1;
    if x < m {
      assert cur[x := e][..m] == cur[..m][x := e];
      LeftShrinks(ends[..m], cur[..m], x, e);
    } else {
      assert cur[x := e][..m] == cur[..m];
      LeftNat(ends[..m], cur[..m]);
    }
  }

  lemma {:induction false} LeftNat(ends: seq<nat>, cur: seq<nat>)
    requires |ends| == |cur| && forall y :: 0 <= y < |ends| ==> cur[y] <= ends[y]
    ensures Left(ends, cur) >= 0
  {
    if |ends| > 0 { LeftNat(ends[..|ends| - 1], cur[..|ends| - 1]); }
  }

  /** Every leaf is a part of its task, and its slots exist. */
  ghost predicate Placed(leaves: seq<Leaf>, offsets: seq<nat>, grain: nat, slots: nat)
    requires grain > 0
  {
    forall x :: 0 <= x < |leaves| ==>
      && leaves[x].task < |offsets| && leaves[x].begin <= leaves[x].end
      && forall i: nat :: leaves[x].begin <= i < leaves[x].end ==> offsets[leaves[x].task] + Block(i, grain) < slots
  }

  ghost predicate Running(cur: seq<nat>, leaves: seq<Leaf>)
    requires |cur| == |leaves|
  {
    forall x :: 0 <= x < |leaves| ==> leaves[x].begin <= cur[x] <= leaves[x].end
  }

  /** All leaves at once, on any number of threads: whoever is next adds its next
    * fragment. Each slot ends up with the sum of what the leaves share into it. */
  method RunLeaves(sums: array<real>, leaves: seq<Leaf>, grain: nat, offsets: seq<nat>, elem: (nat, nat) -> real)
    requires grain > 0 && Placed(leaves, offsets, grain, sums.Length)
    modifies sums
    ensures forall k :: 0 <= k < sums.Length ==>
      sums[k] == old(sums[k]) + Gains(elem, offsets, grain, leaves, Ends(leaves), k)
  {
    var cur, ends := Begins(leaves), Ends(leaves);
    forall k: nat ensures Gains(elem, offsets, grain, leaves, cur, k) == 0.0 {
      GainsBegin(elem, offsets, grain, leaves, k);
    }
    while exists x: nat :: x < |leaves| && cur[x] < ends[x]
      invariant |cur| == |leaves| && Running(cur, leaves)
      invariant forall k :: 0 <= k < sums.Length ==>
        sums[k] == old(sums[k]) + Gains(elem, offsets, grain, leaves, cur, k)
      decreases Left(ends, cur)
    {
      var x: nat :| x < |leaves| && cur[x] < ends[x];
      var leaf := leaves[x];
      var e := AddFragment(sums, cur[x], leaf.end, grain, offsets[leaf.task], Row(elem, leaf.task));
      forall k: nat
        ensures Gains(elem, offsets, grain, leaves, cur[x := e], k)
             == Gains(elem, offsets, grain, leaves, cur, k)
              + Share(Row(elem, leaf.task), SlotMap(offsets[leaf.task], grain), k, cur[x], e)
      {
        GainsStep(elem, offsets, grain, leaves, cur, x, e, k);
        ShareSplit(Row(elem, leaf.task), SlotMap(offsets[leaf.task], grain), k, leaf.begin, cur[x], e);
      }
      LeftShrinks(ends, cur, x, e);
      cur := cur[x := e];
    }
    assert cur == ends;
  }

  // --------------------------------------------------- any partition, same slots

  /** How many leaves contain element j of task t. */
  ghost function Cover(leaves: seq<Leaf>, t: nat, j: nat): nat {
    if |leaves| == 0 then 0
    else
      var leaf := leaves[|leaves| - 1];
      Cover(leaves[..|leaves| - 1], t, j) + if leaf.task == t && leaf.begin <= j < leaf.end then 1 else 0
  }

  /** The leaves cut each task's range into pieces: every element is in exactly one. */
  ghost predicate Partition(leaves: seq<Leaf>, sizes: seq<nat>) {
    && (forall x :: 0 <= x < |leaves| ==>
          leaves[x].task < |sizes| && leaves[x].begin <= leaves[x].end <= sizes[leaves[x].task])
    && (forall t: nat, j: nat :: t < |sizes| && j < sizes[t] ==> Cover(leaves, t, j) == 1)
  }

  /** v added up n times. */
  ghost function Times(n: nat, v: real): real {
    if n == 0 then 0.0 else Times(n - 1, v) + v
  }

  /** Slot k's sum with every element counted as often as leaves contain it. */
  ghost function Counted(f: nat -> real, m: nat -> nat, k: nat, leaves: seq<Leaf>, t: nat, hi: nat): real {
    if hi == 0 then 0.0
    else
      var term := if m(hi - 1) == k then Times(Cover(leaves, t, hi - 1), f(hi - 1)) else 0.0;
      Counted(f, m, k, leaves, t, hi - 1) + term
  }

  lemma {:induction false} CountedNext(f: nat -> real, m: nat -> nat, k: nat, leaves: seq<Leaf>, t: nat, hi: nat)
    requires |leaves| > 0
    ensures var leaf := leaves[|leaves| - 1];
      Counted(f, m, k, leaves, t, hi) == Counted(f, m, k, leaves[..|leaves| - 1], t, hi)
        + if leaf.task == t then Share(f, m, k, leaf.begin, if leaf.end < hi then leaf.end else hi) else 0.0
  {
    if hi > 0 {
      CountedNext(f, m, k, leaves, t, hi - 1);
    }
  }

  lemma {:induction false} CountedOnce(f: nat -> real, m: nat -> nat, k: nat, leaves: seq<Leaf>, t: nat, hi: nat)
    requires forall j: nat :: j < hi ==> Cover(leaves, t, j) == 1
    ensures Counted(f, m, k, leaves, t, hi) == Share(f, m, k, 0, hi)
  {
    if hi > 0 {
      CountedOnce(f, m, k, leaves, t, hi - 1);
      assert Times(1, f(hi - 1)) == Times(0, f(hi - 1)) + f(hi - 1);
    }
  }

  lemma {:induction false} CountedNone(f: nat -> real, m: nat -> nat, k: nat, t: nat, hi: nat)
    ensures Counted(f, m, k, [], t, hi) == 0.0
  {
    if hi > 0 { CountedNone(f, m, k, t, hi - 1); }
  }

  // ------------------------------------------------------------- chunk offsets

  /** The chunks a task of the given size needs. */
  function Chunks(size: nat, grain: nat): nat
    requires grain > 0
  {
    (size + grain - 1) / grain
  }

  lemma ElementInChunk(j: nat, size: nat, grain: nat)
    requires grain > 0 && j < size
    ensures Block(j, grain) < Chunks(size, grain)
  {
    var q := size + grain - 1;
    assert j == (j / grain) * grain + j % grain && q == (q / grain) * grain + q % grain;
    var d := j / grain - q / grain;
    assert (j / grain) * grain == (q / grain) * grain + d * grain;
    R.MulGrows(d, grain);
  }

  /** c chunks of the grain are needed for the given size, and no more. */
  predicate JustEnough(c: nat, size: nat, grain: nat) {
    size <= c * grain && (c > 0 ==> (c - 1) * grain < size)
  }

  lemma ChunksJustEnough(size: nat, grain: nat)
    requires grain > 0
    ensures JustEnough(Chunks(size, grain), size, grain)
  {
    var q := size + grain - 1;
    var c := q / grain;
    assert q == c * grain + q % grain;
    assert (c - 1) * grain == c * grain - grain;
  }

  /** `chunk_offsets`: where each task's slots start, and the total at the end. */
  ghost predicate OffsetsOf(offsets: seq<nat>, sizes: seq<nat>, grain: nat)
    requires grain > 0
  {
    && |offsets| == |sizes| + 1 && offsets[0] == 0
    && forall t :: 0 <= t < |sizes| ==> offsets[t + 1] == offsets[t] + Chunks(sizes[t], grain)
  }

  /** The loop in `Case3Spec::make`. */
  method MakeOffsets(sizes: seq<nat>, grain: nat) returns (offsets: seq<nat>)
    requires grain > 0
    ensures OffsetsOf(offsets, sizes, grain)
    ensures forall t :: 0 <= t < |sizes| ==>
      offsets[t] <= offsets[t + 1] && JustEnough(offsets[t + 1] - offsets[t], sizes[t], grain)
  {
    hide Chunks, JustEnough;
    offsets := [0];
    for t := 0 to |sizes|
      invariant OffsetsOf(offsets, sizes[..t], grain)
    {
      offsets := offsets + [offsets[|offsets| - 1] + Chunks(sizes[t], grain)];
    }
    assert sizes[..|sizes|] == sizes;
    forall t | 0 <= t < |sizes| ensures JustEnough(Chunks(sizes[t], grain), sizes[t], grain) {
      ChunksJustEnough(sizes[t], grain);
    }
  }

  lemma {:induction false} OffsetsGrow(offsets: seq<nat>, sizes: seq<nat>, grain: nat, t: nat, u: nat)
    requires grain > 0 && OffsetsOf(offsets, sizes, grain) && t <= u <= |sizes|
    ensures offsets[t] <= offsets[u]
    decreases u
  {
    if t < u { OffsetsGrow(offsets, sizes, grain, t, u - 1); }
  }

  /** Element j of task t falls into task t's own slots, and those belong to no
    * other task. */
  lemma OwnSlots(offsets: seq<nat>, sizes: seq<nat>, grain: nat, t: nat, j: nat)
    requires grain > 0 && OffsetsOf(offsets, sizes, grain) && t < |sizes| && j < sizes[t]
    ensures offsets[t] <= SlotMap(offsets[t], grain)(j) < offsets[t + 1] <= offsets[|sizes|]
  {
    ElementInChunk(j, sizes[t], grain);
    OffsetsGrow(offsets, sizes, grain, t + 1, |sizes|);
  }

  /** And every one of its slots gets at least one of its elements. */
  lemma SlotsUsed(offsets: seq<nat>, sizes: seq<nat>, grain: nat, t: nat, k: nat)
    requires grain > 0 && OffsetsOf(offsets, sizes, grain) && t < |sizes|
    ensures offsets[t] <= k < offsets[t + 1] <==> exists j: nat :: j < sizes[t] && SlotMap(offsets[t], grain)(j) == k
  {
    if offsets[t] <= k < offsets[t + 1] {
      var b := k - offsets[t];
      ChunksJustEnough(sizes[t], grain);
      R.MulGrows(Chunks(sizes[t], grain) - 1 - b, grain);
      assert (Chunks(sizes[t], grain) - 1 - b) * grain == (Chunks(sizes[t], grain) - 1) * grain - b * grain;
      assert b * grain >= 0;
      BlockOf(b * grain, grain, b);
      assert SlotMap(offsets[t], grain)(b * grain) == k;
    }
    forall j: nat | j < sizes[t] ensures offsets[t] <= SlotMap(offsets[t], grain)(j) < offsets[t + 1] {
      OwnSlots(offsets, sizes, grain, t, j);
    }
  }

  lemma SlotsDisjoint(offsets: seq<nat>, sizes: seq<nat>, grain: nat, t: nat, u: nat, k: nat)
    requires grain > 0 && OffsetsOf(offsets, sizes, grain) && t < |sizes| && u < |sizes| && t != u
    requires offsets[t] <= k < offsets[t + 1]
    ensures !(offsets[u] <= k < offsets[u + 1])
  {
    if t < u { OffsetsGrow(offsets, sizes, grain, t + 1, u); } else { OffsetsGrow(offsets, sizes, grain, u + 1, t); }
  }

  lemma PartitionIsPlaced(leaves: seq<Leaf>, offsets: seq<nat>, sizes: seq<nat>, grain: nat)
    requires grain > 0 && OffsetsOf(offsets, sizes, grain) && Partition(leaves, sizes)
    ensures Placed(leaves, offsets, grain, offsets[|sizes|])
  {
    forall x, i: nat | 0 <= x < |leaves| && leaves[x].begin <= i < leaves[x].end
      ensures offsets[leaves[x].task] + Block(i, grain) < offsets[|sizes|]
    {
      OwnSlots(offsets, sizes, grain, leaves[x].task, i);
    }
  }

  /** What slot k of task t must hold: the sum of its canonical grain block. */
  ghost function Canonical(elem: (nat, nat) -> real, offsets: seq<nat>, sizes: seq<nat>, grain: nat, t: nat, k: nat): real
    requires grain > 0 && t < |sizes| && |offsets| == |sizes| + 1
  {
    Share(Row(elem, t), SlotMap(offsets[t], grain), k, 0, sizes[t])
  }

  /** In plain words: slot b of a task is the serial sum of its b-th grain block. */
  lemma CanonicalIsBlock(elem: (nat, nat) -> real, offsets: seq<nat>, sizes: seq<nat>, grain: nat, t: nat, b: nat)
    requires grain > 0 && OffsetsOf(offsets, sizes, grain) && t < |sizes| && b < Chunks(sizes[t], grain)
    ensures var lo, hi, size := b * grain, (b + 1) * grain, sizes[t];
      Canonical(elem, offsets, sizes, grain, t, offsets[t] + b) == Part(Row(elem, t), lo, if hi < size then hi else size)
  {
    var size, f, m, k := sizes[t], Row(elem, t), SlotMap(offsets[t], grain), offsets[t] + b;
    var lo: nat := b * grain;
    var end: nat := lo + grain;
    assert (b + 1) * grain == end;
    BlockStarts(size, grain, b);
    var hi := if end < size then end else size;
    forall i: nat ensures i < lo ==> m(i) != k
                  ensures lo <= i < end ==> m(i) == k
                  ensures end <= i ==> m(i) != k
    {
      BlockOf(i, grain, b);
    }
    hide Row, SlotMap, Chunks, OffsetsOf;
    ShareSplit(f, m, k, 0, lo, size);
    ShareSplit(f, m, k, lo, hi, size);
    ShareElsewhere(f, m, k, 0, lo);
    ShareOfOneSlot(f, m, k, k, lo, hi);
    ShareElsewhere(f, m, k, hi, size);
  }

  /** A chunk of a task starts inside it. */
  lemma BlockStarts(size: nat, grain: nat, b: nat)
    requires grain > 0 && b < Chunks(size, grain)
    ensures b * grain <= size
  {
    var n := size + grain - 1;
    var d := n / grain - b - 1;
    assert n == (n / grain) * grain + n % grain;
    assert (n / grain) * grain == b * grain + grain + d * grain;
    R.MulGrows(d, grain);
  }

  /** Which elements lie in block b. */
  lemma BlockOf(i: nat, grain: nat, b: nat)
    requires grain > 0
    ensures Block(i, grain) == b <==> b * grain <= i < b * grain + grain
  {
    var d := i / grain - b;
    assert i == (i / grain) * grain + i % grain;
    assert (i / grain) * grain == b * grain + d * grain;
    R.MulGrows(d, grain);
  }

  lemma {:induction false} ShareElsewhere(f: nat -> real, m: nat -> nat, k: nat, lo: nat, hi: nat)
    requires forall i :: lo <= i < hi ==> m(i) != k
    ensures Share(f, m, k, lo, hi) == 0.0
    decreases hi
  {
    if lo < hi { ShareElsewhere(f, m, k, lo, hi - 1); }
  }

  /** One more leaf: it adds to slot k only if it is task t's. */
  lemma GainIsOwners(elem: (nat, nat) -> real, offsets: seq<nat>, sizes: seq<nat>, grain: nat, leaf: Leaf, t: nat, k: nat)
    requires grain > 0 && OffsetsOf(offsets, sizes, grain) && t < |sizes| && offsets[t] <= k < offsets[t + 1]
    requires leaf.task < |sizes| && leaf.begin <= leaf.end <= sizes[leaf.task]
    ensures leaf.task != t ==> Gain(elem, offsets, grain, leaf, leaf.end, k) == 0.0
  {
    if leaf.task != t {
      SlotsDisjoint(offsets, sizes, grain, t, leaf.task, k);
      var m := SlotMap(offsets[leaf.task], grain);
      forall i: nat | leaf.begin <= i < leaf.end ensures m(i) != k { OwnSlots(offsets, sizes, grain, leaf.task, i); }
      ShareElsewhere(Row(elem, leaf.task), m, k, leaf.begin, leaf.end);
    }
  }

  /** The leaves that gained slot k, counted element by element. */
  lemma {:induction false} GainsAreCounted(elem: (nat, nat) -> real, offsets: seq<nat>, sizes: seq<nat>, grain: nat,
                                           leaves: seq<Leaf>, t: nat, k: nat)
    requires grain > 0 && OffsetsOf(offsets, sizes, grain) && t < |sizes| && offsets[t] <= k < offsets[t + 1]
    requires forall x :: 0 <= x < |leaves| ==>
      leaves[x].task < |sizes| && leaves[x].begin <= leaves[x].end <= sizes[leaves[x].task]
    ensures Gains(elem, offsets, grain, leaves, Ends(leaves), k)
         == Counted(Row(elem, t), SlotMap(offsets[t], grain), k, leaves, t, sizes[t])
  {
    OffsetsLength(offsets, sizes, grain);
    hide OffsetsOf, SlotMap, Row;
    if |leaves| == 0 {
      CountedNone(Row(elem, t), SlotMap(offsets[t], grain), k, t, sizes[t]);
    } else {
      var m := |leaves| - 1;
      assert Ends(leaves)[..m] == Ends(leaves[..m]);
      GainsAreCounted(elem, offsets, sizes, grain, leaves[..m], t, k);
      GainIsOwners(elem, offsets, sizes, grain, leaves[m], t, k);
      CountedNext(Row(elem, t), SlotMap(offsets[t], grain), k, leaves, t, sizes[t]);
    }
  }

  /** The cuts do not matter: for every partition into leaves, aligned or not, slot
    * k of task t receives the sum of its canonical block and nothing else. */
  lemma AnyPartitionSameSlots(elem: (nat, nat) -> real, offsets: seq<nat>, sizes: seq<nat>, grain: nat,
                              leaves: seq<Leaf>, t: nat, k: nat)
    requires grain > 0 && OffsetsOf(offsets, sizes, grain) && t < |sizes| && offsets[t] <= k < offsets[t + 1]
    requires Partition(leaves, sizes)
    ensures Gains(elem, offsets, grain, leaves, Ends(leaves), k) == Canonical(elem, offsets, sizes, grain, t, k)
  {
    GainsAreCounted(elem, offsets, sizes, grain, leaves, t, k);
    CountedOnce(Row(elem, t), SlotMap(offsets[t], grain), k, leaves, t, sizes[t]);
  }

  // --------------------------------------------------------------------- merge

  ghost function SumOf(sums: seq<real>, lo: nat, hi: nat): real
    requires hi <= |sums|
    decreases hi
  {
    if hi <= lo then 0.0 else SumOf(sums, lo, hi - 1) + sums[hi - 1]
  }

  lemma {:induction false} SumSplit(sums: seq<real>, lo: nat, mid: nat, hi: nat)
    requires lo <= mid <= hi <= |sums|
    ensures SumOf(sums, lo, hi) == SumOf(sums, lo, mid) + SumOf(sums, mid, hi)
    decreases hi
  {
    if mid < hi { SumSplit(sums, lo, mid, hi - 1); }
  }

  /** `slotMerge`. */
  method SlotMerge(sums: array<real>) returns (total: real)
    ensures total == SumOf(sums[..], 0, sums.Length)
  {
    total := 0.0;
    for k := 0 to sums.Length
      invariant total == SumOf(sums[..], 0, k)
    {
      total := total + sums[k];
    }
  }

  /** A range of slots that holds all of a sum's shares adds up to the sum. */
  lemma {:induction false} SharesAddUp(f: nat -> real, m: nat -> nat, sums: seq<real>, lo: nat, hi: nat, n: nat)
    requires lo <= hi <= |sums| && forall k :: lo <= k < hi ==> sums[k] == Share(f, m, k, 0, n)
    requires forall i :: 0 <= i < n ==> lo <= m(i) < hi
    ensures SumOf(sums, lo, hi) == Part(f, 0, n)
    decreases n
  {
    if n == 0 {
      SumZero(sums, lo, hi);
    } else {
      var slot := m(n - 1);
      var before := sums[slot := sums[slot] - f(n - 1)];
      forall k | lo <= k < hi && k != slot ensures before[k] == Share(f, m, k, 0, n - 1) {}
      SharesAddUp(f, m, before, lo, hi, n - 1);
      SumChange(sums, lo, hi, slot, before[slot]);
    }
  }

  lemma {:induction false} SumZero(sums: seq<real>, lo: nat, hi: nat)
    requires lo <= hi <= |sums| && forall k :: lo <= k < hi ==> sums[k] == 0.0
    ensures SumOf(sums, lo, hi) == 0.0
    decreases hi
  {
    if lo < hi { SumZero(sums, lo, hi - 1); }
  }

  lemma {:induction false} SumChange(sums: seq<real>, lo: nat, hi: nat, k: nat, v: real)
    requires lo <= k < hi <= |sums|
    ensures SumOf(sums[k := v], lo, hi) == SumOf(sums, lo, hi) - sums[k] + v
    decreases hi
  {
    if k == hi - 1 { SumSame(sums, k, v, lo, k); } else { SumChange(sums, lo, hi - 1, k, v); }
  }

  lemma {:induction false} SumSame(sums: seq<real>, k: nat, v: real, lo: nat, hi: nat)
    requires hi <= k < |sums|
    ensures SumOf(sums[k := v], lo, hi) == SumOf(sums, lo, hi)
    decreases hi
  {
    if lo < hi { SumSame(sums, k, v, lo, hi - 1); }
  }

  /** `totalReference`: the serial sums of the first t tasks. */
  ghost function Reference(elem: (nat, nat) -> real, sizes: seq<nat>, t: nat): real
    requires t <= |sizes|
  {
    if t == 0 then 0.0 else Reference(elem, sizes, t - 1) + Part(Row(elem, t - 1), 0, sizes[t - 1])
  }

  lemma {:induction false} MergeIsReference(elem: (nat, nat) -> real, offsets: seq<nat>, sizes: seq<nat>, grain: nat,
                                            sums: seq<real>, t: nat)
    requires grain > 0 && OffsetsOf(offsets, sizes, grain) && t <= |sizes| && |sums| == offsets[|sizes|]
    requires forall u, k :: 0 <= u < |sizes| && offsets[u] <= k < offsets[u + 1] && k < |sums| ==>
      sums[k] == Canonical(elem, offsets, sizes, grain, u, k)
    ensures offsets[t] <= |sums| && SumOf(sums, 0, offsets[t]) == Reference(elem, sizes, t)
  {
    OffsetsGrow(offsets, sizes, grain, t, |sizes|);
    if t > 0 {
      MergeIsReference(elem, offsets, sizes, grain, sums, t - 1);
      var u := t - 1;
      forall j: nat | j < sizes[u] ensures offsets[u] <= SlotMap(offsets[u], grain)(j) < offsets[t] {
        OwnSlots(offsets, sizes, grain, u, j);
      }
      SumSplit(sums, 0, offsets[u], offsets[t]);
      SharesAddUp(Row(elem, u), SlotMap(offsets[u], grain), sums, offsets[u], offsets[t], sizes[u]);
    }
  }

  /** `case3_nested`: whatever leaves the partitioner makes of the tasks' ranges and
    * in whatever order they run, the merged slots are the serial reference. */
  method Nested(sizes: seq<nat>, grain: nat, leaves: seq<Leaf>, elem: (nat, nat) -> real) returns (total: real)
    requires grain > 0 && Partition(leaves, sizes)
    ensures total == Reference(elem, sizes, |sizes|)
  {
    var offsets := MakeOffsets(sizes, grain);
    var sums := new real[offsets[|sizes|]](_ => 0.0);
    PartitionIsPlaced(leaves, offsets, sizes, grain);
    hide *;
    assert |offsets| == |sizes| + 1 by { OffsetsLength(offsets, sizes, grain); }
    RunLeaves(sums, leaves, grain, offsets, elem);
    PlacedTasks(leaves, sizes);
    forall u: nat, k: nat | u < |sizes| && offsets[u] <= k < offsets[u + 1] && k < sums.Length
      ensures sums[..][k] == Canonical(elem, offsets, sizes, grain, u, k)
    {
      AnyPartitionSameSlots(elem, offsets, sizes, grain, leaves, u, k);
    }
    MergeIsReference(elem, offsets, sizes, grain, sums[..], |sizes|);
    total := SlotMerge(sums);
  }

  lemma OffsetsLength(offsets: seq<nat>, sizes: seq<nat>, grain: nat)
    requires grain > 0 && OffsetsOf(offsets, sizes, grain)
    ensures |offsets| == |sizes| + 1
  {
  }

  lemma PlacedTasks(leaves: seq<Leaf>, sizes: seq<nat>)
    requires Partition(leaves, sizes)
    ensures forall x :: 0 <= x < |leaves| ==> leaves[x].task < |sizes|
  {
  }
}
