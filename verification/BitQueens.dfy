/** Bitmask backtracking: the explicit-stack search of nqueens.h, the recursion
  * of nqueens_opt_mt.cc and the row-indexed masks of nqueens_opt.cc. */
module BitQueens {
  import opened Queens
  import opened BitMask

  // --------------------------------------------------------- masks and boards

  /** Column i of the next row is hit along a diagonal that moves one bit right per row. */
  ghost predicate OnLeft(b: Board, i: nat) {
    exists r :: 0 <= r < |b| && b[r] == i + (|b| - r)
  }

  /** Column i of the next row is hit along a diagonal that moves one bit left per row. */
  ghost predicate OnRight(b: Board, i: nat) {
    exists r :: 0 <= r < |b| && b[r] + (|b| - r) == i
  }

  /** What the running masks mean. `diag` is exact in every bit because its bits
    * come down into the board; `cols` and `anti` only matter below n. */
  ghost predicate Tracks(n: nat, b: Board, cols: bv32, diag: bv32, anti: bv32) {
    && (forall i: nat :: i < n ==> (Bit(cols, i) <==> i in b))
    && (forall i: nat :: Bit(diag, i) <==> OnLeft(b, i))
    && (forall i: nat :: i < n ==> (Bit(anti, i) <==> OnRight(b, i)))
  }

  /** `avail` holds exactly the safe columns from lo on. */
  ghost predicate Candidates(n: nat, b: Board, avail: bv32, lo: nat) {
    forall i: nat :: Bit(avail, i) <==> lo <= i < n && Safe(b + [i])
  }

  lemma FreeIsSafe(n: nat, b: Board, i: nat)
    requires Safe(b)
    ensures Safe(b + [i]) <==> !(i in b || OnLeft(b, i) || OnRight(b, i))
  {
    var q := b + [i];
    assert forall r :: 0 <= r < |b| ==> q[r] == b[r];
    if r :| 0 <= r < |b| && Attacks(b[r], i, |b| - r) {
      assert Attacks(q[r], q[|b|], |b| - r);
    } else {
      forall r, s | 0 <= r < s < |q| ensures !Attacks(q[r], q[s], s - r) {
        assert s < |b| ==> !Attacks(b[r], b[s], s - r);
      }
    }
  }

  lemma TracksEmpty(n: nat)
    ensures Tracks(n, [], 0, 0, 0)
  {
    forall i: nat ensures !Bit(0, i) { BitZero(i); }
  }

  lemma PushLeft(b: Board, x: nat, i: nat)
    ensures OnLeft(b + [x], i) <==> OnLeft(b, i + 1) || i + 1 == x
  {
    var q := b + [x];
    assert q[|b|] == x && forall r :: 0 <= r < |b| ==> q[r] == b[r];
  }

  lemma PushRight(b: Board, x: nat, i: nat)
    ensures OnRight(b + [x], i) <==> i > 0 && (OnRight(b, i - 1) || i - 1 == x)
  {
    var q := b + [x];
    assert q[|b|] == x && forall r :: 0 <= r < |b| ==> q[r] == b[r];
    if i > 0 && OnRight(b, i - 1) {
      var r :| 0 <= r < |b| && b[r] + (|b| - r) == i - 1;
      assert q[r] + (|q| - r) == i;
    }
  }

  // The words the solvers compute, named once.

  /** `~(cols | diag | anti | mask)` with mask = ~((1u << n) - 1). */
  function Avail(n: nat, cols: bv32, diag: bv32, anti: bv32): bv32 {
    Not(Or(Or(Or(cols, diag), anti), Not(Low(n))))
  }

  /** `cols | m` with m = 1u << i. */
  function NextCols(cols: bv32, i: nat): bv32 {
    Or(cols, Power(i))
  }

  /** `(diag | m) >> 1`. */
  function NextDiag(diag: bv32, i: nat): bv32 {
    Right(Or(diag, Power(i)))
  }

  /** `(anti | m) << 1`. */
  function NextAnti(anti: bv32, i: nat): bv32 {
    Left(Or(anti, Power(i)))
  }

  /** The candidates after column i: `before & ~((before & (m - 1)) | m)`. */
  function After(before: bv32, i: nat): bv32 {
    And(before, Not(Or(And(before, Low(i)), Power(i))))
  }

  /** `x & (x - 1)`. */
  function DropLowest(x: bv32): bv32 {
    And(x, x - 1)
  }

  lemma NextBits(cols: bv32, diag: bv32, anti: bv32, x: nat, i: nat)
    requires x < 31
    ensures Bit(NextCols(cols, x), i) <==> Bit(cols, i) || i == x
    ensures Bit(NextDiag(diag, x), i) <==> Bit(diag, i + 1) || i + 1 == x
    ensures i < 32 ==> (Bit(NextAnti(anti, x), i) <==> i > 0 && (Bit(anti, i - 1) || i - 1 == x))
  {
    var m := Power(x);
    hide Bit, Power, Or, Left, Right;
    BitOr(cols, m, i);
    BitPower(x, i);
    BitShiftRight(Or(diag, m), i);
    BitOr(diag, m, i + 1);
    BitPower(x, i + 1);
    if i < 32 {
      BitShiftLeft(Or(anti, m), i);
      if i > 0 {
        BitOr(anti, m, i - 1);
        BitPower(x, i - 1);
      }
    }
  }

  lemma AvailBits(n: nat, cols: bv32, diag: bv32, anti: bv32, i: nat)
    requires n < 32
    ensures Bit(Avail(n, cols, diag, anti), i) <==> i < n && !Bit(cols, i) && !Bit(diag, i) && !Bit(anti, i)
  {
    var mask, lines := Not(Low(n)), Or(Or(cols, diag), anti);
    var busy := Or(lines, mask);
    hide Bit, Power, Or, Not, Low;
    if i < 32 {
      BitNot(busy, i);
      BitOr(lines, mask, i);
      BitOr(Or(cols, diag), anti, i);
      BitOr(cols, diag, i);
      BitNot(Low(n), i);
      BitLow(n, i);
    } else {
      BitTop(Not(busy), i);
    }
  }

  lemma AfterBits(before: bv32, x: nat, i: nat)
    requires x < 32
    ensures Bit(After(before, x), i) <==> Bit(before, i) && i > x
  {
    var m := Power(x);
    var gone := Or(And(before, Low(x)), m);
    hide Bit, Power, Or, And, Not, Low;
    BitAnd(before, Not(gone), i);
    if i < 32 {
      BitNot(gone, i);
      BitOr(And(before, Low(x)), m, i);
      BitAnd(before, Low(x), i);
      BitLow(x, i);
      BitPower(x, i);
    } else {
      BitTop(before, i);
    }
  }

  /** Placing column x and shifting the diagonals one row on. */
  lemma TracksPush(n: nat, b: Board, cols: bv32, diag: bv32, anti: bv32, x: nat)
    requires n < 32 && x < n && Tracks(n, b, cols, diag, anti)
    ensures Tracks(n, b + [x], NextCols(cols, x), NextDiag(diag, x), NextAnti(anti, x))
  {
    hide Bit, OnLeft, OnRight, NextCols, NextDiag, NextAnti;
    forall i: nat
      ensures i < n ==> (Bit(NextCols(cols, x), i) <==> i in b + [x])
      ensures Bit(NextDiag(diag, x), i) <==> OnLeft(b + [x], i)
      ensures i < n ==> (Bit(NextAnti(anti, x), i) <==> OnRight(b + [x], i))
    {
      NextBits(cols, diag, anti, x, i);
      PushLeft(b, x, i);
      PushRight(b, x, i);
    }
  }

  /** The bits shifted out of the masks, and every bit from n on, are harmless. */
  lemma AvailIsCandidates(n: nat, b: Board, cols: bv32, diag: bv32, anti: bv32)
    requires n < 32 && Safe(b) && Tracks(n, b, cols, diag, anti)
    ensures Candidates(n, b, Avail(n, cols, diag, anti), 0)
  {
    hide Bit, OnLeft, OnRight, Safe, Avail;
    forall i: nat ensures Bit(Avail(n, cols, diag, anti), i) <==> i < n && Safe(b + [i]) {
      AvailBits(n, cols, diag, anti, i);
      FreeIsSafe(n, b, i);
    }
  }

  /** On return from column x the search resumes exactly at the later candidates. */
  lemma ResumeAfter(n: nat, b: Board, before: bv32, x: nat)
    requires x < n < 32 && Candidates(n, b, before, 0)
    ensures Candidates(n, b, After(before, x), x + 1)
  {
    hide Bit, Safe, After;
    forall i: nat ensures Bit(After(before, x), i) <==> x + 1 <= i < n && Safe(b + [i]) {
      AfterBits(before, x, i);
    }
  }

  /** Dropping the lowest candidate. */
  lemma NextCandidate(n: nat, b: Board, avail: bv32, lo: nat, i: nat)
    requires Candidates(n, b, avail, lo) && i < 32 && IsLowest(avail, i)
    ensures lo <= i < n && Safe(b + [i])
    ensures forall j :: lo <= j < i ==> !Safe(b + [j])
    ensures Candidates(n, b, DropLowest(avail), i + 1)
  {
    hide Bit, Safe, DropLowest;
    forall j: nat ensures Bit(DropLowest(avail), j) <==> i + 1 <= j < n && Safe(b + [j]) {
      DropBits(avail, i, j);
    }
  }

  lemma DropBits(x: bv32, i: nat, j: nat)
    requires i < 32 && IsLowest(x, i)
    ensures Bit(DropLowest(x), j) <==> Bit(x, j) && j != i
  {
    assert DropLowest(x) == And(x, x - 1);
    hide *;
    ClearLowest(x, i, j);
  }

  lemma NoCandidates(n: nat, b: Board, avail: bv32, lo: nat)
    requires Candidates(n, b, avail, lo) && avail == 0
    ensures forall j :: lo <= j < n ==> !Safe(b + [j])
  {
    hide Bit, Safe;
    forall j | lo <= j < n ensures !Safe(b + [j]) {
      BitZero(j);
    }
  }

  // ---------------------------------------------------- explicit-stack search

  datatype Frame = Frame(row: nat, cols: bv32, diag: bv32, anti: bv32, i: nat)

  /** Frame j holds the masks of row base + j and the column taken there. */
  ghost predicate StackTracks(n: nat, base: nat, b: Board, stack: seq<Frame>)
    requires base + |stack| <= |b|
  {
    forall j :: 0 <= j < |stack| ==>
      && stack[j].row == base + j
      && stack[j].i == b[base + j]
      && Tracks(n, b[..base + j], stack[j].cols, stack[j].diag, stack[j].anti)
  }

  lemma StackPush(n: nat, base: nat, b: Board, stack: seq<Frame>, x: nat, f: Frame)
    requires base + |stack| == |b| && StackTracks(n, base, b, stack)
    requires f.row == |b| && f.i == x && Tracks(n, b, f.cols, f.diag, f.anti)
    ensures StackTracks(n, base, b + [x], stack + [f])
  {
    hide Tracks;
    var q := b + [x];
    forall j | 0 <= j < |stack| + 1
      ensures var g := (stack + [f])[j];
        g.row == base + j && g.i == q[base + j] && Tracks(n, q[..base + j], g.cols, g.diag, g.anti)
    {
      assert q[..base + j] == b[..base + j];
      if j == |stack| { assert b[..|b|] == b; }
    }
  }

  lemma StackPop(n: nat, base: nat, b: Board, stack: seq<Frame>)
    requires |stack| > 0 && base + |stack| == |b| && StackTracks(n, base, b, stack)
    ensures var s, p := |stack| - 1, b[..|b| - 1];
      && StackTracks(n, base, p, stack[..s])
      && stack[s].row == |p| && stack[s].i == b[|p|]
      && Tracks(n, p, stack[s].cols, stack[s].diag, stack[s].anti)
  {
    hide Tracks;
    var p := b[..|b| - 1];
    forall j | 0 <= j < |stack|
      ensures var g := stack[j];
        g.row == base + j && g.i == b[base + j] && Tracks(n, p[..base + j], g.cols, g.diag, g.anti)
    {
      assert p[..base + j] == b[..base + j];
    }
    assert p[..|p|] == p;
  }

  /** One candidate consumed: counted when it completes the board, else descended into. */
  lemma CandidateStep(n: nat, base: nat, b: Board, lo: nat, i: nat)
    requires base <= |b| < n && InRange(b, n) && lo <= i < n && Safe(b + [i])
    requires forall j :: lo <= j < i ==> !Safe(b + [j])
    ensures InRange(b + [i], n)
    ensures |b| == n - 1 ==>
      Remaining(n, base, b, lo) == 1 + Remaining(n, base, b, i + 1) && Work(n, base, b, i + 1) < Work(n, base, b, lo)
    ensures |b| < n - 1 ==>
      Remaining(n, base, b, lo) == Remaining(n, base, b + [i], 0) && Work(n, base, b + [i], 0) < Work(n, base, b, lo)
  {
    hide Safe, Count, Work;
    SkipUnsafe(n, b, lo, i);
    if |b| == n - 1 {
      CompleteHasOne(n, b + [i]);
      WorkShrinks(n, base, b, lo, i + 1);
    } else {
      Descend(n, base, b, i);
      WorkDescends(n, base, b, lo, i);
    }
  }

  /** A row with no candidates left owes nothing more than its stack does. */
  lemma RowDone(n: nat, base: nat, b: Board, lo: nat)
    requires base <= |b| < n && Safe(b) && InRange(b, n) && lo <= n
    requires forall j :: lo <= j < n ==> !Safe(b + [j])
    ensures |b| == base ==> Remaining(n, base, b, lo) == 0
    ensures |b| > base ==> var p, x := b[..|b| - 1], b[|b| - 1];
      && b == p + [x] && x < n
      && Safe(p) && InRange(p, n)
      && Remaining(n, base, b, lo) == Remaining(n, base, p, x + 1)
      && Work(n, base, p, x + 1) < Work(n, base, b, lo)
  {
    SkipUnsafe(n, b, lo, n);
  }

  /** The loop shared by `solve_bitopt_serial` (first == []) and
    * `solve_bitopt_sub` (first == [col0]). On an already full board it counts
    * nothing: that is reached only by `solve_bitopt_sub(1, 0)`. */
  method BitStackSearch(n: nat, first: Board, cols0: bv32, diag0: bv32, anti0: bv32, stack: array<Frame>)
    returns (count: nat)
    requires 0 < n < 32 && n <= stack.Length
    requires |first| <= n
    requires Safe(first) && InRange(first, n) && Tracks(n, first, cols0, diag0, anti0)
    modifies stack
    ensures count == if |first| < n then Count(n, first) else 0
  {
    hide *;
    ghost var base := |first|;
    ghost var total := if |first| < n then Count(n, first) else 0;
    ghost var b, lo: nat := first, 0;
    var cols, diag, anti := cols0, diag0, anti0;
    var row: nat, sp: nat := |first|, 0;
    count := 0;
    var avail := Avail(n, cols, diag, anti);
    AvailIsCandidates(n, b, cols, diag, anti);
    Start(n, first);
    StackTracksEmpty(n, base, b, stack[..0]);
    if |first| == n { FullBoardStops(n, first, avail); }
    while true
      invariant base <= |b| <= n && b[..base] == first && row == |b| && sp == |b| - base && lo <= n
      invariant Safe(b) && InRange(b, n) && Tracks(n, b, cols, diag, anti) && Candidates(n, b, avail, lo)
      invariant StackTracks(n, base, b, stack[..sp])
      invariant |b| < n ==> count + Remaining(n, base, b, lo) == total
      invariant |b| == n ==> sp == 0 && avail == 0 && count == total
      decreases Work(n, base, b, lo)
    {
      if avail == 0 {
        NoCandidates(n, b, avail, lo);
        if |b| < n { RowDone(n, base, b, lo); }
        if sp == 0 { break; }
        StackPop(n, base, b, stack[..sp]);
        sp := sp - 1;
        assert stack[..sp + 1][..sp] == stack[..sp];
        row, cols, diag, anti := stack[sp].row, stack[sp].cols, stack[sp].diag, stack[sp].anti;
        var i := stack[sp].i;
        b, lo := b[..|b| - 1], i + 1;
        var before := Avail(n, cols, diag, anti);
        AvailIsCandidates(n, b, cols, diag, anti);
        ResumeAfter(n, b, before, i);
        avail := After(before, i);
        continue;
      }
      var i := CountTrailingZeros(avail);
      NextCandidate(n, b, avail, lo, i);
      CandidateStep(n, base, b, lo, i);
      if row == n - 1 {
        count := count + 1;
        avail := DropLowest(avail);
        lo := i + 1;
      } else {
        StackPush(n, base, b, stack[..sp], i, Frame(row, cols, diag, anti, i));
        TracksPush(n, b, cols, diag, anti, i);
        stack[sp] := Frame(row, cols, diag, anti, i);
        assert stack[..sp + 1] == stack[..sp] + [Frame(row, cols, diag, anti, i)];
        sp := sp + 1;
        cols, diag, anti := NextCols(cols, i), NextDiag(diag, i), NextAnti(anti, i);
        row := row + 1;
        b, lo := b + [i], 0;
        avail := Avail(n, cols, diag, anti);
        AvailIsCandidates(n, b, cols, diag, anti);
      }
    }
  }

  lemma StackTracksEmpty(n: nat, base: nat, b: Board, stack: seq<Frame>)
    requires base <= |b| && stack == []
    ensures StackTracks(n, base, b, stack)
  {
  }

  /** A full board leaves no column free, so no bit of `avail` is set. */
  lemma FullBoardStops(n: nat, b: Board, avail: bv32)
    requires |b| == n && InRange(b, n) && Safe(b) && Candidates(n, b, avail, 0)
    ensures avail == 0
  {
    forall i: nat ensures !Bit(avail, i) {
      if i < n { FullIsUnsafe(n, b, i); }
    }
    NoBitsIsZero(avail);
  }

  lemma FullIsUnsafe(n: nat, b: Board, i: nat)
    requires InRange(b, n) && Safe(b) && i < n
    ensures |b| == n ==> !Safe(b + [i])
  {
    if |b| == n {
      SafeIsInjective(b);
      EveryColumnUsed(n, b, i);
      var r :| 0 <= r < n && b[r] == i;
      var q := b + [i];
      assert Attacks(q[r], q[n], n - r);
    }
  }

  lemma NoBitsIsZero(x: bv32)
    requires forall i: nat :: !Bit(x, i)
    ensures x == 0
  {
    NoLowerBits(x, 31);
    assert !Bit(x, 31);
    hide Bit, Power;
    BitMeets(x, 31);
    PowerTable();
    PowerNext(28);
    PowerNext(29);
    PowerNext(30);
    assert Left(Left(Left(0x1000_0000))) == 0x8000_0000;
    WordAll(x);
  }

  lemma WordAll(x: bv32)
    requires Below(x, 0x8000_0000) && !Meets(x, 0x8000_0000)
    ensures x == 0
  {
  }

  /** `solve_bitopt_serial`; the source's frame array has 20 entries. */
  method SolveBitoptSerial(n: nat, stackSize: nat) returns (count: nat)
    requires 0 < n < 32 && n <= stackSize
    ensures count == NQueens(n)
  {
    var stack := new Frame[stackSize](_ => Frame(0, 0, 0, 0, 0));
    TracksEmpty(n);
    count := BitStackSearch(n, [], 0, 0, 0, stack);
  }

  /** `solve_bitopt_sub`. */
  method SolveBitoptSub(n: nat, col0: nat, stackSize: nat) returns (count: nat)
    requires 0 < n < 32 && n <= stackSize && col0 < n
    ensures count == if n == 1 then 0 else Count(n, [col0])
  {
    var stack := new Frame[stackSize](_ => Frame(0, 0, 0, 0, 0));
    assert Safe([]) && InRange([col0], n) && Safe([col0]);
    hide *;
    TracksEmpty(n);
    TracksPush(n, [], 0, 0, 0, col0);
    assert [] + [col0] == [col0];
    count := BitStackSearch(n, [col0], NextCols(0, col0), NextDiag(0, col0), NextAnti(0, col0), stack);
  }

  // ------------------------------------------------------- recursive variants

  /** `BackTracking::search` of nqueens_opt_mt.cc: masks passed by value. On a
    * full board, which only `backtrackingsub(1, 0)` passes, it counts nothing. */
  method RecursiveBits(n: nat, row: nat, cols: bv32, diag: bv32, anti: bv32, ghost b: Board)
    returns (count: nat)
    requires 0 < n < 32 && row == |b| <= n && Safe(b) && InRange(b, n) && Tracks(n, b, cols, diag, anti)
    ensures count == if row == n then 0 else Count(n, b)
    decreases n - row
  {
    hide *;
    var avail := Avail(n, cols, diag, anti);
    AvailIsCandidates(n, b, cols, diag, anti);
    count := 0;
    if row == n {
      FullBoardStops(n, b, avail);
    } else {
      Branch(n, b);
    }
    ghost var lo: nat := 0;
    while avail != 0
      invariant lo <= n && Candidates(n, b, avail, lo)
      invariant row == n ==> avail == 0 && count == 0
      invariant row < n ==> count + Tail(n, b, lo) == Count(n, b)
      decreases n - lo
    {
      var i := CountTrailingZeros(avail);
      NextCandidate(n, b, avail, lo, i);
      ChildStep(n, b, lo, i);
      avail := DropLowest(avail);
      if row == n - 1 {
        count := count + 1;
      } else {
        TracksPush(n, b, cols, diag, anti, i);
        var below := RecursiveBits(n, row + 1, NextCols(cols, i), NextDiag(diag, i), NextAnti(anti, i), b + [i]);
        count := count + below;
      }
      lo := i + 1;
    }
    NoCandidates(n, b, avail, lo);
    SkipUnsafe(n, b, lo, n);
    TailEnd(n, b);
  }

  /** `backtrackingsub` of nqueens_opt_mt.cc. */
  method RecursiveBitsSub(n: nat, i: nat) returns (count: nat)
    requires 0 < n < 32 && i < n
    ensures count == if n == 1 then 0 else Count(n, [i])
  {
    assert Safe([]) && InRange([i], n) && Safe([i]);
    hide *;
    TracksEmpty(n);
    TracksPush(n, [], 0, 0, 0, i);
    assert [] + [i] == [i];
    count := RecursiveBits(n, 1, NextCols(0, i), NextDiag(0, i), NextAnti(0, i), [i]);
  }

  lemma TailEnd(n: nat, b: Board)
    ensures Tail(n, b, n) == 0
  {
  }

  lemma ChildStep(n: nat, b: Board, lo: nat, i: nat)
    requires |b| < n && InRange(b, n) && lo <= i < n && Safe(b + [i])
    requires forall j :: lo <= j < i ==> !Safe(b + [j])
    ensures Tail(n, b, lo) == Count(n, b + [i]) + Tail(n, b, i + 1)
    ensures |b| == n - 1 ==> Count(n, b + [i]) == 1
    ensures InRange(b + [i], n)
  {
    hide Count, Safe;
    SkipUnsafe(n, b, lo, i);
    if |b| == n - 1 { CompleteHasOne(n, b + [i]); }
  }

  // ------------------------------------------------ row-indexed masks, no mask

  /** Below n, `avail` holds exactly the safe columns from lo on; above n it may
    * hold anything, because nqueens_opt.cc never masks the high bits out. */
  ghost predicate CandidatesBelow(n: nat, b: Board, avail: bv32, lo: nat) {
    forall i: nat :: i < n ==> (Bit(avail, i) <==> lo <= i && Safe(b + [i]))
  }

  function Unmasked(cols: bv32, diag: bv32, anti: bv32): bv32 {
    Not(Or(Or(cols, diag), anti))
  }

  lemma UnmaskedIsCandidates(n: nat, b: Board, cols: bv32, diag: bv32, anti: bv32)
    requires n < 32 && Safe(b) && Tracks(n, b, cols, diag, anti)
    ensures CandidatesBelow(n, b, Unmasked(cols, diag, anti), 0)
  {
    hide Bit, Or, Not, OnLeft, OnRight, Safe;
    forall i: nat | i < n ensures Bit(Unmasked(cols, diag, anti), i) <==> Safe(b + [i]) {
      BitNot(Or(Or(cols, diag), anti), i);
      BitOr(Or(cols, diag), anti, i);
      BitOr(cols, diag, i);
      FreeIsSafe(n, b, i);
    }
  }

  lemma NextBelow(n: nat, b: Board, avail: bv32, lo: nat, i: nat)
    requires CandidatesBelow(n, b, avail, lo) && i < 32 && IsLowest(avail, i)
    ensures forall j :: lo <= j < i && j < n ==> !Safe(b + [j])
    ensures i < n ==> lo <= i && Safe(b + [i]) && CandidatesBelow(n, b, DropLowest(avail), i + 1)
  {
    hide Bit, Safe, DropLowest;
    forall j: nat | i < n && j < n ensures Bit(DropLowest(avail), j) <==> i + 1 <= j && Safe(b + [j]) {
      DropBits(avail, i, j);
    }
  }

  lemma NoneBelow(n: nat, b: Board, avail: bv32, lo: nat)
    requires CandidatesBelow(n, b, avail, lo) && avail == 0
    ensures forall j :: lo <= j < n ==> !Safe(b + [j])
  {
    hide Bit, Safe;
    forall j | lo <= j < n ensures !Safe(b + [j]) {
      BitZero(j);
    }
  }

  type Masks = (seq<bv32>, seq<bv32>, seq<bv32>)

  /** The masks of rows 0 .. row are the same in both. */
  ghost predicate KeptRows(x: Masks, y: Masks, row: nat) {
    && |x.0| == |y.0| && |x.1| == |y.1| && |x.2| == |y.2|
    && forall r :: 0 <= r <= row ==>
        && (r < |x.0| ==> x.0[r] == y.0[r]) && (r < |x.1| ==> x.1[r] == y.1[r]) && (r < |x.2| ==> x.2[r] == y.2[r])
  }

  lemma KeptSelf(x: Masks, row: nat)
    ensures KeptRows(x, x, row)
  {
  }

  lemma KeptRow(x: Masks, y: Masks, row: nat)
    requires KeptRows(x, y, row) && row < |x.0| && row < |x.1| && row < |x.2|
    ensures |x.0| == |y.0| && |x.1| == |y.1| && |x.2| == |y.2|
    ensures x.0[row] == y.0[row] && x.1[row] == y.1[row] && x.2[row] == y.2[row]
  {
  }

  /** A write to row + 1 keeps the rows before it. */
  lemma RowWritten(x: Masks, y: Masks, row: nat)
    requires row + 1 < |x.0| == |y.0| && row + 1 < |x.1| == |y.1| && row + 1 < |x.2| == |y.2|
    requires y.0 == x.0[row + 1 := y.0[row + 1]] && y.1 == x.1[row + 1 := y.1[row + 1]] && y.2 == x.2[row + 1 := y.2[row + 1]]
    ensures KeptRows(x, y, row)
  {
  }

  lemma KeptThrough(x: Masks, y: Masks, z: Masks, w: Masks, row: nat)
    requires KeptRows(x, y, row) && KeptRows(y, z, row) && KeptRows(z, w, row + 1)
    ensures KeptRows(x, w, row)
  {
  }

  /** `struct BackTracking` of nqueens_opt.cc: one mask triple per row. */
  class RowMasks {
    const n: nat
    var count: nat
    var columns: seq<bv32>
    var diagnoal: seq<bv32>
    var antidiagnoal: seq<bv32>

    ghost predicate AtRow(row: nat, b: Board)
      reads this
    {
      && |columns| == |diagnoal| == |antidiagnoal| && row <= n <= |columns| && row < |columns|
      && Tracks(n, b, columns[row], diagnoal[row], antidiagnoal[row])
    }

    constructor (nqueens: nat, maxQueens: nat)
      requires 0 < nqueens < 32 && nqueens <= maxQueens
      ensures n == nqueens && count == 0 && |columns| == maxQueens && AtRow(0, [])
    {
      n := nqueens;
      count := 0;
      columns := seq(maxQueens, _ => 0);
      diagnoal := seq(maxQueens, _ => 0);
      antidiagnoal := seq(maxQueens, _ => 0);
      new;
      TracksEmpty(n);
    }

    /** Counts the completions of the board; rows up to `row` keep their masks. A
      * full board, which only `backtrackingsub(1, 0)` passes, counts nothing. */
    method Search(row: nat, ghost b: Board)
      requires 0 < n < 32 && row == |b| && AtRow(row, b) && Safe(b) && InRange(b, n)
      modifies this
      ensures count == old(count) + if row == n then 0 else Count(n, b)
      ensures |columns| == |diagnoal| == |antidiagnoal| == old(|columns|)
      ensures KeptRows(old((columns, diagnoal, antidiagnoal)), (columns, diagnoal, antidiagnoal), row)
      decreases n - row
    {
      hide Tracks, Safe, InRange, Count, CandidatesBelow, IsLowest, Bit, Unmasked, DropLowest;
      hide NextCols, NextDiag, NextAnti, KeptRows;
      KeptSelf((columns, diagnoal, antidiagnoal), row);
      var avail := Unmasked(columns[row], diagnoal[row], antidiagnoal[row]);
      UnmaskedIsCandidates(n, b, columns[row], diagnoal[row], antidiagnoal[row]);
      if row < n { Branch(n, b); }
      ghost var lo: nat := 0;
      ghost var c0, d0, a0 := columns[row], diagnoal[row], antidiagnoal[row];
      while avail != 0
        invariant lo <= n && CandidatesBelow(n, b, avail, lo)
        invariant row == n ==> count == old(count)
        invariant row < n ==> count + Tail(n, b, lo) == old(count) + Count(n, b)
        invariant |columns| == |diagnoal| == |antidiagnoal| == old(|columns|)
        invariant KeptRows(old((columns, diagnoal, antidiagnoal)), (columns, diagnoal, antidiagnoal), row)
        decreases n - lo
      {
        var i := CountTrailingZeros(avail);
        NextBelow(n, b, avail, lo, i);
        if i >= n {
          break;
        }
        FullIsUnsafe(n, b, i);
        ChildStep(n, b, lo, i);
        KeptRow(old((columns, diagnoal, antidiagnoal)), (columns, diagnoal, antidiagnoal), row);
        if row == n - 1 {
          count := count + 1;
        } else {
          TracksPush(n, b, c0, d0, a0, i);
          ghost var before := (columns, diagnoal, antidiagnoal);
          columns := columns[row + 1 := NextCols(columns[row], i)];
          diagnoal := diagnoal[row + 1 := NextDiag(diagnoal[row], i)];
          antidiagnoal := antidiagnoal[row + 1 := NextAnti(antidiagnoal[row], i)];
          ghost var pushed := (columns, diagnoal, antidiagnoal);
          RowWritten(before, pushed, row);
          Search(row + 1, b + [i]);
          KeptThrough(old((columns, diagnoal, antidiagnoal)), before, pushed, (columns, diagnoal, antidiagnoal), row);
        }
        avail := DropLowest(avail);
        lo := i + 1;
      }
      if avail == 0 { NoneBelow(n, b, avail, lo); }
      SkipUnsafe(n, b, lo, n);
      TailEnd(n, b);
    }
  }

  /** `backtrackingsub` of nqueens_opt.cc: row 1 below a first queen. */
  method RowMaskSub(n: nat, i: nat, maxQueens: nat) returns (count: nat)
    requires 0 < n < 32 && n <= maxQueens && 1 < maxQueens && i < n
    ensures count == if n == 1 then 0 else Count(n, [i])
  {
    var bt := new RowMasks(n, maxQueens);
    assert Safe([]) && InRange([i], n) && Safe([i]);
    hide Tracks, Safe, InRange, Count, NextCols, NextDiag, NextAnti;
    TracksEmpty(n);
    TracksPush(n, [], 0, 0, 0, i);
    assert [] + [i] == [i];
    bt.columns := bt.columns[1 := NextCols(0, i)];
    bt.diagnoal := bt.diagnoal[1 := NextDiag(0, i)];
    bt.antidiagnoal := bt.antidiagnoal[1 := NextAnti(0, i)];
    bt.Search(1, [i]);
    count := bt.count;
  }
}
