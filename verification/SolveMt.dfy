/** The multi-threaded solvers: the first row split over threads, with or
  * without the mirror symmetry. */
module SolveMt {
  import opened Counting
  import opened Queens
  import B = Backtracking
  import Q = BitQueens

  /** The two sub-solvers passed to `solve_mt`, and the `backtrackingsub` of
    * nqueens_mt.cc, nqueens_opt_mt.cc and nqueens_opt.cc. */
  datatype SubSolver = BacktrackingSub | BitoptSub | MarkingSub | MaskSub | RowMaskSub

  /** What a sub-solver counts for a first queen in column i. All but
    * `solve_backtracking_sub` overlook that a one-row board is already full. */
  ghost function SubCount(s: SubSolver, n: nat, i: nat): nat {
    if !s.BacktrackingSub? && n == 1 then 0 else Count(n, [i])
  }

  method Solve(s: SubSolver, n: nat, i: nat) returns (count: nat)
    requires 0 < n < 32 && i < n
    ensures count == SubCount(s, n, i)
  {
    match s {
      case BacktrackingSub => count := B.SolveBacktrackingSub(n, i, n);
      case BitoptSub => count := Q.SolveBitoptSub(n, i, n);
      case MarkingSub => count := B.RecursiveSub(n, i, n);
      case MaskSub => count := Q.RecursiveBitsSub(n, i);
      case RowMaskSub => count := Q.RowMaskSub(n, i, n + 1);
    }
  }

  // ------------------------------------------------------------------- sums

  /** The sub-counts of first columns lo .. hi. */
  ghost function Range(s: SubSolver, n: nat, lo: nat, hi: nat): nat
    decreases hi
  {
    if hi <= lo then 0 else Range(s, n, lo, hi - 1) + SubCount(s, n, hi - 1)
  }

  lemma {:induction false} PeelFirst(s: SubSolver, n: nat, lo: nat, hi: nat)
    requires lo < hi
    ensures Range(s, n, lo, hi) == SubCount(s, n, lo) + Range(s, n, lo + 1, hi)
    decreases hi
  {
    if lo + 1 < hi { PeelFirst(s, n, lo, hi - 1); }
  }

  lemma PeelLast(s: SubSolver, n: nat, lo: nat, hi: nat)
    requires lo < hi
    ensures Range(s, n, lo, hi) == Range(s, n, lo, hi - 1) + SubCount(s, n, hi - 1)
  {
  }

  lemma NoRange(s: SubSolver, n: nat)
    ensures Range(s, n, 0, 0) == 0
  {
  }

  lemma SubMirror(s: SubSolver, n: nat, c: nat)
    requires c < n
    ensures SubCount(s, n, n - 1 - c) == SubCount(s, n, c)
  {
    MirrorCount(n, c);
  }

  /** k columns at either edge count alike, by the mirror. */
  lemma {:induction false} EdgesMirror(s: SubSolver, n: nat, k: nat)
    requires 2 * k <= n
    ensures Range(s, n, 0, n) == 2 * Range(s, n, 0, k) + Range(s, n, k, n - k)
  {
    hide *;
    NoRange(s, n);
    if k > 0 {
      EdgesMirror(s, n, k - 1);
      SubMirror(s, n, k - 1);
      PeelLast(s, n, 0, k);
      PeelLast(s, n, k - 1, n - (k - 1));
      PeelFirst(s, n, k - 1, n - k);
    }
  }

  lemma {:induction false} RangeIsTail(n: nat, s: SubSolver, lo: nat)
    requires lo <= n && !(!s.BacktrackingSub? && n == 1)
    ensures Range(s, n, lo, n) == Tail(n, [], lo)
    decreases n - lo
  {
    if lo < n {
      PeelFirst(s, n, lo, n);
      RangeIsTail(n, s, lo + 1);
      assert [] + [lo] == [lo];
    }
  }

  /** The weighted sum over the first k results. */
  ghost function Weighted(s: SubSolver, n: nat, symmetry: bool, k: nat): nat {
    if k == 0 then 0 else Weighted(s, n, symmetry, k - 1) + Weight(n, symmetry, k - 1) * SubCount(s, n, k - 1)
  }

  /** The middle column of an odd board is its own mirror image. */
  function Weight(n: nat, symmetry: bool, col: nat): nat {
    if symmetry && !(n % 2 == 1 && col == n / 2) then 2 else 1
  }

  function Subs(n: nat, symmetry: bool): nat {
    if symmetry then (n + 1) / 2 else n
  }

  lemma SubsBound(n: nat, symmetry: bool)
    ensures Subs(n, symmetry) <= n
  {
  }

  lemma WeightedNext(s: SubSolver, n: nat, symmetry: bool, k: nat)
    ensures Weighted(s, n, symmetry, 0) == 0
    ensures Weighted(s, n, symmetry, k + 1)
         == Weighted(s, n, symmetry, k) + if symmetry && !(n % 2 == 1 && k == n / 2) then 2 * SubCount(s, n, k) else SubCount(s, n, k)
  {
  }

  lemma {:induction false} WeightedRange(s: SubSolver, n: nat, symmetry: bool, k: nat)
    requires k <= if symmetry then n / 2 else n
    ensures Weighted(s, n, symmetry, k) == (if symmetry then 2 else 1) * Range(s, n, 0, k)
  {
    if k > 0 { WeightedRange(s, n, symmetry, k - 1); }
  }

  lemma WeightedTotal(s: SubSolver, n: nat, symmetry: bool)
    ensures Weighted(s, n, symmetry, Subs(n, symmetry)) == Range(s, n, 0, n)
  {
    hide SubCount;
    if symmetry {
      var half := n / 2;
      assert n == 2 * half + n % 2 && Subs(n, symmetry) == half + n % 2;
      WeightedRange(s, n, symmetry, half);
      EdgesMirror(s, n, half);
      WeightedNext(s, n, symmetry, half);
    } else {
      WeightedRange(s, n, symmetry, n);
    }
  }

  /** Which sub-solver and size make the split exact: both from two queens on,
    * and plain backtracking on one queen as well. */
  lemma SplitIsExact(s: SubSolver, n: nat, symmetry: bool)
    ensures Weighted(s, n, symmetry, Subs(n, symmetry)) == NQueens(n) <==> n >= 2 || (n == 1 && s.BacktrackingSub?)
  {
    WeightedTotal(s, n, symmetry);
    if n == 0 {
      CompleteHasOne(0, []);
    } else {
      Branch(n, []);
      if !s.BacktrackingSub? && n == 1 {
        assert Range(s, 1, 0, 1) == Range(s, 1, 0, 0) + SubCount(s, 1, 0);
        CompleteHasOne(1, [0]);
        assert Tail(1, [], 0) == Count(1, [] + [0]) + Tail(1, [], 1);
        assert [] + [0] == [0];
      } else {
        RangeIsTail(n, s, 0);
      }
    }
  }

  /** No running total exceeds n!, so an int64 holds it for every n the code accepts. */
  lemma {:induction false} PartialFits(s: SubSolver, n: nat, symmetry: bool, k: nat)
    requires k <= Subs(n, symmetry) && 0 < n <= 20
    ensures Weighted(s, n, symmetry, k) <= Factorial(n) < 0x7FFF_FFFF_FFFF_FFFF
    decreases Subs(n, symmetry) - k
  {
    if k < Subs(n, symmetry) {
      PartialFits(s, n, symmetry, k + 1);
    } else {
      TotalFits(s, n, symmetry);
    }
  }

  lemma TotalFits(s: SubSolver, n: nat, symmetry: bool)
    requires 0 < n <= 20
    ensures Weighted(s, n, symmetry, Subs(n, symmetry)) <= Factorial(n) < 0x7FFF_FFFF_FFFF_FFFF
  {
    SplitAtMost(s, n, symmetry);
    hide *;
    CountBound(n, []);
    FactorialGrows(n, 20);
    TwentyFactorial();
  }

  lemma SplitAtMost(s: SubSolver, n: nat, symmetry: bool)
    requires n > 0
    ensures Weighted(s, n, symmetry, Subs(n, symmetry)) <= Count(n, [])
  {
    SplitIsExact(s, n, symmetry);
    WeightedTotal(s, n, symmetry);
    hide Count, Weighted, Subs;
    if n == 1 && !s.BacktrackingSub? {
      assert Range(s, 1, 0, 1) == Range(s, 1, 0, 0) + SubCount(s, 1, 0);
    }
  }

  // ---------------------------------------------------------------- slicing

  function PerThread(subs: nat, threads: nat): nat
    requires threads > 0
  {
    subs / threads
  }

  function Remainder(subs: nat, threads: nat): nat
    requires threads > 0
  {
    subs % threads
  }

  /** Where the t-th slice starts: quotient and remainder spread over threads. */
  function SliceStart(subs: nat, threads: nat, t: nat): nat
    requires threads > 0
  {
    t * PerThread(subs, threads) + if t < Remainder(subs, threads) then t else Remainder(subs, threads)
  }

  lemma SliceStep(subs: nat, threads: nat, t: nat)
    requires threads > 0
    ensures SliceStart(subs, threads, t + 1)
         == SliceStart(subs, threads, t) + PerThread(subs, threads) + if t < Remainder(subs, threads) then 1 else 0
  {
    var q := PerThread(subs, threads);
    assert (t + 1) * q == t * q + q;
  }

  lemma SlicesBegin(subs: nat, threads: nat)
    requires threads > 0
    ensures SliceStart(subs, threads, 0) == 0
  {
  }

  lemma {:induction false} SliceBound(subs: nat, threads: nat, t: nat)
    requires 0 < threads && t <= threads
    ensures SliceStart(subs, threads, t) <= subs
    decreases threads - t
  {
    if t < threads {
      SliceBound(subs, threads, t + 1);
      SliceStep(subs, threads, t);
    } else {
      SlicesEnd(subs, threads);
    }
  }

  /** The slices end exactly at the last sub-problem. */
  lemma SlicesEnd(subs: nat, threads: nat)
    requires threads > 0
    ensures SliceStart(subs, threads, threads) == subs
  {
    assert threads * (subs / threads) + subs % threads == subs;
  }

  /** No thread gets more than one sub-problem more than another, and the earlier ones
    * get the larger slices. */
  lemma SlicesBalanced(subs: nat, threads: nat, t: nat, u: nat)
    requires t <= u < threads
    ensures var first, second := SliceStart(subs, threads, t + 1) - SliceStart(subs, threads, t),
                                 SliceStart(subs, threads, u + 1) - SliceStart(subs, threads, u);
      0 <= second <= first <= second + 1
  {
    SliceStep(subs, threads, t);
    SliceStep(subs, threads, u);
    hide SliceStart;
  }

  // ---------------------------------------------------------------- threads

  datatype Entry = Entry(col: nat, count: nat)

  /** A worker thread: it owns indices begin .. end and has finished those below idx. */
  datatype Worker = Worker(begin: nat, end: nat, idx: nat)

  /** The workers own consecutive, non-empty, disjoint slices of 0 .. start. */
  ghost predicate Contiguous(ws: seq<Worker>, start: nat) {
    if |ws| == 0 then start == 0
    else
      var w := ws[|ws| - 1];
      w.begin < w.end == start && w.begin <= w.idx <= w.end && Contiguous(ws[..|ws| - 1], w.begin)
  }

  /** Some worker has finished index i. */
  ghost predicate DoneAt(ws: seq<Worker>, i: nat) {
    |ws| > 0 && (ws[|ws| - 1].begin <= i < ws[|ws| - 1].idx || DoneAt(ws[..|ws| - 1], i))
  }

  lemma {:induction false} DoneBelow(ws: seq<Worker>, start: nat, i: nat)
    requires Contiguous(ws, start) && DoneAt(ws, i)
    ensures i < start
  {
    var m := |ws| - 1;
    if !(ws[m].begin <= i < ws[m].idx) { DoneBelow(ws[..m], ws[m].begin, i); }
  }

  lemma {:induction false} Within(ws: seq<Worker>, start: nat, k: nat)
    requires Contiguous(ws, start) && k < |ws|
    ensures ws[k].begin <= ws[k].idx <= ws[k].end <= start
  {
    var m := |ws| - 1;
    if k < m { Within(ws[..m], ws[m].begin, k); }
  }

  lemma Spawned(ws: seq<Worker>, start: nat, end: nat)
    requires Contiguous(ws, start) && start < end
    ensures Contiguous(ws + [Worker(start, end, start)], end)
    ensures forall i: nat :: DoneAt(ws + [Worker(start, end, start)], i) <==> DoneAt(ws, i)
  {
    assert (ws + [Worker(start, end, start)])[..|ws|] == ws;
  }

  /** One more index is finished, and it had not been finished before. */
  lemma {:induction false} Advanced(ws: seq<Worker>, start: nat, k: nat, i: nat)
    requires Contiguous(ws, start) && k < |ws| && ws[k].idx < ws[k].end
    ensures Contiguous(ws[k := ws[k].(idx := ws[k].idx + 1)], start)
    ensures DoneAt(ws[k := ws[k].(idx := ws[k].idx + 1)], i) <==> DoneAt(ws, i) || i == ws[k].idx
    ensures !DoneAt(ws, ws[k].idx)
  {
    var vs := ws[k := ws[k].(idx := ws[k].idx + 1)];
    var m := |ws| - 1;
    if k < m {
      assert vs[..m] == ws[..m][k := ws[k].(idx := ws[k].idx + 1)];
      Advanced(ws[..m], ws[m].begin, k, i);
      Within(ws[..m], ws[m].begin, k);
    } else {
      assert vs[..m] == ws[..m];
      if DoneAt(ws[..m], ws[k].idx) { DoneBelow(ws[..m], ws[m].begin, ws[k].idx); }
    }
  }

  lemma {:induction false} AllDone(ws: seq<Worker>, start: nat, i: nat)
    requires Contiguous(ws, start) && i < start
    requires forall k :: 0 <= k < |ws| ==> ws[k].idx >= ws[k].end
    ensures DoneAt(ws, i)
  {
    var m := |ws| - 1;
    if i < ws[m].begin { AllDone(ws[..m], ws[m].begin, i); }
  }

  /** Steps the spawned workers still owe. */
  ghost function Unfinished(ws: seq<Worker>): int {
    if |ws| == 0 then 0 else Unfinished(ws[..|ws| - 1]) + ws[|ws| - 1].end - ws[|ws| - 1].idx
  }

  lemma {:induction false} UnfinishedAt(ws: seq<Worker>, k: nat, w: Worker)
    requires k < |ws|
    ensures Unfinished(ws[k := w]) == Unfinished(ws) + (w.end - w.idx) - (ws[k].end - ws[k].idx)
  {
    var m := |ws| - 1;
    var vs := ws[k := w];
    if k < m {
      UnfinishedAt(ws[..m], k, w);
      assert vs[..m] == ws[..m][k := w];
    } else {
      assert vs[..m] == ws[..m];
    }
  }

  lemma {:induction false} UnfinishedNat(ws: seq<Worker>, start: nat)
    requires Contiguous(ws, start)
    ensures Unfinished(ws) >= 0
  {
    if |ws| > 0 { UnfinishedNat(ws[..|ws| - 1], ws[|ws| - 1].begin); }
  }

  function Spawn(ws: seq<Worker>, start: nat, end: nat): seq<Worker> {
    ws + [Worker(start, end, start)]
  }

  /** Worker k moves on to its next index. */
  function Advance(ws: seq<Worker>, k: nat): seq<Worker>
    requires k < |ws|
  {
    ws[k := ws[k].(idx := ws[k].idx + 1)]
  }

  predicate Runnable(ws: seq<Worker>, k: nat)
    requires k < |ws|
  {
    ws[k].idx < ws[k].end
  }

  /** Every finished index holds its own sub-count. */
  ghost predicate Filled(s: SubSolver, n: nat, ws: seq<Worker>, results: seq<Entry>) {
    forall i: nat :: i < |results| && DoneAt(ws, i) ==> results[i] == Entry(i, SubCount(s, n, i))
  }

  lemma FilledStart(s: SubSolver, n: nat, ws: seq<Worker>, results: seq<Entry>)
    requires ws == []
    ensures Contiguous(ws, 0) && Filled(s, n, ws, results)
  {
  }

  lemma FilledSpawn(s: SubSolver, n: nat, ws: seq<Worker>, results: seq<Entry>, start: nat, end: nat)
    requires Contiguous(ws, start) && start < end && Filled(s, n, ws, results)
    ensures Contiguous(Spawn(ws, start, end), end)
    ensures Filled(s, n, Spawn(ws, start, end), results)
  {
    Spawned(ws, start, end);
  }

  /** A worker's next index: inside the results, not written before, and once
    * written it is right and nobody else's entry has changed. */
  lemma FilledAdvance(s: SubSolver, n: nat, ws: seq<Worker>, results: seq<Entry>, start: nat, k: nat)
    requires Contiguous(ws, start) && start <= |results| && Filled(s, n, ws, results)
    requires k < |ws| && Runnable(ws, k)
    ensures var idx := ws[k].idx;
      var vs := Advance(ws, k);
      && idx < start && !DoneAt(ws, idx)
      && Contiguous(vs, start)
      && Filled(s, n, vs, results[idx := Entry(idx, SubCount(s, n, idx))])
      && 0 <= Unfinished(vs) < Unfinished(ws)
  {
    var vs := ws[k := ws[k].(idx := ws[k].idx + 1)];
    Within(ws, start, k);
    Advanced(ws, start, k, 0);
    forall i: nat ensures DoneAt(vs, i) <==> DoneAt(ws, i) || i == ws[k].idx {
      Advanced(ws, start, k, i);
    }
    UnfinishedAt(ws, k, vs[k]);
    UnfinishedNat(vs, start);
    hide Contiguous, DoneAt, SubCount, Unfinished;
  }

  lemma AllFilled(s: SubSolver, n: nat, ws: seq<Worker>, results: seq<Entry>)
    requires Contiguous(ws, |results|) && Filled(s, n, ws, results)
    requires forall k: nat :: k < |ws| ==> !Runnable(ws, k)
    ensures Complete(s, n, results)
  {
    assert forall k: nat :: k < |ws| ==> Runnable(ws, k) || ws[k].idx >= ws[k].end;
    forall i: nat | i < |results| ensures results[i] == Entry(i, SubCount(s, n, i)) {
      AllDone(ws, |results|, i);
    }
  }

  ghost predicate Complete(s: SubSolver, n: nat, results: seq<Entry>) {
    forall i: nat :: i < |results| ==> results[i] == Entry(i, SubCount(s, n, i))
  }

  /** `solve_mt`; `hw` is what std::thread::hardware_concurrency() returned. */
  method SolveMt(s: SubSolver, n: nat, numThreads: int, hw: nat, symmetry: bool) returns (total: nat)
    requires 0 < n < 32 && (numThreads > 0 || hw > 0)
    ensures total == Weighted(s, n, symmetry, Subs(n, symmetry))
    ensures total == NQueens(n) <==> n >= 2 || s.BacktrackingSub?
  {
    var threads: nat := if numThreads <= 0 then hw else numThreads;
    var subs := Subs(n, symmetry);
    var results := new Entry[subs](_ => Entry(0, 0));
    hide *;
    SubsBound(n, symmetry);
    RunThreads(s, n, threads, results);
    total := Merge(s, n, symmetry, results[..]);
    SplitIsExact(s, n, symmetry);
  }

  /** Spawning, running and joining. The guarded loop lets the spawning thread
    * and the workers move in any order. */
  method RunThreads(s: SubSolver, n: nat, threads: nat, results: array<Entry>)
    requires 0 < n < 32 && threads > 0 && results.Length <= n
    modifies results
    ensures Complete(s, n, results[..])
  {
    hide *;
    var subs := results.Length;
    var perThread, remainder := PerThread(subs, threads), Remainder(subs, threads);
    var ws: seq<Worker> := [];
    var start: nat, t: nat := 0, 0;
    SlicesBegin(subs, threads);
    FilledStart(s, n, ws, results[..]);
    while (t < threads && start < subs) || exists k: nat :: k < |ws| && Runnable(ws, k)
      invariant t <= threads && start <= subs && start == SliceStart(subs, threads, t)
      invariant Contiguous(ws, start) && Filled(s, n, ws, results[..])
      decreases threads - t, Unfinished(ws)
    {
      if
      case t < threads && start < subs =>
        SliceStep(subs, threads, t);
        SliceBound(subs, threads, t + 1);
        var count := perThread + if t < remainder then 1 else 0;
        t := t + 1;
        if count > 0 {
          FilledSpawn(s, n, ws, results[..], start, start + count);
          ws := Spawn(ws, start, start + count);
          start := start + count;
        }
      case k: nat :| k < |ws| && Runnable(ws, k) =>
        ws := WorkerStep(s, n, ws, start, k, results);
    }
    SlicesEnd(subs, threads);
    assert start == subs;
    assert results[..] == results[..subs];
    AllFilled(s, n, ws, results[..]);
  }

  /** One round of a worker's loop: solve its next column, write its own entry. */
  method WorkerStep(s: SubSolver, n: nat, ws: seq<Worker>, ghost start: nat, k: nat, results: array<Entry>)
    returns (vs: seq<Worker>)
    requires 0 < n < 32 && Contiguous(ws, start) && start <= results.Length <= n && Filled(s, n, ws, results[..])
    requires k < |ws| && Runnable(ws, k)
    modifies results
    ensures vs == Advance(ws, k) && Contiguous(vs, start) && Filled(s, n, vs, results[..])
    ensures 0 <= Unfinished(vs) < Unfinished(ws)
  {
    hide *;
    FilledAdvance(s, n, ws, results[..], start, k);
    var idx := ws[k].idx;
    var count := Solve(s, n, idx);
    ghost var rs := results[..];
    results[idx] := Entry(idx, count);
    assert results[..] == rs[idx := Entry(idx, count)];
    vs := Advance(ws, k);
  }

  /** The merge at the end of `solve_mt`. */
  method Merge(ghost s: SubSolver, n: nat, symmetry: bool, results: seq<Entry>) returns (total: nat)
    requires Complete(s, n, results)
    ensures total == Weighted(s, n, symmetry, |results|)
  {
    total := 0;
    for r := 0 to |results|
      invariant total == Weighted(s, n, symmetry, r)
    {
      hide SubCount;
      WeightedNext(s, n, symmetry, r);
      if symmetry {
        if n % 2 == 1 && results[r].col == n / 2 {
          total := total + results[r].count;
        } else {
          total := total + 2 * results[r].count;
        }
      } else {
        total := total + results[r].count;
      }
    }
  }

  // --------------------------------------------- the drivers of the .cc files

  /** `backtracking` of nqueens_mt.cc and nqueens_opt_mt.cc: half the columns,
    * doubled, and the middle one added once. */
  method SplitSequential(s: SubSolver, n: nat) returns (total: nat)
    requires 0 < n < 32
    ensures total == Weighted(s, n, true, Subs(n, true))
    ensures total == NQueens(n) <==> n >= 2 || s.BacktrackingSub?
  {
    SplitIsExact(s, n, true);
    hide SubCount, NQueens;
    total := 0;
    for i := 0 to n / 2
      invariant 2 * total == Weighted(s, n, true, i)
    {
      var count := Solve(s, n, i);
      total := total + count;
    }
    total := total * 2;
    if n % 2 == 1 {
      var count := Solve(s, n, n / 2);
      total := total + count;
    }
  }

  /** An int64 converted to a 32-bit int. */
  function Narrow(x: int): int {
    (x + 0x8000_0000) % 0x1_0000_0000 - 0x8000_0000
  }

  lemma NarrowKeeps(x: nat)
    ensures Narrow(x) == x <==> x < 0x8000_0000
  {
  }

  /** `backtracking` of nqueens_opt.cc returns an int: right exactly when the count
    * fits one, which n <= 12 guarantees. */
  method SplitNarrow(n: nat) returns (r: int)
    requires 0 < n < 32
    ensures r == NQueens(n) <==> n >= 2 && NQueens(n) < 0x8000_0000
    ensures 2 <= n <= 12 ==> r == NQueens(n)
  {
    hide *;
    var total := SplitSequential(RowMaskSub, n);
    NarrowKeeps(total);
    SmallCount(n);
    OneQueenBoard(total);
    r := Narrow(total);
    NarrowOff(total, NQueens(n));
  }

  /** On one queen the split counts nothing, and nothing is what narrowing keeps. */
  lemma OneQueenBoard(total: nat)
    ensures NQueens(1) == 1
    ensures total == Weighted(RowMaskSub, 1, true, Subs(1, true)) ==> total == 0
  {
    Branch(1, []);
    CompleteHasOne(1, [0]);
    assert Tail(1, [], 0) == Count(1, [] + [0]) + Tail(1, [], 1);
    assert [] + [0] == [0];
    WeightedTotal(RowMaskSub, 1, true);
    assert Range(RowMaskSub, 1, 0, 1) == Range(RowMaskSub, 1, 0, 0) + SubCount(RowMaskSub, 1, 0);
  }

  lemma NarrowOff(x: nat, y: nat)
    ensures x == y && y >= 0x8000_0000 ==> Narrow(x) != y
    ensures x == 0 ==> Narrow(x) == 0
  {
  }

  lemma SmallCount(n: nat)
    ensures n <= 12 ==> NQueens(n) < 0x8000_0000
  {
    if n <= 12 {
      CountBound(n, []);
      hide Count;
      FactorialGrows(n, 12);
      assert Factorial(12) == 479001600 by { assert Factorial(6) == 720; }
    }
  }

  /** The weights of the columns whose thread has added its count. */
  ghost function Added(s: SubSolver, n: nat, added: seq<bool>): nat {
    if |added| == 0 then 0
    else
      var m := |added| - 1;
      Added(s, n, added[..m]) + if added[m] then Weight(n, true, m) * SubCount(s, n, m) else 0
  }

  lemma {:induction false} AddedOne(s: SubSolver, n: nat, added: seq<bool>, i: nat)
    requires i < |added| && !added[i]
    ensures Added(s, n, added[i := true]) == Added(s, n, added) + Weight(n, true, i) * SubCount(s, n, i)
  {
    hide Weight, SubCount;
    var m := |added| - 1;
    if i < m {
      AddedOne(s, n, added[..m], i);
      assert added[i := true][..m] == added[..m][i := true];
    } else {
      assert added[i := true][..m] == added[..m];
    }
  }

  lemma {:induction false} AddedAll(s: SubSolver, n: nat, added: seq<bool>)
    requires forall i :: 0 <= i < |added| ==> added[i]
    ensures Added(s, n, added) == Weighted(s, n, true, |added|)
  {
    if |added| > 0 { AddedAll(s, n, added[..|added| - 1]); }
  }

  lemma NoneAdded(s: SubSolver, n: nat)
    ensures Added(s, n, []) == 0
  {
  }

  lemma AddedSpawn(s: SubSolver, n: nat, added: seq<bool>)
    ensures Added(s, n, added + [false]) == Added(s, n, added)
  {
    assert (added + [false])[..|added|] == added;
  }

  ghost function Waiting(added: seq<bool>): nat {
    if |added| == 0 then 0 else Waiting(added[..|added| - 1]) + if added[|added| - 1] then 0 else 1
  }

  lemma {:induction false} WaitingDrops(added: seq<bool>, i: nat)
    requires i < |added| && !added[i]
    ensures Waiting(added[i := true]) == Waiting(added) - 1
  {
    var m := |added| - 1;
    if i < m {
      WaitingDrops(added[..m], i);
      assert added[i := true][..m] == added[..m][i := true];
    } else {
      assert added[i := true][..m] == added[..m];
    }
  }

  /** `backtracking_mt` of both files: one thread per column, each adding into a
    * shared atomic total whenever it gets there. */
  method AtomicMt(s: SubSolver, n: nat) returns (total: nat)
    requires 0 < n < 32
    ensures total == NQueens(n) <==> n >= 2 || s.BacktrackingSub?
  {
    SplitIsExact(s, n, true);
    hide *;
    var subs := Subs(n, true);
    SubsBound(n, true);
    var added: seq<bool> := [];
    total := 0;
    NoneAdded(s, n);
    while |added| < subs || exists i: nat :: i < |added| && !added[i]
      invariant |added| <= subs && total == Added(s, n, added)
      decreases subs - |added|, Waiting(added)
    {
      if
      case |added| < subs =>
        AddedSpawn(s, n, added);
        added := added + [false];
      case i: nat :| i < |added| && !added[i] =>
        AddedOne(s, n, added, i);
        WaitingDrops(added, i);
        var count := Solve(s, n, i);
        WeightSplits(n, i, count);
        total := total + if n % 2 == 1 && i == n / 2 then count else 2 * count;
        added := added[i := true];
    }
    AddedAll(s, n, added);
  }

  lemma WeightSplits(n: nat, i: nat, count: nat)
    ensures Weight(n, true, i) * count == if n % 2 == 1 && i == n / 2 then count else 2 * count
  {
  }
}
