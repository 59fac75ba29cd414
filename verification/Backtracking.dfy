/** Backtracking with marking arrays: the recursive search of nqueens.cc and
  * nqueens_mt.cc, and the explicit-stack search of nqueens.h. */
module Backtracking {
  import opened Queens

  // ------------------------------------------------------------ marking arrays

  ghost predicate OnAnti(b: Board, d: int) {
    exists r :: 0 <= r < |b| && r + b[r] == d
  }

  ghost predicate OnDiag(n: nat, b: Board, d: int) {
    exists r :: 0 <= r < |b| && n + r - b[r] == d
  }

  /** The three arrays mark exactly the lines held by the queens of `b`. */
  ghost predicate Marks(n: nat, b: Board, columns: seq<bool>, diag: seq<bool>, antidiag: seq<bool>) {
    && (forall i :: 0 <= i < |columns| ==> (columns[i] <==> i in b))
    && (forall d :: 0 <= d < |diag| ==> (diag[d] <==> OnDiag(n, b, d)))
    && (forall d :: 0 <= d < |antidiag| ==> (antidiag[d] <==> OnAnti(b, d)))
  }

  /** The test `!(columns[i] || antidiag[row + i] || diag[d])` is exactly safety. */
  lemma FreeIsSafe(n: nat, b: Board, i: nat)
    requires Safe(b) && InRange(b, n) && i < n
    ensures Safe(b + [i]) <==> !(i in b || OnAnti(b, |b| + i) || OnDiag(n, b, n + |b| - i))
  {
    var q := b + [i];
    assert forall r :: 0 <= r < |b| ==> q[r] == b[r];
    if r :| 0 <= r < |b| && Attacks(b[r], i, |b| - r) {
      assert Attacks(q[r], q[|b|], |b| - r);
    } else {
      forall r, s | 0 <= r < s < |q| ensures !Attacks(q[r], q[s], s - r) {
        assert s < |b| ==> !Attacks(b[r], b[s], s - r);
      }
    }
  }

  lemma TestIsSafe(n: nat, b: Board, i: nat, c: seq<bool>, d: seq<bool>, a: seq<bool>)
    requires Marks(n, b, c, d, a) && Safe(b) && InRange(b, n) && |b| < n && i < n
    requires n <= |c| && 2 * n <= |d| && 2 * n <= |a|
    ensures !(c[i] || a[|b| + i] || d[n + |b| - i]) <==> Safe(b + [i])
    ensures InRange(b + [i], n)
    ensures !Safe(b + [i]) ==> Count(n, b + [i]) == 0
    ensures Safe(b + [i]) && |b| == n - 1 ==> Count(n, b + [i]) == 1
  {
    FreeIsSafe(n, b, i);
    if !Safe(b + [i]) {
      UnsafeHasNone(n, b + [i]);
    } else if |b| == n - 1 {
      CompleteHasOne(n, b + [i]);
    }
  }

  lemma MarksPush(n: nat, b: Board, i: nat, c: seq<bool>, d: seq<bool>, a: seq<bool>)
    requires Marks(n, b, c, d, a) && i < |c| && |b| + i < |a| && 0 <= n + |b| - i < |d|
    ensures Marks(n, b + [i], c[i := true], d[n + |b| - i := true], a[|b| + i := true])
  {
    var q := b + [i];
    assert q[|b|] == i && forall r :: 0 <= r < |b| ==> q[r] == b[r];
  }

  lemma MarksPop(n: nat, b: Board, i: nat, c: seq<bool>, d: seq<bool>, a: seq<bool>)
    requires Safe(b + [i]) && Marks(n, b + [i], c, d, a)
    requires i < |c| && |b| + i < |a| && 0 <= n + |b| - i < |d|
    ensures Marks(n, b, c[i := false], d[n + |b| - i := false], a[|b| + i := false])
  {
    var q := b + [i];
    assert q[|b|] == i;
    forall r | 0 <= r < |b| ensures q[r] == b[r] && !Attacks(b[r], i, |b| - r) {
      assert !Attacks(q[r], q[|b|], |b| - r);
    }
  }

  // --------------------------------------------------------- recursive search

  /** `struct BackTracking` of nqueens.cc and nqueens_mt.cc. */
  class BackTracking {
    const n: nat
    var count: nat
    var columns: seq<bool>
    var diagnoal: seq<bool>
    var antidiagnoal: seq<bool>

    ghost predicate Marking(b: Board)
      reads this
    {
      && n <= |columns| && 2 * n <= |diagnoal| && 2 * n <= |antidiagnoal|
      && Marks(n, b, columns, diagnoal, antidiagnoal)
    }

    /** kMaxQueens sizes the vectors; it is 16 in nqueens.cc and 20 elsewhere. */
    constructor (nqueens: nat, maxQueens: nat)
      requires 0 < nqueens <= maxQueens
      ensures n == nqueens && count == 0 && Marking([])
    {
      n := nqueens;
      count := 0;
      columns := seq(maxQueens, _ => false);
      diagnoal := seq(2 * maxQueens, _ => false);
      antidiagnoal := seq(2 * maxQueens, _ => false);
    }

    /** Adds the number of solutions below the marked board, and leaves every
      * mark as it was. A full board, which only `backtrackingsub(1, 0)` of
      * nqueens_mt.cc passes, adds nothing. */
    method Search(row: nat, ghost b: Board)
      requires Marking(b) && Safe(b) && InRange(b, n) && row == |b| <= n
      modifies this
      ensures columns == old(columns) && diagnoal == old(diagnoal) && antidiagnoal == old(antidiagnoal)
      ensures count == old(count) + if row == n then 0 else Count(n, b)
      decreases n - row
    {
      hide Marks, Safe, InRange, Count;
      if row < n { Branch(n, b); }
      var i: nat := 0;
      while i < n
        invariant i <= n
        invariant columns == old(columns) && diagnoal == old(diagnoal) && antidiagnoal == old(antidiagnoal)
        invariant row == n ==> count == old(count)
        invariant row < n ==> count + Tail(n, b, i) == old(count) + Count(n, b)
      {
        var d := n + row - i;
        if row == n {
          FullBoardMarks(n, b, i, columns, diagnoal, antidiagnoal);
        } else {
          TestIsSafe(n, b, i, columns, diagnoal, antidiagnoal);
        }
        if !(columns[i] || antidiagnoal[row + i] || diagnoal[d]) {
          if row == n - 1 {
            count := count + 1;
          } else {
            MarksPush(n, b, i, columns, diagnoal, antidiagnoal);
            columns := columns[i := true];
            antidiagnoal := antidiagnoal[row + i := true];
            diagnoal := diagnoal[d := true];
            Search(row + 1, b + [i]);
            columns := columns[i := false];
            antidiagnoal := antidiagnoal[row + i := false];
            diagnoal := diagnoal[d := false];
          }
        }
        i := i + 1;
      }
    }
  }

  lemma FullBoardMarks(n: nat, b: Board, i: nat, c: seq<bool>, d: seq<bool>, a: seq<bool>)
    requires Marks(n, b, c, d, a) && Safe(b) && InRange(b, n) && |b| == n && i < n <= |c|
    ensures c[i]
  {
    SafeIsInjective(b);
    EveryColumnUsed(n, b, i);
  }

  /** `backtrackingsub` of nqueens_mt.cc: search from row 1 below a first queen. */
  method RecursiveSub(n: nat, i: nat, maxQueens: nat) returns (count: nat)
    requires 0 < n <= maxQueens && i < n
    ensures count == if n == 1 then 0 else Count(n, [i])
  {
    var bt := new BackTracking(n, maxQueens);
    MarksPush(n, [], i, bt.columns, bt.diagnoal, bt.antidiagnoal);
    assert [] + [i] == [i];
    bt.columns := bt.columns[i := true];
    bt.antidiagnoal := bt.antidiagnoal[i := true];
    bt.diagnoal := bt.diagnoal[n - i := true];
    bt.Search(1, [i]);
    count := bt.count;
  }

  /** `backtracking` of nqueens.cc. */
  method RecursiveBacktracking(n: nat, maxQueens: nat) returns (solutions: nat)
    requires 0 < n <= maxQueens
    ensures solutions == NQueens(n)
  {
    var bt := new BackTracking(n, maxQueens);
    bt.Search(0, []);
    solutions := bt.count;
  }

  // ---------------------------------------------------- explicit-stack search

  datatype Frame = Frame(row: nat, col: nat)

  ghost predicate StackIs(base: nat, b: Board, stack: seq<Frame>)
    requires base + |stack| <= |b|
  {
    forall j :: 0 <= j < |stack| ==> stack[j] == Frame(base + j, b[base + j])
  }

  lemma StackPush(base: nat, b: Board, stack: seq<Frame>, x: nat)
    requires base + |stack| == |b| && StackIs(base, b, stack)
    ensures StackIs(base, b + [x], stack + [Frame(|b|, x)])
  {
  }

  lemma StackPop(base: nat, b: Board, stack: seq<Frame>)
    requires |stack| > 0 && base + |stack| == |b| && StackIs(base, b, stack)
    ensures stack[|stack| - 1] == Frame(|b| - 1, b[|b| - 1])
    ensures StackIs(base, b[..|b| - 1], stack[..|stack| - 1])
  {
  }

  lemma PopFacts(n: nat, base: nat, b: Board, lo: nat)
    requires base < |b| <= n && Safe(b) && InRange(b, n)
    requires lo <= n && (|b| == n || lo == n)
    ensures var p, x := b[..|b| - 1], b[|b| - 1];
      && b == p + [x] && x < n
      && Safe(p) && InRange(p, n)
      && Work(n, base, p, x + 1) < Work(n, base, b, lo)
      && Remaining(n, base, b, lo) == (if |b| == n then 1 else 0) + Remaining(n, base, p, x + 1)
  {
    if |b| == n { CompleteHasOne(n, b); }
  }

  lemma LastPop(n: nat, b: Board, lo: nat)
    requires |b| <= n && Safe(b) && InRange(b, n) && (|b| == n || lo == n)
    ensures Remaining(n, |b|, b, lo) == if |b| == n then 1 else 0
  {
    if |b| == n { CompleteHasOne(n, b); }
  }

  lemma SkipOne(n: nat, base: nat, b: Board, i: nat)
    requires base <= |b| < n && i < n && Count(n, b + [i]) == 0
    ensures Remaining(n, base, b, i) == Remaining(n, base, b, i + 1)
  {
  }

  /** The local arrays of a search, as the board they describe. */
  ghost predicate Shows(n: nat, base: nat, b: Board, columns: seq<bool>, diag: seq<bool>, antidiag: seq<bool>,
                        stack: seq<Frame>)
  {
    && n <= |columns| && 2 * n <= |diag| && 2 * n <= |antidiag|
    && base <= |b| <= n && Safe(b) && InRange(b, n) && |stack| == |b| - base
    && Marks(n, b, columns, diag, antidiag) && StackIs(base, b, stack)
  }

  lemma ShowsBoard(n: nat, base: nat, b: Board, columns: seq<bool>, diag: seq<bool>, antidiag: seq<bool>,
                   stack: seq<Frame>)
    requires Shows(n, base, b, columns, diag, antidiag, stack)
    ensures n <= |columns| && 2 * n <= |diag| && 2 * n <= |antidiag|
    ensures base <= |b| <= n && Safe(b) && InRange(b, n) && |stack| == |b| - base
  {
  }

  lemma ShowsTest(n: nat, base: nat, b: Board, columns: seq<bool>, diag: seq<bool>, antidiag: seq<bool>,
                  stack: seq<Frame>, i: nat)
    requires Shows(n, base, b, columns, diag, antidiag, stack) && |b| < n && i < n
    ensures !(columns[i] || antidiag[|b| + i] || diag[n + |b| - i]) ==> Safe(b + [i])
    ensures columns[i] || antidiag[|b| + i] || diag[n + |b| - i] ==> Count(n, b + [i]) == 0
  {
    hide Marks, Safe, InRange, Count, StackIs;
    TestIsSafe(n, b, i, columns, diag, antidiag);
  }

  lemma ShowsPush(n: nat, base: nat, b: Board, columns: seq<bool>, diag: seq<bool>, antidiag: seq<bool>,
                  stack: seq<Frame>, i: nat)
    requires Shows(n, base, b, columns, diag, antidiag, stack) && |b| < n && i < n && Safe(b + [i])
    ensures Shows(n, base, b + [i], columns[i := true], diag[n + |b| - i := true], antidiag[|b| + i := true],
                  stack + [Frame(|b|, i)])
  {
    assert InRange(b + [i], n);
    hide Marks, Safe, InRange, StackIs;
    MarksPush(n, b, i, columns, diag, antidiag);
    StackPush(base, b, stack, i);
  }

  lemma ShowsPop(n: nat, base: nat, b: Board, columns: seq<bool>, diag: seq<bool>, antidiag: seq<bool>,
                 stack: seq<Frame>)
    requires Shows(n, base, b, columns, diag, antidiag, stack) && |stack| > 0
    ensures var r, x := |b| - 1, b[|b| - 1];
      && x < n && stack[|stack| - 1] == Frame(r, x)
      && Shows(n, base, b[..r], columns[x := false], diag[n + r - x := false], antidiag[r + x := false],
               stack[..|stack| - 1])
  {
    var p, x := b[..|b| - 1], b[|b| - 1];
    assert b == p + [x] && Safe(p) && InRange(p, n) && x < n;
    hide Marks, Safe, InRange, StackIs;
    MarksPop(n, p, x, columns, diag, antidiag);
    StackPop(base, b, stack);
  }

  /** The inner loop: the next column from `start` on whose three marks are all clear, or n. */
  method NextFree(n: nat, ghost base: nat, ghost b: Board, row: nat, start: nat,
                  columns: array<bool>, diag: array<bool>, antidiag: array<bool>, ghost stack: seq<Frame>)
    returns (col: nat)
    requires Shows(n, base, b, columns[..], diag[..], antidiag[..], stack) && row == |b| < n && start <= n
    ensures start <= col <= n
    ensures col < n ==> Safe(b + [col])
    ensures Remaining(n, base, b, start) == Remaining(n, base, b, col)
  {
    hide *;
    ShowsBoard(n, base, b, columns[..], diag[..], antidiag[..], stack);
    col := start;
    while col < n
      invariant start <= col <= n
      invariant Remaining(n, base, b, start) == Remaining(n, base, b, col)
    {
      var d := n + row - col;
      ShowsTest(n, base, b, columns[..], diag[..], antidiag[..], stack, col);
      if !(columns[col] || antidiag[row + col] || diag[d]) {
        break;
      }
      SkipOne(n, base, b, col);
      col := col + 1;
    }
  }

  /** Put a queen on a free square of the next row and push its frame. */
  method Place(n: nat, ghost base: nat, ghost b: Board, row: nat, col: nat,
               columns: array<bool>, diag: array<bool>, antidiag: array<bool>, stack: array<Frame>, sp: nat)
    requires columns != diag && columns != antidiag && diag != antidiag && n <= stack.Length
    requires sp <= stack.Length && Shows(n, base, b, columns[..], diag[..], antidiag[..], stack[..sp])
    requires row == |b| < n && col < n && Safe(b + [col])
    modifies columns, diag, antidiag, stack
    ensures sp < stack.Length && Shows(n, base, b + [col], columns[..], diag[..], antidiag[..], stack[..sp + 1])
  {
    hide *;
    ShowsBoard(n, base, b, columns[..], diag[..], antidiag[..], stack[..sp]);
    ShowsPush(n, base, b, columns[..], diag[..], antidiag[..], stack[..sp], col);
    var d := n + row - col;
    ghost var cs, ds, az := columns[..], diag[..], antidiag[..];
    columns[col] := true;
    antidiag[row + col] := true;
    diag[d] := true;
    stack[sp] := Frame(row, col);
    assert columns[..] == cs[col := true] && diag[..] == ds[d := true] && antidiag[..] == az[row + col := true];
    assert stack[..sp + 1] == stack[..sp] + [Frame(row, col)];
  }

  /** Pop the last frame and take its queen back off the board. */
  method Undo(n: nat, ghost base: nat, ghost b: Board,
              columns: array<bool>, diag: array<bool>, antidiag: array<bool>, stack: array<Frame>, sp: nat)
    returns (row: nat, col: nat)
    requires columns != diag && columns != antidiag && diag != antidiag
    requires 0 < sp <= stack.Length && Shows(n, base, b, columns[..], diag[..], antidiag[..], stack[..sp])
    modifies columns, diag, antidiag
    ensures |b| > 0 && row == |b| - 1 && col == b[row] < n
    ensures Shows(n, base, b[..row], columns[..], diag[..], antidiag[..], stack[..sp - 1])
  {
    hide *;
    ShowsBoard(n, base, b, columns[..], diag[..], antidiag[..], stack[..sp]);
    ShowsPop(n, base, b, columns[..], diag[..], antidiag[..], stack[..sp]);
    assert stack[..sp][..sp - 1] == stack[..sp - 1] && stack[..sp][sp - 1] == stack[sp - 1];
    row, col := stack[sp - 1].row, stack[sp - 1].col;
    var d := n + row - col;
    ghost var cs, ds, az := columns[..], diag[..], antidiag[..];
    columns[col] := false;
    antidiag[row + col] := false;
    diag[d] := false;
    assert columns[..] == cs[col := false] && diag[..] == ds[d := false] && antidiag[..] == az[row + col := false];
  }

  /** The loop shared by `solve_backtracking_serial` (first == []) and
    * `solve_backtracking_sub` (first == [col0]): count the completions of
    * `first` with an explicit stack of frames. */
  method StackSearch(n: nat, first: Board, columns: array<bool>, diag: array<bool>, antidiag: array<bool>,
                     stack: array<Frame>)
    returns (count: nat)
    requires columns != diag && columns != antidiag && diag != antidiag && n <= stack.Length
    requires 0 < n && Shows(n, |first|, first, columns[..], diag[..], antidiag[..], [])
    modifies columns, diag, antidiag, stack
    ensures count == Count(n, first)
    ensures Shows(n, |first|, first, columns[..], diag[..], antidiag[..], [])
  {
    hide *;
    ShowsBoard(n, |first|, first, columns[..], diag[..], antidiag[..], []);
    ghost var base, total := |first|, Count(n, first);
    ghost var b: Board := first;
    var sp: nat, row: nat, col: nat := 0, |first|, 0;
    count := 0;
    Start(n, first);
    assert stack[..sp] == [];
    while true
      invariant base <= |b| <= n && b[..base] == first && row == |b| && sp == |b| - base && col <= n
      invariant Shows(n, base, b, columns[..], diag[..], antidiag[..], stack[..sp])
      invariant count + Remaining(n, base, b, col) == total
      decreases Work(n, base, b, col)
    {
      ShowsBoard(n, base, b, columns[..], diag[..], antidiag[..], stack[..sp]);
      ghost var col0 := col;
      if row == n {
        count := count + 1;
      } else {
        col := NextFree(n, base, b, row, col, columns, diag, antidiag, stack[..sp]);
        WorkShrinks(n, base, b, col0, col);
        if col < n {
          Descend(n, base, b, col);
          WorkDescends(n, base, b, col, col);
          Place(n, base, b, row, col, columns, diag, antidiag, stack, sp);
          sp, row, b, col := sp + 1, row + 1, b + [col], 0;
          continue;
        }
      }
      // Backtrack: undo the last placement and try its next column.
      if sp == 0 {
        assert b == first && stack[..sp] == [];
        LastPop(n, b, col);
        break;
      }
      PopFacts(n, base, b, col);
      row, col := Undo(n, base, b, columns, diag, antidiag, stack, sp);
      sp, b, col := sp - 1, b[..row], col + 1;
    }
  }

  /** `solve_backtracking_serial`; the source fixes kMax = 20. */
  method SolveBacktrackingSerial(n: nat, kMax: nat) returns (count: nat)
    requires 0 < n <= kMax
    ensures count == NQueens(n)
  {
    var columns := new bool[kMax](_ => false);
    var diag := new bool[2 * kMax](_ => false);
    var antidiag := new bool[2 * kMax](_ => false);
    var stack := new Frame[kMax](_ => Frame(0, 0));
    count := StackSearch(n, [], columns, diag, antidiag, stack);
  }

  /** `solve_backtracking_sub`: the first queen stands at (0, col0). */
  method SolveBacktrackingSub(n: nat, col0: nat, kMax: nat) returns (count: nat)
    requires 0 < n <= kMax && col0 < n
    ensures count == Count(n, [col0])
  {
    var columns := new bool[kMax](_ => false);
    var diag := new bool[2 * kMax](_ => false);
    var antidiag := new bool[2 * kMax](_ => false);
    var stack := new Frame[kMax](_ => Frame(0, 0));
    OneQueen(n, col0, columns[..], diag[..], antidiag[..]);
    hide *;
    ghost var cs, ds, az := columns[..], diag[..], antidiag[..];
    columns[col0] := true;
    antidiag[0 + col0] := true;
    diag[n + 0 - col0] := true;
    assert columns[..] == cs[col0 := true] && diag[..] == ds[n - col0 := true] && antidiag[..] == az[col0 := true];
    count := StackSearch(n, [col0], columns, diag, antidiag, stack);
  }

  lemma OneQueen(n: nat, c: nat, columns: seq<bool>, diag: seq<bool>, antidiag: seq<bool>)
    requires c < n <= |columns| && 2 * n <= |diag| && 2 * n <= |antidiag| && Marks(n, [], columns, diag, antidiag)
    ensures Shows(n, 1, [c], columns[c := true], diag[n - c := true], antidiag[c := true], [])
  {
    MarksPush(n, [], c, columns, diag, antidiag);
    assert [] + [c] == [c];
  }
}
