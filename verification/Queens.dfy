/** The N-queens problem itself: what every solver in the repository counts.
  * A board lists, row by row, the column of the queen in that row. */
module Queens {
  import opened Counting

  type Board = seq<nat>

  /** Two queens `gap` rows apart share a column or a diagonal. */
  predicate Attacks(x: nat, y: nat, gap: nat) {
    x == y || x + gap == y || y + gap == x
  }

  ghost predicate Safe(b: Board) {
    forall r, s :: 0 <= r < s < |b| ==> !Attacks(b[r], b[s], s - r)
  }

  ghost predicate InRange(b: Board, n: nat) {
    forall r :: 0 <= r < |b| ==> b[r] < n
  }

  /** All boards with k rows and n columns, attacked or not. */
  ghost function Boards(n: nat, k: nat): (s: set<Board>)
    ensures forall b :: b in s <==> |b| == k && InRange(b, n)
  {
    if k == 0 then {[]}
    else
      var s := set b, i | b in Boards(n, k - 1) && 0 <= i < n :: b + [i];
      assert forall b: Board :: |b| == k && InRange(b, n) ==> b in s by {
        forall b: Board | |b| == k && InRange(b, n) ensures b in s {
          var c := b[..k - 1];
          assert c in Boards(n, k - 1) && b == c + [b[k - 1]];
        }
      }
      s
  }

  /** The full solutions whose first rows are `p`. */
  ghost function Solutions(n: nat, p: Board): set<Board> {
    set b | b in Boards(n, n) && p <= b && Safe(b)
  }

  ghost function Count(n: nat, p: Board): nat {
    |Solutions(n, p)|
  }

  /** The number of solutions of the n-queens puzzle. */
  ghost function NQueens(n: nat): nat {
    Count(n, [])
  }

  // ---------------------------------------------------------------- search tree

  /** Solutions below `p` whose next queen stands in a column >= lo. */
  ghost function SolutionsFrom(n: nat, p: Board, lo: nat): set<Board>
    requires |p| < n
  {
    set b | b in Solutions(n, p) && b[|p|] >= lo
  }

  ghost function Tail(n: nat, p: Board, lo: nat): nat
    decreases n - lo
  {
    if lo >= n then 0 else Count(n, p + [lo]) + Tail(n, p, lo + 1)
  }

  lemma {:induction false} TailCounts(n: nat, p: Board, lo: nat)
    requires |p| < n
    ensures |SolutionsFrom(n, p, lo)| == Tail(n, p, lo)
    decreases n - lo
  {
    if lo >= n {
      assert SolutionsFrom(n, p, lo) == {};
    } else {
      TailCounts(n, p, lo + 1);
      forall b: Board | |b| == n
        ensures b in SolutionsFrom(n, p, lo) <==> b in Solutions(n, p + [lo]) || b in SolutionsFrom(n, p, lo + 1)
        ensures b in Solutions(n, p + [lo]) ==> b[|p|] == lo
      {
        ExtendsByOne(p, lo, b);
      }
      UnionCard(SolutionsFrom(n, p, lo), Solutions(n, p + [lo]), SolutionsFrom(n, p, lo + 1));
    }
  }

  lemma ExtendsByOne(p: Board, i: nat, b: Board)
    ensures p + [i] <= b <==> p <= b && |p| < |b| && b[|p|] == i
  {
    if p <= b && |p| < |b| && b[|p|] == i {
      assert b[..|p| + 1] == p + [i];
    }
    if p + [i] <= b {
      assert b[|p|] == (p + [i])[|p|];
      assert b[..|p|] == (p + [i])[..|p|] == p;
    }
  }

  /** The solutions below `p` split over the columns of the next row. */
  lemma Branch(n: nat, p: Board)
    requires |p| < n
    ensures Count(n, p) == Tail(n, p, 0)
  {
    TailCounts(n, p, 0);
    assert SolutionsFrom(n, p, 0) == Solutions(n, p);
  }

  lemma UnsafeHasNone(n: nat, p: Board)
    requires !Safe(p)
    ensures Count(n, p) == 0
  {
    var r, s :| 0 <= r < s < |p| && Attacks(p[r], p[s], s - r);
    forall b: Board | p <= b ensures !Safe(b) {
      assert b[r] == p[r] && b[s] == p[s];
    }
    assert Solutions(n, p) == {};
  }

  lemma CompleteHasOne(n: nat, p: Board)
    requires |p| == n && InRange(p, n) && Safe(p)
    ensures Count(n, p) == 1
  {
    forall b | b in Solutions(n, p) ensures b == p {}
    assert Solutions(n, p) == {p};
  }

  /** Columns that no safe extension of `p` can use contribute nothing. */
  lemma {:induction false} SkipUnsafe(n: nat, p: Board, lo: nat, hi: nat)
    requires lo <= hi <= n
    requires forall i :: lo <= i < hi ==> !Safe(p + [i])
    ensures Tail(n, p, lo) == Tail(n, p, hi)
    decreases hi - lo
  {
    if lo < hi {
      UnsafeHasNone(n, p + [lo]);
      SkipUnsafe(n, p, lo + 1, hi);
    }
  }

  /** What is still to be counted when a depth-first search whose first `base`
    * rows are fixed stands at partial board `p`, about to try column `lo`. */
  ghost function Remaining(n: nat, base: nat, p: Board, lo: nat): nat
    requires base <= |p|
    decreases |p|
  {
    (if |p| >= n then Count(n, p) else Tail(n, p, lo)) + Pending(n, base, p)
  }

  /** What the rows already on the stack still owe. */
  ghost function Pending(n: nat, base: nat, p: Board): nat
    requires base <= |p|
    decreases |p|, 0
  {
    if |p| == base then 0
    else Remaining(n, base, p[..|p| - 1], p[|p| - 1] + 1)
  }

  lemma Descend(n: nat, base: nat, p: Board, i: nat)
    requires base <= |p| < n && i < n
    ensures Remaining(n, base, p, i) == Remaining(n, base, p + [i], 0)
  {
    var q := p + [i];
    assert q[..|q| - 1] == p;
    assert Pending(n, base, q) == Remaining(n, base, p, i + 1);
    if |q| < n { Branch(n, q); }
  }

  lemma Start(n: nat, p: Board)
    requires |p| <= n
    ensures Remaining(n, |p|, p, 0) == Count(n, p)
  {
    if |p| < n { Branch(n, p); }
  }

  /** A bound on the steps a search still makes; it proves termination. */
  ghost function Work(n: nat, base: nat, p: Board, lo: nat): nat
    requires base <= |p| <= n
    decreases |p|
  {
    1 + Load(n, n - |p|, if lo <= n then n - lo else 0) +
    (if |p| == base then 0 else Work(n, base, p[..|p| - 1], p[|p| - 1] + 1))
  }

  /** The steps of k columns, each opening a subtree of the given depth. */
  ghost function Load(n: nat, depth: nat, k: nat): nat
    decreases depth, k
  {
    if k == 0 then 0
    else Load(n, depth, k - 1) + 2 + (if depth == 0 then 0 else Load(n, depth - 1, n))
  }

  lemma {:induction false} LoadGrows(n: nat, depth: nat, k: nat, m: nat)
    requires k <= m
    ensures Load(n, depth, k) + (m - k) <= Load(n, depth, m)
    decreases m
  {
    if k < m { LoadGrows(n, depth, k, m - 1); }
  }

  lemma WorkDescends(n: nat, base: nat, p: Board, lo: nat, i: nat)
    requires base <= |p| < n && lo <= i < n
    ensures Work(n, base, p + [i], 0) < Work(n, base, p, lo)
  {
    var q := p + [i];
    assert q[..|q| - 1] == p;
    LoadGrows(n, n - |p|, n - i, n - lo);
    assert Work(n, base, q, 0) == 1 + Load(n, n - |q|, n) + Work(n, base, p, i + 1);
  }

  lemma WorkShrinks(n: nat, base: nat, p: Board, lo: nat, hi: nat)
    requires base <= |p| <= n && lo <= hi <= n
    ensures Work(n, base, p, hi) + (hi - lo) <= Work(n, base, p, lo)
  {
    LoadGrows(n, n - |p|, n - hi, n - lo);
  }

  // ------------------------------------------------------------------- mirror

  function Mirror(n: nat, b: Board): Board {
    seq(|b|, r requires 0 <= r < |b| => if b[r] < n then n - 1 - b[r] else 0)
  }

  lemma MirrorKeeps(n: nat, c: nat, b: Board)
    requires c < n && b in Solutions(n, [c])
    ensures Mirror(n, b) in Solutions(n, [n - 1 - c]) && Mirror(n, Mirror(n, b)) == b
  {
    var m := Mirror(n, b);
    assert [c][0] == b[0];
    assert m[..1] == [n - 1 - c];
    forall r, s | 0 <= r < s < |m| ensures !Attacks(m[r], m[s], s - r) {
      assert !Attacks(b[r], b[s], s - r);
    }
  }

  /** First-row columns c and n-1-c lead to equally many solutions. */
  lemma MirrorCount(n: nat, c: nat)
    requires c < n
    ensures Count(n, [c]) == Count(n, [n - 1 - c])
  {
    var f := (b: Board) => Mirror(n, b);
    var d := n - 1 - c;
    forall b | b in Solutions(n, [c]) ensures f(b) in Solutions(n, [d]) && f(f(b)) == b {
      MirrorKeeps(n, c, b);
    }
    forall b | b in Solutions(n, [d]) ensures f(b) in Solutions(n, [c]) && f(f(b)) == b {
      MirrorKeeps(n, d, b);
    }
    BijectionCard(Solutions(n, [c]), Solutions(n, [d]), f, f);
  }

  // ------------------------------------------------------------- pigeonhole

  /** No two queens share a column. */
  ghost predicate Injective(b: Board) {
    forall r, s :: 0 <= r < s < |b| ==> b[r] != b[s]
  }

  lemma SafeIsInjective(b: Board)
    requires Safe(b)
    ensures Injective(b)
  {
    forall r, s | 0 <= r < s < |b| ensures b[r] != b[s] {
      assert !Attacks(b[r], b[s], s - r);
    }
  }

  /** A board of full height with one queen per column leaves no column out. */
  lemma EveryColumnUsed(n: nat, b: Board, c: nat)
    requires |b| == n && InRange(b, n) && Injective(b) && c < n
    ensures c in b
  {
    var used := Values(b, n);
    DistinctValues(b, n);
    CardOfBelow(n);
    assert used <= Below(n);
    hide Values, Below, InRange, Injective;
    UnionCard(Below(n), used, Below(n) - used);
    assert c in used;
  }

  lemma {:induction false} CardOfBelow(n: nat)
    ensures |Below(n)| == n
  {
    if n > 0 { CardOfBelow(n - 1); }
  }

  ghost function Values(b: Board, k: nat): (s: set<nat>)
    requires k <= |b|
    ensures forall x :: x in s <==> exists r :: 0 <= r < k && b[r] == x
  {
    if k == 0 then {} else Values(b, k - 1) + {b[k - 1]}
  }

  lemma {:induction false} DistinctValues(b: Board, k: nat)
    requires k <= |b| && Injective(b)
    ensures |Values(b, k)| == k
  {
    hide *;
    ValuesNext(b, k);
    if k > 0 { DistinctValues(b, k - 1); }
  }

  lemma ValuesNext(b: Board, k: nat)
    requires k <= |b| && Injective(b)
    ensures k == 0 ==> |Values(b, 0)| == 0
    ensures k > 0 ==> |Values(b, k)| == |Values(b, k - 1)| + 1
  {
    if k > 0 {
      assert b[k - 1] !in Values(b, k - 1);
      assert Values(b, k) == Values(b, k - 1) + {b[k - 1]};
    }
  }

  // ----------------------------------------------------------------- a bound

  /** The columns from lo on that no queen of p occupies. */
  ghost function Free(n: nat, p: Board, lo: nat): nat
    decreases n - lo
  {
    if lo >= n then 0 else (if lo in p then 0 else 1) + Free(n, p, lo + 1)
  }

  lemma {:induction false} FreeAndUsed(n: nat, p: Board, lo: nat)
    requires lo <= n
    ensures |Below(n) - Below(lo) - Values(p, |p|)| == Free(n, p, lo)
    decreases n - lo
  {
    if lo == n {
      assert Below(n) - Below(lo) - Values(p, |p|) == {};
    } else {
      FreeAndUsed(n, p, lo + 1);
      FreeNext(n, p, lo);
    }
  }

  lemma FreeNext(n: nat, p: Board, lo: nat)
    requires lo < n
    ensures |Below(n) - Below(lo) - Values(p, |p|)|
         == |Below(n) - Below(lo + 1) - Values(p, |p|)| + if lo in p then 0 else 1
  {
    var rest, next := Below(n) - Below(lo) - Values(p, |p|), Below(n) - Below(lo + 1) - Values(p, |p|);
    hide Below, Values;
    if lo in p {
      assert rest == next;
    } else {
      UnionCard(rest, next, {lo});
    }
  }

  lemma SafeLeavesFree(n: nat, p: Board)
    requires Safe(p) && InRange(p, n)
    ensures |p| + Free(n, p, 0) == n
  {
    var used := Values(p, |p|);
    SafeIsInjective(p);
    DistinctValues(p, |p|);
    CardOfBelow(n);
    FreeAndUsed(n, p, 0);
    assert used <= Below(n);
    hide Values, Below, InRange, Injective, Safe, Free;
    assert Below(n) - Below(0) - used == Below(n) - used;
    UnionCard(Below(n), used, Below(n) - used);
  }

  lemma {:induction false} TailBound(n: nat, p: Board, lo: nat, f: nat)
    requires forall i :: lo <= i < n ==> Count(n, p + [i]) <= f
    ensures Tail(n, p, lo) <= Free(n, p, lo) * f
    decreases n - lo
  {
    if lo < n {
      TailBound(n, p, lo + 1, f);
      if lo in p {
        var r :| 0 <= r < |p| && p[r] == lo;
        var q := p + [lo];
        assert Attacks(q[r], q[|p|], |p| - r);
        UnsafeHasNone(n, q);
      } else {
        assert (1 + Free(n, p, lo + 1)) * f == f + Free(n, p, lo + 1) * f;
      }
    }
  }

  /** At most (n - rows placed)! solutions lie below a partial board. */
  lemma {:induction false} CountBound(n: nat, p: Board)
    requires |p| <= n
    ensures Count(n, p) <= Factorial(n - |p|)
    decreases n - |p|
  {
    if !Safe(p) || !InRange(p, n) {
      BadPrefix(n, p);
    } else if |p| == n {
      CompleteHasOne(n, p);
    } else {
      hide Count, Safe, InRange;
      Branch(n, p);
      forall i: nat | i < n ensures Count(n, p + [i]) <= Factorial(n - |p| - 1) {
        CountBound(n, p + [i]);
      }
      TailBound(n, p, 0, Factorial(n - |p| - 1));
      SafeLeavesFree(n, p);
    }
  }

  lemma BadPrefix(n: nat, p: Board)
    requires !Safe(p) || !InRange(p, n)
    ensures Count(n, p) == 0
  {
    if !Safe(p) {
      UnsafeHasNone(n, p);
    } else {
      var r :| 0 <= r < |p| && p[r] >= n;
      forall b: Board | p <= b ensures !InRange(b, n) || |b| <= r {
        assert b[r] == p[r];
      }
      assert Solutions(n, p) == {};
    }
  }

  /** For the sizes the solvers accept, no count comes near the int64 range. */
  lemma CountFitsInt64(n: nat, p: Board)
    requires |p| <= n <= 20
    ensures Count(n, p) < 0x7FFF_FFFF_FFFF_FFFF
  {
    CountBound(n, p);
    hide Count;
    FactorialGrows(n - |p|, 20);
    TwentyFactorial();
  }

  lemma {:induction false} FactorialGrows(k: nat, m: nat)
    requires k <= m
    ensures Factorial(k) <= Factorial(m)
    decreases m
  {
    if k < m { FactorialGrows(k, m - 1); }
  }

  lemma TwentyFactorial()
    ensures Factorial(20) == 2432902008176640000
  {
    assert Factorial(5) == 120;
    assert Factorial(10) == 3628800;
    assert Factorial(15) == 1307674368000;
  }
}
