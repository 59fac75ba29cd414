/** The reference count of nqueens.cc: try every permutation of the columns, in
  * the order of std::next_permutation, and count those without a clash. */
module BruteForce {
  import opened Queens

  ghost predicate Perm(n: nat, p: Board) {
    |p| == n && InRange(p, n) && Injective(p)
  }

  /** a comes before b in dictionary order. */
  ghost predicate Less(a: Board, b: Board) {
    exists k: nat :: LessAt(a, b, k)
  }

  /** k is the first position where a and b differ, and a is smaller there. */
  ghost predicate LessAt(a: Board, b: Board, k: nat) {
    k < |a| && k < |b| && a[..k] == b[..k] && a[k] < b[k]
  }

  lemma {:induction false} Total(a: Board, b: Board, k: nat)
    requires |a| == |b| && k <= |a| && a[..k] == b[..k]
    ensures a == b || Less(a, b) || Less(b, a)
    decreases |a| - k
  {
    if k < |a| {
      if a[k] == b[k] {
        assert a[..k + 1] == a[..k] + [a[k]] && b[..k + 1] == b[..k] + [b[k]];
        Total(a, b, k + 1);
      } else {
        assert LessAt(a, b, k) || LessAt(b, a, k);
      }
    } else {
      assert a == a[..k] && b == b[..k];
    }
  }

  lemma PrefixAt(a: Board, b: Board, k: nat, i: nat)
    requires k <= |a| && k <= |b| && a[..k] == b[..k] && i < k
    ensures a[i] == b[i]
  {
    assert a[i] == a[..k][i] && b[i] == b[..k][i];
  }

  lemma Irreflexive(a: Board, b: Board)
    requires Less(a, b)
    ensures !Less(b, a) && a != b
  {
    var k: nat :| LessAt(a, b, k);
    if Less(b, a) {
      var j: nat :| LessAt(b, a, j);
      if j < k { PrefixAt(a, b, k, j); }
      if k < j { PrefixAt(b, a, j, k); }
    }
  }

  lemma Transitive(a: Board, b: Board, c: Board)
    requires Less(a, b) && Less(b, c)
    ensures Less(a, c)
  {
    var k: nat :| LessAt(a, b, k);
    var j: nat :| LessAt(b, c, j);
    var m := if j < k then j else k;
    assert a[..m] == a[..k][..m] && b[..m] == b[..k][..m] && b[..m] == b[..j][..m] && c[..m] == c[..j][..m];
    if m < k { PrefixAt(a, b, k, m); }
    if m < j { PrefixAt(b, c, j, m); }
    assert LessAt(a, c, m);
  }

  // ----------------------------------------------------- the next permutation

  /** b is the permutation that follows a: nothing lies between them. */
  ghost predicate Follows(n: nat, a: Board, b: Board) {
    Perm(n, b) && Less(a, b) && forall c :: Perm(n, c) && Less(a, c) ==> !Less(c, b)
  }

  ghost predicate Last(n: nat, a: Board) {
    forall c :: Perm(n, c) ==> !Less(a, c)
  }

  ghost predicate Falling(a: Board, lo: nat) {
    forall i, j :: lo <= i < j < |a| ==> a[i] > a[j]
  }

  ghost predicate Rising(a: Board, lo: nat) {
    forall i, j :: lo <= i < j < |a| ==> a[i] < a[j]
  }

  lemma FallsTo(a: Board, lo: nat, i: nat, j: nat)
    requires Falling(a, lo) && lo <= i <= j < |a|
    ensures a[i] >= a[j]
  {
  }

  lemma RisesTo(a: Board, lo: nat, i: nat, j: nat)
    requires Rising(a, lo) && lo <= i <= j < |a|
    ensures a[i] <= a[j]
  {
  }

  /** Past a shared prefix, two permutations draw on the same values. */
  lemma SharedValues(n: nat, a: Board, c: Board, k: nat) returns (r: nat)
    requires Perm(n, a) && Perm(n, c) && k < n && a[..k] == c[..k]
    ensures k <= r < n && a[r] == c[k]
  {
    EveryColumnUsed(n, a, c[k]);
    r :| 0 <= r < n && a[r] == c[k];
    if r < k { PrefixAt(a, c, k, r); }
  }

  /** A falling permutation has no successor. */
  lemma FallingIsLast(n: nat, a: Board)
    requires Perm(n, a) && Falling(a, 0)
    ensures Last(n, a)
  {
    forall c | Perm(n, c) ensures !Less(a, c) {
      if Less(a, c) {
        var k: nat :| LessAt(a, c, k);
        var r := SharedValues(n, a, c, k);
        FallsTo(a, 0, k, r);
      }
    }
  }

  /** What the pivot step produces: b keeps a's prefix, raises position i by the
    * least possible amount, and sorts what follows. */
  ghost predicate Stepped(n: nat, a: Board, b: Board, i: nat) {
    && i < |a| == |b| && a[..i] == b[..i] && a[i] < b[i]
    && (forall r :: i < r < |a| && a[r] > a[i] ==> a[r] >= b[i])
    && Falling(a, i + 1) && Rising(b, i + 1)
  }

  lemma SteppedFollows(n: nat, a: Board, b: Board, i: nat)
    requires Perm(n, a) && Perm(n, b) && Stepped(n, a, b, i)
    ensures Follows(n, a, b)
  {
    assert LessAt(a, b, i);
    forall c | Perm(n, c) && Less(a, c) ensures !Less(c, b) {
      NothingBetween(n, a, b, c, i);
    }
  }

  lemma NothingBetween(n: nat, a: Board, b: Board, c: Board, i: nat)
    requires Perm(n, a) && Perm(n, b) && Perm(n, c) && Stepped(n, a, b, i) && Less(a, c)
    ensures !Less(c, b)
  {
    var k: nat :| LessAt(a, c, k);
    hide Perm, Stepped;
    RaisedAt(n, a, b, c, i, k);
    if Less(c, b) {
      var j: nat :| LessAt(c, b, j);
      NotBelow(n, a, b, c, i, k, j);
    }
  }

  /** A later permutation first rises at the pivot or before it, and to b[i] at least. */
  lemma RaisedAt(n: nat, a: Board, b: Board, c: Board, i: nat, k: nat)
    requires Perm(n, a) && Perm(n, c) && Stepped(n, a, b, i) && LessAt(a, c, k)
    ensures k <= i && (k == i ==> c[i] >= b[i])
  {
    var r := SharedValues(n, a, c, k);
    if k > i { FallsTo(a, i + 1, k, r); }
  }

  lemma NotBelow(n: nat, a: Board, b: Board, c: Board, i: nat, k: nat, j: nat)
    requires Perm(n, b) && Perm(n, c) && Stepped(n, a, b, i) && LessAt(a, c, k)
    requires k <= i && (k == i ==> c[i] >= b[i])
    ensures !LessAt(c, b, j)
  {
    if LessAt(c, b, j) {
      if k < i { PrefixAt(a, b, i, k); }
      if j < k {
        PrefixAt(a, c, k, j);
        PrefixAt(a, b, i, j);
      } else if j > k {
        PrefixAt(c, b, j, k);
      }
      var r := SharedValues(n, b, c, j);
      if j > i { RisesTo(b, i + 1, j, r); }
    }
  }

  // ------------------------------------------------- the algorithm, in place

  ghost predicate SameElements(a: Board, b: Board) {
    multiset(a) == multiset(b)
  }

  lemma SamePerm(n: nat, a: Board, b: Board)
    requires Perm(n, a) && SameElements(a, b)
    ensures Perm(n, b)
  {
    assert |multiset(a)| == |a| && |multiset(b)| == |b|;
    forall r | 0 <= r < |b| ensures b[r] < n {
      assert b[r] in multiset(b);
      assert b[r] in a;
    }
    forall r, s | 0 <= r < s < |b| ensures b[r] != b[s] {
      if b[r] == b[s] {
        CountTwice(b, r, s);
        CountOnce(a, b[r]);
      }
    }
  }

  lemma CountTwice(b: Board, r: nat, s: nat)
    requires r < s < |b| && b[r] == b[s]
    ensures multiset(b)[b[r]] >= 2
  {
    assert b == b[..s] + [b[s]] + b[s + 1..];
    assert b[r] == b[..s][r] && b[r] in multiset(b[..s]);
  }

  lemma NotBefore(a: Board, m: nat)
    requires Injective(a) && m < |a|
    ensures a[m] !in multiset(a[..m])
  {
  }

  lemma {:induction false} CountOnce(a: Board, x: nat)
    requires Injective(a)
    ensures multiset(a)[x] <= 1
  {
    if |a| > 0 {
      var m := |a| - 1;
      assert a == a[..m] + [a[m]];
      assert Injective(a[..m]);
      CountOnce(a[..m], x);
      if a[m] == x { NotBefore(a, m); }
    }
  }

  lemma SwapSame(a: Board, i: nat, j: nat)
    requires i < |a| && j < |a|
    ensures SameElements(a, a[i := a[j]][j := a[i]])
  {
  }

  /** `std::reverse` on the positions from lo on. */
  method ReverseFrom(a: array<nat>, lo: nat)
    requires lo <= a.Length
    modifies a
    ensures a[..lo] == old(a[..lo]) && SameElements(old(a[..]), a[..])
    ensures forall k :: lo <= k < a.Length ==> a[k] == old(a[a.Length - 1 - (k - lo)])
  {
    var i: nat, j: int := lo, a.Length - 1;
    while i < j
      invariant lo <= i && i + j == lo + a.Length - 1 && i <= j + 1
      invariant a[..lo] == old(a[..lo]) && SameElements(old(a[..]), a[..])
      invariant forall k :: lo <= k < i || j < k < a.Length ==> a[k] == old(a[a.Length - 1 - (k - lo)])
      invariant forall k :: i <= k <= j ==> a[k] == old(a[k])
    {
      Swap(a, i, j);
      i, j := i + 1, j - 1;
    }
  }

  method Swap(a: array<nat>, i: nat, j: nat)
    requires i < a.Length && j < a.Length
    modifies a
    ensures a[..] == old(a[..])[i := old(a[j])][j := old(a[i])]
    ensures SameElements(old(a[..]), a[..])
  {
    ghost var was := a[..];
    SwapSame(was, i, j);
    a[i], a[j] := a[j], a[i];
    assert a[..] == was[i := was[j]][j := was[i]];
  }

  /** Where the longest falling tail of a permutation starts. */
  method FallingTail(a: array<nat>) returns (i: nat)
    requires a.Length > 0 && Injective(a[..])
    ensures i < a.Length && Falling(a[..], i) && (i > 0 ==> a[i - 1] < a[i])
  {
    i := a.Length - 1;
    while i > 0 && a[i - 1] >= a[i]
      invariant i < a.Length && Falling(a[..], i)
    {
      assert a[..][i - 1] != a[..][i];
      i := i - 1;
    }
  }

  /** The last position whose value exceeds that of the pivot before i. */
  method JustAbove(a: array<nat>, i: nat) returns (j: nat)
    requires 0 < i < a.Length && Falling(a[..], i) && a[i - 1] < a[i]
    ensures i <= j < a.Length && a[j] > a[i - 1]
    ensures forall r :: j < r < a.Length ==> a[r] <= a[i - 1]
  {
    j := a.Length - 1;
    while a[j] <= a[i - 1]
      invariant i <= j < a.Length
      invariant forall r :: j < r < a.Length ==> a[r] <= a[i - 1]
    {
      j := j - 1;
    }
  }

  /** The state between swap and reversal, in terms of the permutation before. */
  lemma SwappedStep(n: nat, a: Board, s: Board, b: Board, i: nat, j: nat)
    requires Perm(n, a) && 0 < i <= j < n && Falling(a, i) && a[i - 1] < a[i] && a[j] > a[i - 1]
    requires forall r :: j < r < n ==> a[r] <= a[i - 1]
    requires s == a[i - 1 := a[j]][j := a[i - 1]]
    requires |b| == n && b[..i] == s[..i] && forall k :: i <= k < n ==> b[k] == s[n - 1 - (k - i)]
    ensures Stepped(n, a, b, i - 1)
  {
    PrefixAt(b, s, i, i - 1);
    assert b[..i - 1] == s[..i][..i - 1] == a[..i - 1];
    assert Falling(s, i);
    forall r, q | i <= r < q < n ensures b[r] < b[q] {
      FallsTo(s, i, n - 1 - (q - i), n - 1 - (r - i));
      assert s[n - 1 - (q - i)] > s[n - 1 - (r - i)];
    }
    forall r | i - 1 < r < n && a[r] > a[i - 1] ensures a[r] >= b[i - 1] {
      FallsTo(a, i, r, j);
    }
  }

  lemma PermFacts(n: nat, a: Board)
    requires Perm(n, a)
    ensures |a| == n && Injective(a)
  {
  }

  lemma ShortFalls(a: Board)
    ensures |a| <= 1 ==> Falling(a, 0)
  {
  }

  /** `std::next_permutation`: the successor in dictionary order, if there is one. */
  method NextPermutation(n: nat, a: array<nat>) returns (more: bool)
    requires Perm(n, a[..])
    modifies a
    ensures more ==> Follows(n, old(a[..]), a[..])
    ensures !more ==> Last(n, old(a[..]))
  {
    PermFacts(n, a[..]);
    ShortFalls(a[..]);
    if a.Length <= 1 {
      FallingIsLast(n, a[..]);
      return false;
    }
    hide *;
    ghost var was := a[..];
    var i := FallingTail(a);
    if i == 0 {
      FallingIsLast(n, a[..]);
      ReverseFrom(a, 0);
      return false;
    }
    PivotStep(n, a, i);
    SteppedFollows(n, was, a[..], i - 1);
    return true;
  }

  /** Raise the value before the falling tail as little as possible, then turn
    * the tail round. */
  method PivotStep(n: nat, a: array<nat>, i: nat)
    requires Perm(n, a[..]) && 0 < i < a.Length == n && Falling(a[..], i) && a[i - 1] < a[i]
    modifies a
    ensures Perm(n, a[..]) && Stepped(n, old(a[..]), a[..], i - 1)
  {
    hide *;
    ghost var was := a[..];
    var j := JustAbove(a, i);
    Swap(a, i - 1, j);
    ghost var swapped := a[..];
    SamePerm(n, was, swapped);
    ReverseFrom(a, i);
    ghost var b := a[..];
    assert b[..i] == swapped[..i];
    SamePerm(n, swapped, b);
    SwappedStep(n, was, swapped, b, i, j);
  }

  // ------------------------------------------------------------- the counting

  /** Solutions that come before a. */
  ghost function Before(n: nat, a: Board): set<Board> {
    set b | b in Solutions(n, []) && Less(b, a)
  }

  /** Boards that come after a: what the loop has still to visit. */
  ghost function After(n: nat, a: Board): set<Board> {
    set b | b in Boards(n, n) && Less(a, b)
  }

  lemma SolutionIsPerm(n: nat, b: Board)
    requires b in Solutions(n, [])
    ensures Perm(n, b)
  {
    SafeIsInjective(b);
  }

  /** Moving on to the successor accounts for exactly the board left behind. */
  lemma BeforeNext(n: nat, a: Board, b: Board)
    requires Perm(n, a) && Follows(n, a, b)
    ensures |Before(n, b)| == |Before(n, a)| + if Safe(a) then 1 else 0
    ensures After(n, b) < After(n, a)
  {
    forall c | Perm(n, c) ensures Less(c, b) <==> Less(c, a) || c == a {
      Total(a, c, 0);
      if Less(c, a) { Transitive(c, a, b); }
    }
    forall c | Less(b, c) ensures Less(a, c) {
      Transitive(a, b, c);
    }
    Irreflexive(a, b);
    assert b in After(n, a) && b !in After(n, b);
    BeforeGrows(n, a, Before(n, b));
  }

  lemma BeforeGrows(n: nat, a: Board, next: set<Board>)
    requires Perm(n, a)
    requires forall c :: c in next <==> c in Solutions(n, []) && (Less(c, a) || c == a)
    ensures |next| == |Before(n, a)| + if Safe(a) then 1 else 0
  {
    if Less(a, a) { Irreflexive(a, a); }
    if Safe(a) {
      assert a in Solutions(n, []);
      assert next == Before(n, a) + {a};
    } else {
      assert next == Before(n, a);
    }
  }

  lemma BeforeLast(n: nat, a: Board)
    requires Perm(n, a) && Last(n, a)
    ensures NQueens(n) == |Before(n, a)| + if Safe(a) then 1 else 0
  {
    forall c | c in Solutions(n, []) ensures Less(c, a) || c == a {
      SolutionIsPerm(n, c);
      Total(a, c, 0);
    }
    BeforeGrows(n, a, Solutions(n, []));
  }

  /** 0, 1, .., n-1 comes before every other permutation. */
  lemma IotaFirst(n: nat, a: Board)
    requires |a| == n && forall i :: 0 <= i < n ==> a[i] == i
    ensures Perm(n, a) && Before(n, a) == {}
  {
    forall b | b in Solutions(n, []) ensures !Less(b, a) {
      SolutionIsPerm(n, b);
      if Less(b, a) {
        var k: nat :| LessAt(b, a, k);
        PrefixAt(b, a, k, b[k]);
      }
    }
  }

  /** The first marking loop in the body of `bruteforce`. */
  method AntiDiagonalsFree(n: nat, pos: array<nat>) returns (ok: bool)
    requires pos.Length == n && InRange(pos[..], n)
    ensures ok <==> forall r, s :: 0 <= r < s < n ==> r + pos[r] != s + pos[s]
  {
    var antidiagnoal := new bool[2 * n](_ => false);
    for i := 0 to n
      invariant forall d :: 0 <= d < 2 * n ==> (antidiagnoal[d] <==> exists r :: 0 <= r < i && r + pos[r] == d)
      invariant forall r, s :: 0 <= r < s < i ==> r + pos[r] != s + pos[s]
    {
      assert pos[..][i] < n;
      if antidiagnoal[i + pos[i]] {
        return false;
      }
      antidiagnoal[i + pos[i]] := true;
    }
    return true;
  }

  /** The second one. */
  method DiagonalsFree(n: nat, pos: array<nat>) returns (ok: bool)
    requires pos.Length == n && InRange(pos[..], n)
    ensures ok <==> forall r, s :: 0 <= r < s < n ==> n + r - pos[r] != n + s - pos[s]
  {
    var diagnoal := new bool[2 * n](_ => false);
    for i := 0 to n
      invariant forall d :: 0 <= d < 2 * n ==> (diagnoal[d] <==> exists r :: 0 <= r < i && n + r - pos[r] == d)
      invariant forall r, s :: 0 <= r < s < i ==> n + r - pos[r] != n + s - pos[s]
    {
      assert pos[..][i] < n;
      var d := n + i - pos[i];
      if diagnoal[d] {
        return false;
      }
      diagnoal[d] := true;
    }
    return true;
  }

  /** A permutation that fails neither loop is a solution. */
  method Feasible(n: nat, pos: array<nat>) returns (ok: bool)
    requires Perm(n, pos[..])
    ensures ok <==> Safe(pos[..])
  {
    ghost var b := pos[..];
    assert forall r :: 0 <= r < n ==> pos[r] == b[r];
    ok := AntiDiagonalsFree(n, pos);
    if ok {
      ok := DiagonalsFree(n, pos);
    }
    LinesFree(n, b);
  }

  lemma LinesFree(n: nat, b: Board)
    requires Perm(n, b)
    ensures Safe(b) <==>
      && (forall r, s :: 0 <= r < s < n ==> r + b[r] != s + b[s])
      && (forall r, s :: 0 <= r < s < n ==> n + r - b[r] != n + s - b[s])
  {
    forall r, s | 0 <= r < s < n
      ensures Attacks(b[r], b[s], s - r) <==> r + b[r] == s + b[s] || n + r - b[r] == n + s - b[s]
    {
      assert b[r] != b[s];
    }
  }

  /** `bruteforce`: the do-while loop over all permutations. */
  method Bruteforce(n: nat) returns (count: nat)
    ensures count == NQueens(n)
  {
    var pos := new nat[n](i => i);
    IotaFirst(n, pos[..]);
    count := 0;
    hide *;
    var more := true;
    while more
      invariant more ==> Perm(n, pos[..]) && count == |Before(n, pos[..])|
      invariant !more ==> count == NQueens(n)
      decreases if more then 1 else 0, After(n, pos[..])
    {
      ghost var was := pos[..];
      var ok := Feasible(n, pos);
      if ok {
        count := count + 1;
      }
      more := NextPermutation(n, pos);
      if more { BeforeNext(n, was, pos[..]); } else { BeforeLast(n, was); }
      assert more ==> Perm(n, pos[..]) by { if more { FollowsFacts(n, was, pos[..]); } }
    }
  }

  lemma FollowsFacts(n: nat, a: Board, b: Board)
    requires Follows(n, a, b)
    ensures Perm(n, b)
  {
  }
}
