/** Sums over sequences, used to count threads and to measure progress. */
module Sums {

  function Min(a: nat, b: nat): nat {
    if a < b then a else b
  }

  /** One less, but not below 0. */
  function Decrement(n: nat): nat {
    if n > 0 then n - 1 else 0
  }

  function Sum<T>(xs: seq<T>, f: T -> nat): nat {
    if |xs| == 0 then 0 else Sum(xs[..|xs| - 1], f) + f(xs[|xs| - 1])
  }

  lemma {:induction false} SumUpdate<T>(xs: seq<T>, f: T -> nat, i: nat, x: T)
    requires i < |xs|
    ensures Sum(xs[i := x], f) + f(xs[i]) == Sum(xs, f) + f(x)
  {
    var m := |xs| - 1;
    if i < m {
      SumUpdate(xs[..m], f, i, x);
      assert xs[i := x][..m] == xs[..m][i := x];
    } else {
      assert xs[i := x][..m] == xs[..m];
    }
  }

  lemma {:induction false} SumAtLeast<T>(xs: seq<T>, f: T -> nat, i: nat)
    requires i < |xs|
    ensures f(xs[i]) <= Sum(xs, f)
  {
    var m := |xs| - 1;
    if i < m { SumAtLeast(xs[..m], f, i); }
  }

  /** A positive sum has a positive term. */
  lemma {:induction false} SumWitness<T>(xs: seq<T>, f: T -> nat) returns (i: nat)
    requires Sum(xs, f) > 0
    ensures i < |xs| && f(xs[i]) > 0
  {
    var m := |xs| - 1;
    if f(xs[m]) > 0 { i := m; } else { i := SumWitness(xs[..m], f); }
  }

  lemma {:induction false} SumAll<T>(xs: seq<T>, f: T -> nat, k: nat)
    requires forall i :: 0 <= i < |xs| ==> f(xs[i]) == k
    ensures Sum(xs, f) == |xs| * k
  {
    if |xs| > 0 {
      SumAll(xs[..|xs| - 1], f, k);
      assert |xs| * k == (|xs| - 1) * k + k;
    }
  }

  /** A count that reaches the length counts everybody. */
  lemma {:induction false} FullCount<T>(xs: seq<T>, f: T -> nat)
    requires forall i :: 0 <= i < |xs| ==> f(xs[i]) <= 1
    ensures Sum(xs, f) <= |xs|
    ensures Sum(xs, f) == |xs| <==> forall i :: 0 <= i < |xs| ==> f(xs[i]) == 1
  {
    if |xs| > 0 {
      var m := |xs| - 1;
      FullCount(xs[..m], f);
      assert forall i :: 0 <= i < m ==> xs[..m][i] == xs[i];
      if Sum(xs[..m], f) == m && f(xs[m]) == 1 {
        forall i | 0 <= i < |xs| ensures f(xs[i]) == 1 { assert i < m ==> f(xs[..m][i]) == 1; }
      }
      if forall i :: 0 <= i < |xs| ==> f(xs[i]) == 1 {
        forall i | 0 <= i < m ensures f(xs[..m][i]) == 1 { assert f(xs[i]) == 1; }
      }
    }
  }
}
