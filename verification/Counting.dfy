/** Cardinality facts shared by the counting arguments. */
module Counting {

  /** A one-to-one correspondence between two finite sets equates their sizes. */
  lemma {:induction false} BijectionCard<T, U>(a: set<T>, b: set<U>, f: T -> U, g: U -> T)
    requires forall x :: x in a ==> f(x) in b && g(f(x)) == x
    requires forall y :: y in b ==> g(y) in a && f(g(y)) == y
    ensures |a| == |b|
    decreases |a|
  {
    if a == {} {
      assert b == {} by {
        if y :| y in b { assert g(y) in a; }
      }
    } else {
      var x :| x in a;
      BijectionCard(a - {x}, b - {f(x)}, f, g);
    }
  }

  /** Sizes add over a disjoint union. */
  lemma UnionCard<T>(whole: set<T>, a: set<T>, b: set<T>)
    requires a !! b && whole == a + b
    ensures |whole| == |a| + |b|
  {
  }

  /** A set of naturals below n has at most n elements. */
  lemma {:induction false} BelowCard(s: set<nat>, n: nat)
    requires forall x :: x in s ==> x < n
    ensures |s| <= n
  {
    if n == 0 {
      assert s == {};
    } else {
      BelowCard(s - {n - 1}, n - 1);
    }
  }

  ghost function Below(n: nat): (s: set<nat>)
    ensures forall x: nat :: x in s <==> x < n
  {
    if n == 0 then {} else Below(n - 1) + {n - 1}
  }

  function Factorial(n: nat): (f: nat)
    ensures f >= 1
  {
    if n == 0 then 1 else n * Factorial(n - 1)
  }
}
