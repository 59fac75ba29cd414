/** Circular doubly linked lists held in two link sequences. */
module Rings {

  /** Position i of the ring that starts and ends at its head c. */
  ghost function At(c: nat, l: seq<nat>, i: nat): nat
    requires i <= |l| + 1
  {
    if i == 0 || i == |l| + 1 then c else l[i - 1]
  }

  ghost predicate Distinct(c: nat, l: seq<nat>) {
    c !in l && forall i, j :: 0 <= i < j < |l| ==> l[i] != l[j]
  }

  /** Following `nx` from c visits l in order and returns to c; `pv` is the way back. */
  ghost predicate Ring(nx: seq<nat>, pv: seq<nat>, c: nat, l: seq<nat>) {
    && |nx| == |pv| && c < |nx| && Distinct(c, l)
    && (forall i :: 0 <= i < |l| ==> l[i] < |nx|)
    && (forall i :: 0 <= i <= |l| ==> nx[At(c, l, i)] == At(c, l, i + 1))
    && (forall i :: 0 <= i <= |l| ==> pv[At(c, l, i + 1)] == At(c, l, i))
  }

  ghost function Drop(l: seq<nat>, k: nat): seq<nat>
    requires k < |l|
  {
    l[..k] + l[k + 1..]
  }

  lemma AtInjective(c: nat, l: seq<nat>, i: nat, j: nat)
    requires Distinct(c, l) && i <= |l| && j <= |l|
    ensures At(c, l, i) == At(c, l, j) <==> i == j
  {
  }

  lemma AtDrop(c: nat, l: seq<nat>, k: nat, i: nat)
    requires k < |l| && i <= |l|
    ensures At(c, Drop(l, k), i) == if i <= k then At(c, l, i) else At(c, l, i + 1)
  {
  }

  lemma DropDistinct(c: nat, l: seq<nat>, k: nat)
    requires Distinct(c, l) && k < |l|
    ensures Distinct(c, Drop(l, k))
    ensures forall x :: x in Drop(l, k) <==> x in l && x != l[k]
  {
    var d := Drop(l, k);
    forall i | 0 <= i < |d| ensures d[i] == if i < k then l[i] else l[i + 1] {}
    forall x | x in l && x != l[k] ensures x in d {
      var i :| 0 <= i < |l| && l[i] == x;
      assert d[if i < k then i else i - 1] == x;
    }
  }

  lemma RingNeighbours(nx: seq<nat>, pv: seq<nat>, c: nat, l: seq<nat>, k: nat)
    requires Ring(nx, pv, c, l) && k < |l|
    ensures l[k] < |nx|
    ensures nx[l[k]] == At(c, l, k + 2) < |nx| && pv[l[k]] == At(c, l, k) < |nx|
    ensures nx[l[k]] != l[k] && pv[l[k]] != l[k]
    ensures pv[nx[l[k]]] == l[k] && nx[pv[l[k]]] == l[k]
  {
    assert At(c, l, k + 1) == l[k];
    assert nx[At(c, l, k + 1)] == At(c, l, k + 2);
    assert pv[At(c, l, k + 1)] == At(c, l, k);
    assert nx[At(c, l, k)] == At(c, l, k + 1);
    assert pv[At(c, l, k + 2)] == At(c, l, k + 1);
  }

  /** Unlinking: the neighbours of l[k] are joined, l[k] keeps its own links. */
  lemma RingRemove(nx: seq<nat>, pv: seq<nat>, c: nat, l: seq<nat>, k: nat)
    requires Ring(nx, pv, c, l) && k < |l|
    ensures l[k] < |nx| && nx[l[k]] < |nx| && pv[l[k]] < |nx|
    ensures Ring(nx[pv[l[k]] := nx[l[k]]], pv[nx[l[k]] := pv[l[k]]], c, Drop(l, k))
  {
    RingNeighbours(nx, pv, c, l, k);
    DropDistinct(c, l, k);
    var a, b, d := pv[l[k]], nx[l[k]], Drop(l, k);
    var nx', pv' := nx[a := b], pv[b := a];
    forall i | 0 <= i <= |d|
      ensures nx'[At(c, d, i)] == At(c, d, i + 1) && pv'[At(c, d, i + 1)] == At(c, d, i)
    {
      RemoveAt(nx, pv, c, l, k, i);
    }
  }

  lemma RemoveAt(nx: seq<nat>, pv: seq<nat>, c: nat, l: seq<nat>, k: nat, i: nat)
    requires Ring(nx, pv, c, l) && k < |l| && i <= |l| - 1
    requires l[k] < |nx| && nx[l[k]] < |nx| && pv[l[k]] < |nx|
    ensures var d, a, b := Drop(l, k), pv[l[k]], nx[l[k]];
      && At(c, d, i) < |nx| && At(c, d, i + 1) < |nx|
      && nx[a := b][At(c, d, i)] == At(c, d, i + 1) && pv[b := a][At(c, d, i + 1)] == At(c, d, i)
  {
    RingNeighbours(nx, pv, c, l, k);
    var a, b := At(c, l, k), At(c, l, k + 2);
    AtDrop(c, l, k, i);
    AtDrop(c, l, k, i + 1);
    if i < k {
      AtInjective(c, l, i, k);
      AtInjective(c, l, i + 1, if k + 2 == |l| + 1 then 0 else k + 2);
      assert nx[At(c, l, i)] == At(c, l, i + 1) && pv[At(c, l, i + 1)] == At(c, l, i);
    } else if i > k {
      AtInjective(c, l, i + 1, k);
      AtInjective(c, l, if i + 2 == |l| + 1 then 0 else i + 2, k + 2);
      assert nx[At(c, l, i + 1)] == At(c, l, i + 2) && pv[At(c, l, i + 2)] == At(c, l, i + 1);
    }
  }

  /** Appending x in front of the head, that is, at the end of the list. */
  lemma RingAppend(nx: seq<nat>, pv: seq<nat>, c: nat, l: seq<nat>, x: nat)
    requires Ring(nx, pv, c, l) && x < |nx| && x != c && x !in l
    ensures pv[c] < |nx| && nx[pv[c]] == c && pv[c] != x
    ensures Ring(nx[x := c][pv[c] := x], pv[x := pv[c]][c := x], c, l + [x])
  {
    var n := |l|;
    assert pv[At(c, l, n + 1)] == At(c, l, n) && nx[At(c, l, n)] == At(c, l, n + 1);
    var last, m := pv[c], l + [x];
    var nx', pv' := nx[x := c][last := x], pv[x := last][c := x];
    forall i | 0 <= i <= |m|
      ensures nx'[At(c, m, i)] == At(c, m, i + 1) && pv'[At(c, m, i + 1)] == At(c, m, i)
    {
      if i < n {
        assert At(c, m, i) == At(c, l, i) && At(c, m, i + 1) == At(c, l, i + 1);
        AtInjective(c, l, i, n);
        assert nx[At(c, l, i)] == At(c, l, i + 1) && pv[At(c, l, i + 1)] == At(c, l, i);
      }
    }
  }

  /** Links outside a ring may change freely. */
  lemma RingFrame(nx: seq<nat>, pv: seq<nat>, nx': seq<nat>, pv': seq<nat>, c: nat, l: seq<nat>)
    requires Ring(nx, pv, c, l) && |nx| == |nx'| == |pv'|
    requires forall y :: 0 <= y < |nx| && (y == c || y in l) ==> nx'[y] == nx[y] && pv'[y] == pv[y]
    ensures Ring(nx', pv', c, l)
  {
    forall i | 0 <= i <= |l|
      ensures nx'[At(c, l, i)] == At(c, l, i + 1) && pv'[At(c, l, i + 1)] == At(c, l, i)
    {
      assert nx[At(c, l, i)] == At(c, l, i + 1) && pv[At(c, l, i + 1)] == At(c, l, i);
    }
  }
}
