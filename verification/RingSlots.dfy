/** Slot arithmetic of ring buffers: the k-th item lives in slot k mod capacity. */
module RingSlots {

  /** The slot of the k-th item: the logical index modulo the capacity. */
  function Slot(cap: nat, k: nat): nat
    requires cap > 0
  {
    k % cap
  }

  lemma ModUnique(x: nat, c: nat, q: nat, m: nat)
    requires c > 0 && x == q * c + m && m < c
    ensures x % c == m
  {
    var e := x / c - q;
    assert x == (x / c) * c + x % c;
    assert e * c == m - x % c;
    MulGrows(e, c);
  }

  lemma MulGrows(e: int, c: int)
    requires c >= 0
    ensures e >= 0 ==> e * c >= 0
    ensures e >= 1 ==> e * c >= c
    ensures e <= -1 ==> e * c <= -c
  {
  }

  lemma SlotOf(cap: nat, k: nat) returns (q: nat)
    requires cap > 0
    ensures k == q * cap + Slot(cap, k) && Slot(cap, k) < cap
  {
    q := k / cap;
  }

  lemma SlotIs(cap: nat, k: nat, q: nat, m: nat)
    requires m < cap && k == q * cap + m
    ensures Slot(cap, k) == m
  {
    ModUnique(k, cap, q, m);
  }

  lemma SlotSuccessor(cap: nat, k: nat)
    requires cap > 0
    ensures Slot(cap, Slot(cap, k) + 1) == Slot(cap, k + 1)
  {
    hide Slot;
    var m := Slot(cap, k);
    var q := SlotOf(cap, k);
    if m + 1 < cap {
      SlotIs(cap, k + 1, q, m + 1);
      SlotIs(cap, m + 1, 0, m + 1);
    } else {
      assert (q + 1) * cap == q * cap + cap;
      SlotIs(cap, k + 1, q + 1, 0);
      SlotIs(cap, m + 1, 1, 0);
    }
  }

  /** Less than a lap apart, different counts have different slots. */
  lemma SlotsDiffer(cap: nat, j: nat, k: nat)
    requires cap > 0 && j <= k <= j + cap
    ensures Slot(cap, j) < cap
    ensures Slot(cap, j) == Slot(cap, k) <==> k == j || k == j + cap
  {
    hide Slot;
    var p := SlotOf(cap, j);
    var q := SlotOf(cap, k);
    var e := q - p;
    assert e * cap == q * cap - p * cap;
    MulGrows(e, cap);
    MulGrows(e - 1, cap);
    assert (e - 1) * cap == e * cap - cap;
    if k == j + cap {
      assert (p + 1) * cap == p * cap + cap;
      SlotIs(cap, k, p + 1, Slot(cap, j));
    }
  }
}
