/** 32-bit masks read bit by bit, and the few word tricks the solvers use. */
module BitMask {

  /** 1u << i. */
  function Power(i: nat): bv32 {
    if i == 0 then 1 else Power(i - 1) << 1
  }

  /** Bit i of x (false from bit 32 on, where the power has been shifted out). */
  predicate Bit(x: bv32, i: nat) {
    Meets(x, Power(i))
  }

  predicate Meets(x: bv32, m: bv32) {
    x & m != 0
  }

  lemma BitMeets(x: bv32, i: nat)
    ensures Bit(x, i) <==> Meets(x, Power(i))
  {
  }

  // The word operations by name, so that proofs about bits need not look
  // inside the words.

  function Or(x: bv32, y: bv32): bv32 { x | y }

  function And(x: bv32, y: bv32): bv32 { x & y }

  function Not(x: bv32): bv32 { !x }

  function Right(x: bv32): bv32 { x >> 1 }

  function Left(x: bv32): bv32 { x << 1 }

  /** (1u << k) - 1. */
  function Low(k: nat): bv32 { Power(k) - 1 }

  // ------------------------------------------------------- facts about words

  predicate Single(m: bv32) {
    m != 0 && m & (m - 1) == 0
  }

  predicate TopFree(m: bv32) {
    m & 0x8000_0000 == 0
  }

  predicate Below(x: bv32, m: bv32) {
    x & (m - 1) == 0
  }

  lemma WordZero(m: bv32)
    ensures !Meets(0, m) && (forall x: bv32 {:trigger Meets(x, 0)} :: !Meets(x, 0))
  {
  }

  lemma SingleMeets(x: bv32, m: bv32)
    requires Single(m)
    ensures x & m == 0 || x & m == m
  {
  }

  lemma WordNot(x: bv32, m: bv32)
    requires Single(m)
    ensures Meets(Not(x), m) <==> !Meets(x, m)
  {
    SingleMeets(x, m);
    assert (!x) & m == m ^ (x & m);
  }

  lemma WordOr(x: bv32, y: bv32, m: bv32)
    ensures Meets(Or(x, y), m) <==> Meets(x, m) || Meets(y, m)
  {
    assert (x | y) & m == (x & m) | (y & m);
  }

  lemma WordAnd(x: bv32, y: bv32, m: bv32)
    requires Single(m)
    ensures Meets(And(x, y), m) <==> Meets(x, m) && Meets(y, m)
  {
    SingleMeets(x, m);
    SingleMeets(y, m);
    assert (x & y) & m == (x & m) & (y & m);
  }

  lemma WordRight(x: bv32, m: bv32)
    ensures Meets(Right(x), m) <==> Meets(x, Left(m))
  {
  }

  lemma WordLeft(x: bv32, m: bv32)
    requires TopFree(m)
    ensures Meets(Left(x), Left(m)) <==> Meets(x, m)
  {
  }

  lemma WordFirst(x: bv32)
    ensures !Meets(Left(x), 1) && !Meets(1, Left(x)) && Meets(1, 1)
    ensures Meets(x, 1) <==> x & 1 == 1
  {
  }

  lemma WordLow(x: bv32, m: bv32)
    requires Single(m) && Below(x, m) && !Meets(x, m)
    ensures Below(x, Left(m))
  {
  }

  lemma WordClear(x: bv32, m: bv32)
    requires Single(m) && Meets(x, m) && Below(x, m)
    ensures And(x, x - 1) == And(x, Not(m))
  {
  }

  lemma WordHalf(x: bv32)
    requires x != 0 && x & 1 == 0
    ensures Right(x) != 0 && Right(x) < x
  {
  }

  lemma WordDouble(m: bv32)
    requires Single(m)
    ensures Left(m) - 1 == Or(m - 1, m)
  {
  }

  // ------------------------------------------------------------------ powers

  lemma PowerByFour(i: nat)
    ensures Power(i + 4) == Left(Left(Left(Left(Power(i)))))
  {
    hide *;
    PowerNext(i);
    PowerNext(i + 1);
    PowerNext(i + 2);
    PowerNext(i + 3);
  }

  lemma PowerNext(i: nat)
    ensures Power(i + 1) == Left(Power(i))
  {
  }

  lemma PowerTable()
    ensures Power(0) == 1 && Power(4) == 0x10 && Power(8) == 0x100 && Power(12) == 0x1000
    ensures Power(16) == 0x1_0000 && Power(20) == 0x10_0000 && Power(24) == 0x100_0000 && Power(28) == 0x1000_0000
    ensures Power(32) == 0
  {
    assert Power(0) == 1;
    hide *;
    PowerByFour(0);
    PowerByFour(4);
    PowerByFour(8);
    PowerByFour(12);
    PowerByFour(16);
    PowerByFour(20);
    PowerByFour(24);
    PowerByFour(28);
    FourTable();
  }

  lemma FourTable()
    ensures Left(Left(Left(Left(1)))) == 0x10
    ensures Left(Left(Left(Left(0x10)))) == 0x100
    ensures Left(Left(Left(Left(0x100)))) == 0x1000
    ensures Left(Left(Left(Left(0x1000)))) == 0x1_0000
    ensures Left(Left(Left(Left(0x1_0000)))) == 0x10_0000
    ensures Left(Left(Left(Left(0x10_0000)))) == 0x100_0000
    ensures Left(Left(Left(Left(0x100_0000)))) == 0x1000_0000
    ensures Left(Left(Left(Left(0x1000_0000)))) == 0
    ensures Left(0) == 0
  {
  }

  lemma {:induction false} PowerBeyond(i: nat)
    requires i >= 32
    ensures Power(i) == 0
  {
    hide *;
    if i == 32 {
      PowerTable();
    } else {
      PowerBeyond(i - 1);
      PowerNext(i - 1);
      FourTable();
    }
  }

  lemma PowerBase(k: nat)
    requires k < 8
    ensures k < 7 ==> NibbleBase(Power(4 * k))
    ensures k == 7 ==> Power(4 * k) == 0x1000_0000 && NibbleTop(Power(4 * k))
  {
    hide Power;
    PowerTable();
  }

  predicate NibbleBase(w: bv32) {
    Single(w) && w & 0x0111_1111 == w
  }

  predicate NibbleTop(w: bv32) {
    w == 0x1000_0000
  }

  /** The powers below bit 32 are single-bit words; only the last has the top bit. */
  lemma PowerWord(i: nat)
    requires i < 32
    ensures Single(Power(i))
    ensures i < 31 ==> TopFree(Power(i))
  {
    hide *;
    var q := i / 4 * 4;
    PowerBase(i / 4);
    PowerNext(q);
    PowerNext(q + 1);
    PowerNext(q + 2);
    NibbleWords(Power(q));
  }

  lemma NibbleWords(w: bv32)
    requires NibbleBase(w) || NibbleTop(w)
    ensures Single(w) && Single(Left(w)) && Single(Left(Left(w))) && Single(Left(Left(Left(w))))
    ensures TopFree(w) && TopFree(Left(w)) && TopFree(Left(Left(w)))
    ensures NibbleBase(w) ==> TopFree(Left(Left(Left(w))))
  {
  }

  // -------------------------------------------------------------------- bits

  lemma BitZero(i: nat)
    ensures !Bit(0, i)
  {
    hide *;
    BitMeets(0, i);
    WordZero(Power(i));
  }

  lemma BitTop(x: bv32, i: nat)
    requires i >= 32
    ensures !Bit(x, i)
  {
    hide *;
    BitMeets(x, i);
    PowerBeyond(i);
    WordZero(x);
    assert !Meets(x, 0);
  }

  lemma BitOr(x: bv32, y: bv32, i: nat)
    ensures Bit(Or(x, y), i) <==> Bit(x, i) || Bit(y, i)
  {
    hide *;
    BitMeets(x, i);
    BitMeets(y, i);
    BitMeets(Or(x, y), i);
    WordOr(x, y, Power(i));
  }

  lemma BitAnd(x: bv32, y: bv32, i: nat)
    ensures Bit(And(x, y), i) <==> Bit(x, i) && Bit(y, i)
  {
    hide *;
    if i < 32 {
      BitMeets(x, i);
      BitMeets(y, i);
      BitMeets(And(x, y), i);
      PowerWord(i);
      WordAnd(x, y, Power(i));
    } else {
      BitTop(x, i);
      BitTop(And(x, y), i);
    }
  }

  lemma BitNot(x: bv32, i: nat)
    requires i < 32
    ensures Bit(Not(x), i) <==> !Bit(x, i)
  {
    hide *;
    BitMeets(x, i);
    BitMeets(Not(x), i);
    PowerWord(i);
    WordNot(x, Power(i));
  }

  lemma BitShiftRight(x: bv32, i: nat)
    ensures Bit(Right(x), i) <==> Bit(x, i + 1)
  {
    hide *;
    BitMeets(x, i + 1);
    BitMeets(Right(x), i);
    PowerNext(i);
    WordRight(x, Power(i));
  }

  lemma BitShiftLeft(x: bv32, i: nat)
    requires i < 32
    ensures Bit(Left(x), i) <==> 0 < i && Bit(x, i - 1)
  {
    hide *;
    BitMeets(Left(x), i);
    if i == 0 {
      PowerTable();
      WordFirst(x);
    } else {
      BitMeets(x, i - 1);
      PowerNext(i - 1);
      PowerWord(i - 1);
      WordLeft(x, Power(i - 1));
    }
  }

  lemma BitFirst(x: bv32)
    ensures Bit(x, 0) <==> x & 1 == 1
  {
    hide *;
    BitMeets(x, 0);
    PowerTable();
    WordFirst(x);
  }

  /** 1u << k holds exactly bit k. */
  lemma {:induction false} BitPower(k: nat, i: nat)
    requires k < 32
    ensures Bit(Power(k), i) <==> i == k
    decreases k
  {
    hide *;
    PowerTable();
    if i >= 32 {
      BitTop(Power(k), i);
    } else if k == 0 {
      BitMeets(1, i);
      if i == 0 {
        WordFirst(1);
      } else {
        PowerNext(i - 1);
        WordFirst(Power(i - 1));
      }
    } else {
      PowerNext(k - 1);
      BitShiftLeft(Power(k - 1), i);
      if i > 0 { BitPower(k - 1, i - 1); }
    }
  }

  lemma LowDef(k: nat)
    ensures Low(k) == Power(k) - 1
  {
  }

  /** (1u << k) - 1 holds exactly the bits below k. */
  lemma {:induction false} BitLow(k: nat, i: nat)
    requires k < 32
    ensures Bit(Low(k), i) <==> i < k
  {
    assert Low(k) == Power(k) - 1 && (1 as bv32) - 1 == 0;
    hide *;
    if i >= 32 {
      BitTop(Low(k), i);
    } else if k == 0 {
      PowerTable();
      BitZero(i);
    } else {
      var m := Power(k - 1);
      PowerNext(k - 1);
      PowerWord(k - 1);
      WordDouble(m);
      BitOr(m - 1, m, i);
      LowDef(k - 1);
      BitLow(k - 1, i);
      BitPower(k - 1, i);
    }
  }

  predicate IsLowest(x: bv32, i: nat) {
    Bit(x, i) && forall j :: 0 <= j < i ==> !Bit(x, j)
  }

  lemma {:induction false} NoLowerBits(x: bv32, i: nat)
    requires i < 32 && forall j :: 0 <= j < i ==> !Bit(x, j)
    ensures Below(x, Power(i))
  {
    if i == 0 {
      assert Power(0) == 1;
      assert x & 0 == 0;
    } else {
      hide *;
      NoLowerBits(x, i - 1);
      PowerNext(i - 1);
      PowerWord(i - 1);
      BitMeets(x, i - 1);
      WordLow(x, Power(i - 1));
    }
  }

  /** `x &= x - 1` clears the lowest set bit and no other. */
  lemma ClearLowest(x: bv32, i: nat, j: nat)
    requires i < 32 && IsLowest(x, i)
    ensures Bit(And(x, x - 1), j) <==> Bit(x, j) && j != i
  {
    assert Bit(x, i) && Below(x, Power(i)) by {
      hide Bit, Below, Power;
      NoLowerBits(x, i);
    }
    hide *;
    PowerWord(i);
    BitMeets(x, i);
    WordClear(x, Power(i));
    BitAnd(x, Not(Power(i)), j);
    if j < 32 {
      BitNot(Power(i), j);
      BitPower(i, j);
    } else {
      BitTop(x, j);
    }
  }

  /** NQ_CTZ: the index of the lowest set bit. */
  method CountTrailingZeros(word: bv32) returns (n: nat)
    requires word != 0
    ensures n < 32 && IsLowest(word, n)
  {
    hide Power, Bit, Meets;
    var x := word;
    n := 0;
    while x & 1 == 0
      invariant x != 0
      invariant forall j: nat {:trigger Bit(x, j)} :: Bit(x, j) <==> Bit(word, n + j)
      invariant forall j :: 0 <= j < n ==> !Bit(word, j)
      decreases x
    {
      BitFirst(x);
      WordHalf(x);
      forall j: nat {:trigger Bit(Right(x), j)} ensures Bit(Right(x), j) <==> Bit(word, n + 1 + j) {
        BitShiftRight(x, j);
        assert Bit(x, j + 1) <==> Bit(word, n + (j + 1));
      }
      assert Bit(x, 0) <==> Bit(word, n + 0);
      assert Right(x) == x >> 1;
      x := x >> 1;
      n := n + 1;
    }
    BitFirst(x);
    assert Bit(x, 0) <==> Bit(word, n + 0);
    if n >= 32 { BitTop(word, n); }
  }
}
