/**
 Exclusive or on unsigned integers of any width, bit by bit.

 The program's `u32` operations `^`, `>> k` and `& (2^k - 1)` are `Xor`, division and
 remainder by `Pow2(k)` here, so one set of lemmas covers registers and whole files alike.
 */
module Bitwise {
  function Xor(a: nat, b: nat): nat
    decreases a + b
  {
    if a == 0 && b == 0 then 0 else (if a % 2 == b % 2 then 0 else 1) + 2 * Xor(a / 2, b / 2)
  }

  function Pow2(k: nat): (p: nat)
    ensures p > 0
  {
    if k == 0 then 1 else 2 * Pow2(k - 1)
  }

  lemma XorHalf(a: nat, b: nat)
    ensures Xor(a, b) / 2 == Xor(a / 2, b / 2)
    ensures Xor(a, b) % 2 == if a % 2 == b % 2 then 0 else 1
  {
  }

  lemma {:induction false} XorComm(a: nat, b: nat)
    ensures Xor(a, b) == Xor(b, a)
    decreases a + b
  {
    if a + b == 0 {
    } else {
      XorComm(a / 2, b / 2);
    }
  }

  lemma {:induction false} XorZero(a: nat)
    ensures Xor(a, 0) == a && Xor(0, a) == a
  {
    XorComm(a, 0);
    if a == 0 {
    } else {
      XorZero(a / 2);
    }
  }

  lemma {:induction false} XorSelf(a: nat)
    ensures Xor(a, a) == 0
  {
    if a == 0 {
    } else {
      XorSelf(a / 2);
    }
  }

  lemma {:induction false} XorAssoc(a: nat, b: nat, c: nat)
    ensures Xor(Xor(a, b), c) == Xor(a, Xor(b, c))
    decreases a + b + c
  {
    if a + b + c == 0 {
    } else {
      XorAssoc(a / 2, b / 2, c / 2);
      XorThreeHalf(a, b, c);
      XorThreeHalf(b, c, a);
      XorComm(Xor(b, c), a);
      XorComm(Xor(b / 2, c / 2), a / 2);
      HalvesEqual(Xor(Xor(a, b), c), Xor(a, Xor(b, c)));
    }
  }

  lemma XorThreeHalf(a: nat, b: nat, c: nat)
    ensures Xor(Xor(a, b), c) / 2 == Xor(Xor(a / 2, b / 2), c / 2)
    ensures Xor(Xor(a, b), c) % 2 == if (a % 2 == b % 2) == (c % 2 == 0) then 0 else 1
  {
    XorHalf(a, b);
    XorHalf(Xor(a, b), c);
  }

  lemma HalvesEqual(x: nat, y: nat)
    requires x / 2 == y / 2 && x % 2 == y % 2
    ensures x == y
  {
  }

  /** Exclusive or of equal values only is zero. */
  lemma XorNonZero(a: nat, b: nat)
    ensures Xor(a, b) == 0 <==> a == b
  {
    XorSelf(a);
    XorCancel(a, b);
    if Xor(a, b) == 0 {
      XorZero(a);
    }
  }

  lemma XorCancel(a: nat, b: nat)
    ensures Xor(a, Xor(a, b)) == b && Xor(Xor(a, b), b) == a
  {
    XorAssoc(a, a, b);
    XorSelf(a);
    XorZero(b);
    XorAssoc(a, b, b);
    XorSelf(b);
    XorZero(a);
  }

  /** (a ^ b) ^ (c ^ d) == (a ^ c) ^ (b ^ d) */
  lemma XorSwap(a: nat, b: nat, c: nat, d: nat)
    ensures Xor(Xor(a, b), Xor(c, d)) == Xor(Xor(a, c), Xor(b, d))
  {
    XorAssoc(a, b, Xor(c, d));
    XorAssoc(b, c, d);
    XorComm(b, c);
    XorAssoc(c, b, d);
    XorAssoc(a, c, Xor(b, d));
  }

  lemma {:induction false} XorBound(a: nat, b: nat, k: nat)
    requires a < Pow2(k) && b < Pow2(k)
    ensures Xor(a, b) < Pow2(k)
    decreases k
  {
    if k == 0 {
    } else {
      XorHalf(a, b);
      XorBound(a / 2, b / 2, k - 1);
    }
  }

  /** Shifting left distributes: no bits collide. */
  lemma {:induction false} XorScale(a: nat, b: nat, k: nat)
    ensures Xor(Pow2(k) * a, Pow2(k) * b) == Pow2(k) * Xor(a, b)
    decreases k
  {
    hide Xor;
    if k == 0 {
    } else {
      DoubleSplit(a, k);
      DoubleSplit(b, k);
      DoubleSplit(Xor(a, b), k);
      XorScale(a, b, k - 1);
      XorDouble(Pow2(k - 1) * a, Pow2(k - 1) * b);
    }
  }

  lemma XorDouble(x: nat, y: nat)
    ensures Xor(2 * x, 2 * y) == 2 * Xor(x, y)
  {
  }

  lemma DoubleSplit(a: nat, k: nat)
    requires k > 0
    ensures Pow2(k) * a == 2 * (Pow2(k - 1) * a)
  {
  }

  /** Bits that do not overlap add up. */
  lemma {:induction false} XorDisjoint(low: nat, high: nat, k: nat)
    requires low < Pow2(k)
    ensures Xor(low, Pow2(k) * high) == low + Pow2(k) * high
    decreases k
  {
    hide Xor;
    if k == 0 {
      XorZero(high);
    } else {
      var half := Pow2(k - 1) * high;
      DoubleSplit(high, k);
      XorHalf(low, 2 * half);
      XorDisjoint(low / 2, high, k - 1);
    }
  }

  /** Two numbers that agree below bit `k` differ by a multiple of 2^k, and nothing below. */
  lemma XorSplit(low: nat, a: nat, b: nat, k: nat)
    requires low < Pow2(k)
    ensures Xor(low + Pow2(k) * a, low + Pow2(k) * b) == Pow2(k) * Xor(a, b)
  {
    hide Xor, Pow2;
    XorDisjoint(low, a, k);
    XorDisjoint(low, b, k);
    XorSwap(low, Pow2(k) * a, low, Pow2(k) * b);
    XorSelf(low);
    XorScale(a, b, k);
    XorZero(Pow2(k) * Xor(a, b));
  }

  /** The higher part of two numbers plays no role in how their lower parts differ. */
  lemma XorParts(lowA: nat, lowB: nat, a: nat, b: nat, k: nat)
    requires lowA < Pow2(k) && lowB < Pow2(k)
    ensures Xor(lowA + Pow2(k) * a, lowB + Pow2(k) * b) == Xor(lowA, lowB) + Pow2(k) * Xor(a, b)
  {
    hide Xor, Pow2;
    XorDisjoint(lowA, a, k);
    XorDisjoint(lowB, b, k);
    XorSwap(lowA, Pow2(k) * a, lowB, Pow2(k) * b);
    XorScale(a, b, k);
    XorBound(lowA, lowB, k);
    XorDisjoint(Xor(lowA, lowB), Xor(a, b), k);
  }

  /** Xor with a `k`-bit number leaves the bits above alone. */
  lemma XorLow(low: nat, high: nat, b: nat, k: nat)
    requires low < Pow2(k) && b < Pow2(k)
    ensures Xor(low, b) < Pow2(k)
    ensures Xor(low + Pow2(k) * high, b) == Xor(low, b) + Pow2(k) * high
  {
    XorBound(low, b, k);
    XorZero(high);
    XorParts(low, b, high, 0, k);
  }

  lemma {:induction false} Pow2Sum(a: nat, b: nat)
    ensures Pow2(a + b) == Pow2(a) * Pow2(b)
    decreases a
  {
    if a == 0 {
    } else {
      Pow2Sum(a - 1, b);
      DoubleSplit(Pow2(b), a);
    }
  }

  lemma Pow2Values()
    ensures Pow2(8) == 256 && Pow2(31) == 0x8000_0000 && Pow2(32) == 0x1_0000_0000
  {
    assert Pow2(4) == 16;
    assert Pow2(8) == 16 * Pow2(4);
    assert Pow2(12) == 16 * Pow2(8);
    assert Pow2(16) == 16 * Pow2(12);
    assert Pow2(20) == 16 * Pow2(16);
    assert Pow2(24) == 16 * Pow2(20);
    assert Pow2(28) == 16 * Pow2(24);
    assert Pow2(31) == 8 * Pow2(28);
  }
}
