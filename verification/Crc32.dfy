/** The hand-rolled CRC-32: table-driven, one byte at a time, over a reflected register. */
module Crc {
  import opened Bytes
  import opened Bitwise

  const POLY: u32 := 0xEDB8_8320
  const ONES: u32 := 0xFFFF_FFFF

  // ----- the register and the table -----------------------------------------

  /** One turn of the loop that fills the table, on a register of any width. */
  function BitStep(c: nat): nat {
    if c % 2 != 0 then Xor(POLY, c / 2) else c / 2
  }

  function Steps(c: nat, n: nat): nat
    decreases n, c
  {
    if n == 0 then c else Steps(BitStep(c), n - 1)
  }

  /** Feed one byte: xor it into the register, then eight bit steps. */
  function Absorb(c: nat, b: byte): nat {
    Steps(Xor(c, b), 8)
  }

  function AbsorbAll(c: nat, s: bytes): nat
    decreases |s|
  {
    if s == [] then c else AbsorbAll(Absorb(c, s[0]), s[1..])
  }

  /** `crc32`, the one-shot checksum, in its bit-at-a-time form. */
  function Checksum(s: bytes): (crc: u32) {
    AbsorbAllBound(ONES, s);
    Pow2Values();
    XorBound(AbsorbAll(ONES, s), ONES, 32);
    Xor(AbsorbAll(ONES, s), ONES)
  }

  lemma BitStepBound(c: nat)
    requires c < U32_LIMIT
    ensures BitStep(c) < U32_LIMIT
  {
    Pow2Values();
    XorBound(POLY, c / 2, 32);
  }

  lemma {:induction false} StepsBound(c: nat, n: nat)
    requires c < U32_LIMIT
    ensures Steps(c, n) < U32_LIMIT
    decreases n
  {
    if n == 0 {
    } else {
      BitStepBound(c);
      StepsBound(BitStep(c), n - 1);
    }
  }

  lemma {:induction false} AbsorbAllBound(c: nat, s: bytes)
    requires c < U32_LIMIT
    ensures AbsorbAll(c, s) < U32_LIMIT
    decreases |s|
  {
    if s == [] {
    } else {
      Pow2Values();
      XorBound(c, s[0], 32);
      StepsBound(Xor(c, s[0]), 8);
      AbsorbAllBound(Absorb(c, s[0]), s[1..]);
    }
  }

  // ----- linearity and injectivity of the step ------------------------------

  lemma BitStepLinear(c: nat, d: nat)
    ensures BitStep(Xor(c, d)) == Xor(BitStep(c), BitStep(d))
  {
    XorHalf(c, d);
    var x, y := c / 2, d / 2;
    XorAssoc(POLY, x, y);
    XorComm(x, Xor(POLY, y));
    XorAssoc(POLY, y, x);
    XorComm(x, y);
    XorSwap(POLY, x, POLY, y);
    XorSelf(POLY);
    XorZero(Xor(x, y));
  }

  lemma {:induction false} StepsLinear(c: nat, d: nat, n: nat)
    ensures Steps(Xor(c, d), n) == Xor(Steps(c, n), Steps(d, n))
    decreases n
  {
    if n == 0 {
    } else {
      BitStepLinear(c, d);
      StepsLinear(BitStep(c), BitStep(d), n - 1);
    }
  }

  /** The generator has its top coefficient set, so no non-zero register steps to zero. */
  lemma BitStepNonZero(c: nat)
    requires 0 < c < U32_LIMIT
    ensures 0 < BitStep(c) < U32_LIMIT
  {
    BitStepBound(c);
    XorNonZero(POLY, c / 2);
  }

  lemma {:induction false} StepsNonZero(c: nat, n: nat)
    requires 0 < c < U32_LIMIT
    ensures 0 < Steps(c, n) < U32_LIMIT
    decreases n
  {
    if n == 0 {
    } else {
      BitStepNonZero(c);
      StepsNonZero(BitStep(c), n - 1);
    }
  }

  /** Stepping is injective on 32-bit registers. */
  lemma StepsInjective(c: nat, d: nat, n: nat)
    requires c < U32_LIMIT && d < U32_LIMIT
    ensures Steps(c, n) == Steps(d, n) <==> c == d
  {
    StepsLinear(c, d, n);
    XorNonZero(c, d);
    XorNonZero(Steps(c, n), Steps(d, n));
    Pow2Values();
    XorBound(c, d, 32);
    if c != d {
      StepsNonZero(Xor(c, d), n);
    }
  }

  /** Steps of a register whose low bits are clear only shift it. */
  lemma {:induction false} StepsShift(h: nat, k: nat, n: nat)
    ensures Steps(Pow2(k) * h, k + n) == Steps(h, n)
    decreases k
  {
    if k == 0 {
    } else {
      DoubleSplit(h, k);
      assert BitStep(2 * (Pow2(k - 1) * h)) == Pow2(k - 1) * h;
      StepsShift(h, k - 1, n);
    }
  }

  // ----- the table form ------------------------------------------------------

  /** The lookup of `update`, `t[(c ^ b) & 0xFF] ^ (c >> 8)`, is eight bit steps. */
  lemma TableForm(c: nat, b: byte)
    ensures Xor(Steps(Xor(c, b) % 256, 8), c / 256) == Absorb(c, b)
  {
    var high := c / 256;
    var x := SplitByte(c, b);
    EightSteps(x, high);
  }

  /** The byte meets the low byte of the register; the rest is untouched. */
  lemma SplitByte(c: nat, b: byte) returns (x: byte)
    ensures x == Xor(c, b) % 256 && Xor(c, b) == x + 256 * (c / 256)
  {
    hide Xor, Pow2;
    Pow2Values();
    XorLow(c % 256, c / 256, b, 8);
    x := Xor(c % 256, b);
    assert c == c % 256 + 256 * (c / 256);
  }

  lemma EightSteps(x: byte, high: nat)
    ensures Steps(x + 256 * high, 8) == Xor(Steps(x, 8), high)
  {
    Pow2Values();
    XorDisjoint(x, high, 8);
    StepsLinear(x, Pow2(8) * high, 8);
    StepsShift(high, 8, 0);
  }

  method TableSlot(i: byte) returns (c: u32)
    ensures c == Steps(i, 8)
  {
    c := i;
    var k := 0;
    while k < 8
      invariant 0 <= k <= 8
      invariant Steps(c, 8 - k) == Steps(i, 8)
    {
      BitStepBound(c);
      c := if c % 2 != 0 then Xor(POLY, c / 2) else c / 2;
      k := k + 1;
    }
  }

  method BuildTable() returns (t: array<u32>)
    ensures fresh(t) && IsTable(t[..])
  {
    t := new u32[256](_ => 0);
    var i := 0;
    while i < 256
      invariant 0 <= i <= 256
      invariant forall k :: 0 <= k < i ==> t[k] == Steps(k, 8)
    {
      t[i] := TableSlot(i);
      i := i + 1;
    }
  }

  predicate IsTable(t: seq<u32>) {
    |t| == 256 && forall k :: 0 <= k < 256 ==> t[k] == Steps(k, 8)
  }

  lemma Lookup(t: seq<u32>, c: u32, b: byte)
    requires IsTable(t)
    ensures Xor(t[Xor(c, b) % 256], c / 256) == Absorb(c, b) < U32_LIMIT
  {
    TableForm(c, b);
    AbsorbAllBound(c, [b]);
    assert AbsorbAll(c, [b]) == AbsorbAll(Absorb(c, b), []);
  }

  /** The rolling checksum object. */
  class Crc32 {
    var value: u32

    constructor ()
      ensures value == ONES
    {
      value := ONES;
    }

    method Update(buf: bytes)
      modifies this
      ensures value == AbsorbAll(old(value), buf)
    {
      var t := BuildTable();
      var c: u32 := value;
      var i := 0;
      while i < |buf|
        invariant 0 <= i <= |buf|
        invariant AbsorbAll(c, buf[i..]) == AbsorbAll(old(value), buf)
        invariant IsTable(t[..])
      {
        Lookup(t[..], c, buf[i]);
        assert buf[i..][1..] == buf[i + 1..];
        c := Xor(t[Xor(c, buf[i]) % 256], c / 256);
        i := i + 1;
      }
      value := c;
    }

    /** The checksum of whatever has been fed since the object was new, in however many pieces. */
    method Finish() returns (crc: u32)
      ensures crc == Xor(value, ONES)
      ensures forall s: bytes :: value == AbsorbAll(ONES, s) ==> crc == Checksum(s)
    {
      Pow2Values();
      XorBound(value, ONES, 32);
      crc := Xor(value, ONES);
    }
  }
}
