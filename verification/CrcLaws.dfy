/**
 What the checksum means: it is the remainder of one long division of the whole message,
 so chunking cannot matter, a message followed by its own checksum has a constant checksum,
 and every burst of at most 32 bits changes it.
 */
module CrcLaws {
  import opened Bytes
  import opened Bitwise
  import opened Crc

  // ----- one long division ----------------------------------------------------

  lemma {:induction false} StepsSplit(c: nat, m: nat, n: nat)
    ensures Steps(c, m + n) == Steps(Steps(c, m), n)
    decreases m
  {
    if m == 0 {
    } else {
      StepsSplit(BitStep(c), m - 1, n);
    }
  }

  /** Updating over any split into chunks is updating over the whole. */
  lemma {:induction false} AbsorbConcat(c: nat, a: bytes, b: bytes)
    ensures AbsorbAll(c, a + b) == AbsorbAll(AbsorbAll(c, a), b)
    decreases |a|
  {
    if a == [] {
      assert a + b == b;
    } else {
      assert (a + b)[1..] == a[1..] + b;
      AbsorbConcat(Absorb(c, a[0]), a[1..], b);
    }
  }

  /** The byte-at-a-time update divides the message, read as one integer, bit by bit. */
  lemma {:induction false} AbsorbIsDivision(c: nat, s: bytes)
    ensures AbsorbAll(c, s) == Steps(Xor(c, FromLittleEndian(s)), 8 * |s|)
    decreases |s|
  {
    if s == [] {
      XorZero(c);
    } else {
      var b, rest := s[0], FromLittleEndian(s[1..]);
      AbsorbIsDivision(Absorb(c, b), s[1..]);
      AbsorbFirst(c, b, rest);
      StepsSplit(Xor(c, b + 256 * rest), 8, 8 * |s[1..]|);
    }
  }

  lemma AbsorbFirst(c: nat, b: byte, rest: nat)
    ensures Steps(Xor(c, b + 256 * rest), 8) == Xor(Absorb(c, b), rest)
  {
    Pow2Values();
    XorDisjoint(b, rest, 8);
    XorAssoc(c, b, Pow2(8) * rest);
    StepsLinear(Xor(c, b), Pow2(8) * rest, 8);
    StepsShift(rest, 8, 0);
  }

  // ----- residue ----------------------------------------------------------------

  /** The checksum of every message that ends in its own checksum. */
  function ResidueValue(): (r: u32) {
    StepsBound(ONES, 32);
    Pow2Values();
    XorBound(Steps(ONES, 32), ONES, 32);
    Xor(Steps(ONES, 32), ONES)
  }

  /** A message followed by a 32-bit word has that checksum exactly when the word is the message's own. */
  lemma Residue(body: bytes, tail: bytes)
    requires |tail| == 4
    ensures Checksum(body + tail) == ResidueValue() <==> FromLittleEndian(tail) == Checksum(body)
  {
    var c := AbsorbAll(ONES, body);
    AbsorbAllBound(ONES, body);
    AbsorbConcat(ONES, body, tail);
    AbsorbIsDivision(c, tail);
    FieldBounds(tail);
    ResidueRegister(c, FromLittleEndian(tail));
  }

  lemma ResidueOfSelf(body: bytes)
    ensures Checksum(body + LittleEndian(Checksum(body), 4)) == ResidueValue()
  {
    hide Xor, AbsorbAll, LittleEndian, FromLittleEndian, ResidueValue;
    FieldRoundTrips(Checksum(body));
    Residue(body, LittleEndian(Checksum(body), 4));
  }

  lemma ResidueRegister(c: u32, w: u32)
    ensures Xor(Steps(Xor(c, w), 32), ONES) == ResidueValue() <==> w == Xor(c, ONES)
  {
    Pow2Values();
    XorBound(c, w, 32);
    StepsInjective(Xor(c, w), ONES, 32);
    XorInjective(Steps(Xor(c, w), 32), Steps(ONES, 32), ONES);
    XorCancel(c, w);
    XorCancel(c, ONES);
  }

  lemma XorInjective(a: nat, b: nat, c: nat)
    ensures Xor(a, c) == Xor(b, c) <==> a == b
  {
    XorCancel(a, c);
    XorCancel(b, c);
  }

  // ----- bits in transmission order ---------------------------------------------

  /** The low `k` bits of `n`, least significant first. */
  function BitsOf(n: nat, k: nat): (b: seq<bool>)
    ensures |b| == k
    decreases k, n
  {
    if k == 0 then [] else [n % 2 == 1] + BitsOf(n / 2, k - 1)
  }

  function Bit(b: bool): nat { if b then 1 else 0 }

  function FromBits(b: seq<bool>): (n: nat) {
    if b == [] then 0 else Bit(b[0]) + 2 * FromBits(b[1..])
  }

  /** Exclusive or one bit at a time. */
  lemma XorBit(b: bool, c: bool, x: nat, y: nat, f: bool)
    requires f == (b != c)
    ensures Xor(Bit(b) + 2 * x, Bit(c) + 2 * y) == Bit(f) + 2 * Xor(x, y)
  {
    hide Xor;
    XorHalf(Bit(b) + 2 * x, Bit(c) + 2 * y);
  }

  /** A message as the bits the wire would carry: each byte least significant bit first. */
  function MessageBits(s: bytes): (b: seq<bool>)
    ensures |b| == 8 * |s|
  {
    if s == [] then [] else BitsOf(s[0], 8) + MessageBits(s[1..])
  }

  lemma {:induction false} BitsRoundTrip(n: nat, k: nat)
    requires n < Pow2(k)
    ensures FromBits(BitsOf(n, k)) == n
    decreases k
  {
    if k == 0 {
    } else {
      assert BitsOf(n, k)[1..] == BitsOf(n / 2, k - 1);
      BitsRoundTrip(n / 2, k - 1);
    }
  }

  lemma {:induction false} FromBitsBound(b: seq<bool>)
    ensures FromBits(b) < Pow2(|b|)
    ensures BitsOf(FromBits(b), |b|) == b
  {
    if b == [] {
    } else {
      FromBitsBound(b[1..]);
      assert b == [b[0]] + b[1..];
    }
  }

  lemma {:induction false} FromBitsConcat(a: seq<bool>, b: seq<bool>)
    ensures FromBits(a + b) == FromBits(a) + Pow2(|a|) * FromBits(b)
  {
    if a == [] {
      assert a + b == b;
    } else {
      assert (a + b)[1..] == a[1..] + b;
      FromBitsConcat(a[1..], b);
      MulAssoc(2, Pow2(|a| - 1), FromBits(b));
    }
  }

  lemma {:induction false} MessageBitsValue(s: bytes)
    ensures FromBits(MessageBits(s)) == FromLittleEndian(s)
  {
    if s == [] {
    } else {
      Pow2Values();
      BitsRoundTrip(s[0], 8);
      FromBitsConcat(BitsOf(s[0], 8), MessageBits(s[1..]));
      MessageBitsValue(s[1..]);
    }
  }

  lemma {:induction false} MessageBitsConcat(a: bytes, b: bytes)
    ensures MessageBits(a + b) == MessageBits(a) + MessageBits(b)
  {
    if a == [] {
      assert a + b == b;
    } else {
      assert (a + b)[1..] == a[1..] + b;
      MessageBitsConcat(a[1..], b);
    }
  }

  lemma MessageBitsInjective(s: bytes, t: bytes)
    requires |s| == |t| && MessageBits(s) == MessageBits(t)
    ensures s == t
  {
    MessageBitsValue(s);
    MessageBitsValue(t);
    FromLittleEndianRoundTrip(s);
    FromLittleEndianRoundTrip(t);
  }

  // ----- bursts -------------------------------------------------------------------

  /**
   Every error burst of at most 32 bits is caught: two messages of the same length whose bits
   agree before and after some 32-bit stretch have equal checksums only if they are equal.
   */
  lemma BurstDetected(f: bytes, g: bytes, pre: seq<bool>, u: seq<bool>, v: seq<bool>, post: seq<bool>)
    requires MessageBits(f) == pre + u + post && MessageBits(g) == pre + v + post
    requires |u| == |v| <= 32 && u != v
    ensures Checksum(f) != Checksum(g)
  {
    hide Xor, FromBits, Pow2, MessageBits, FromLittleEndian, Steps, AbsorbAll;
    var n := 8 * |f|;
    var F, G := FromLittleEndian(f), FromLittleEndian(g);
    var d := Difference(f, g, pre, u, v, post);
    AbsorbIsDivision(ONES, f);
    AbsorbIsDivision(ONES, g);
    var x, y := AbsorbAll(ONES, f), AbsorbAll(ONES, g);
    assert Xor(x, y) == Steps(Xor(F, G), n) by {
      StepsLinear(Xor(ONES, F), Xor(ONES, G), n);
      XorSwap(ONES, F, ONES, G);
      XorSelf(ONES);
      XorZero(Xor(F, G));
    }
    StepsShift(d, |pre|, n - |pre|);
    StepsNonZero(d, n - |pre|);
    XorNonZero(x, y);
    XorInjective(x, y, ONES);
  }

  lemma Difference(f: bytes, g: bytes, pre: seq<bool>, u: seq<bool>, v: seq<bool>, post: seq<bool>)
    returns (d: nat)
    requires MessageBits(f) == pre + u + post && MessageBits(g) == pre + v + post
    requires |u| == |v| <= 32 && u != v
    ensures |f| == |g| && |pre| <= 8 * |f|
    ensures 0 < d < U32_LIMIT && Xor(FromLittleEndian(f), FromLittleEndian(g)) == Pow2(|pre|) * d
  {
    hide Xor, FromBits, Pow2, MessageBits, FromLittleEndian;
    MessageBitsValue(f);
    MessageBitsValue(g);
    var p, q, w := FromBits(u), FromBits(v), FromBits(post);
    FromBitsBound(pre);
    FromBitsBound(u);
    FromBitsBound(v);
    FromThreeParts(pre, u, post);
    FromThreeParts(pre, v, post);
    d := Xor(p, q);
    XorMiddle(FromBits(pre), p, q, w, p + Pow2(|u|) * w, q + Pow2(|u|) * w, |pre|, |u|);
    XorSmall(p, q, |u|);
  }

  lemma XorSmall(p: nat, q: nat, k: nat)
    requires p < Pow2(k) && q < Pow2(k) && k <= 32 && p != q
    ensures 0 < Xor(p, q) < U32_LIMIT
  {
    XorNonZero(p, q);
    XorBound(p, q, k);
    Pow2Monotone(k, 32);
    Pow2Values();
  }

  lemma FromThreeParts(pre: seq<bool>, u: seq<bool>, post: seq<bool>)
    ensures FromBits(pre + u + post) == FromBits(pre) + Pow2(|pre|) * (FromBits(u) + Pow2(|u|) * FromBits(post))
  {
    assert pre + u + post == pre + (u + post);
    FromBitsConcat(pre, u + post);
    FromBitsConcat(u, post);
  }

  /** Numbers that agree below bit `k` and above bit `k + m` differ exactly by their middles. */
  lemma XorMiddle(low: nat, p: nat, q: nat, w: nat, x: nat, y: nat, k: nat, m: nat)
    requires low < Pow2(k) && p < Pow2(m) && q < Pow2(m)
    requires x == p + Pow2(m) * w && y == q + Pow2(m) * w
    ensures Xor(low + Pow2(k) * x, low + Pow2(k) * y) == Pow2(k) * Xor(p, q)
  {
    hide Xor, Pow2;
    XorSplit(low, x, y, k);
    XorParts(p, q, w, w, m);
    XorSelf(w);
  }

  lemma {:induction false} Pow2Monotone(a: nat, b: nat)
    requires a <= b
    ensures Pow2(a) <= Pow2(b)
    decreases b
  {
    if a == b {
    } else {
      Pow2Monotone(a, b - 1);
    }
  }

  /** The byte form: a change confined to four consecutive bytes always changes the checksum. */
  lemma WindowDetected(f: bytes, g: bytes, k: nat, w: nat)
    requires |f| == |g| && w <= 4 && k + w <= |f|
    requires f[..k] == g[..k] && f[k + w..] == g[k + w..]
    requires f != g
    ensures Checksum(f) != Checksum(g)
  {
    var u, v := f[k..k + w], g[k..k + w];
    assert f == f[..k] + u + f[k + w..] && g == f[..k] + v + f[k + w..];
    MessageBitsConcat(f[..k] + u, f[k + w..]);
    MessageBitsConcat(f[..k], u);
    MessageBitsConcat(f[..k] + v, f[k + w..]);
    MessageBitsConcat(f[..k], v);
    if MessageBits(u) == MessageBits(v) {
      MessageBitsInjective(u, v);
    }
    BurstDetected(f, g, MessageBits(f[..k]), MessageBits(u), MessageBits(v), MessageBits(f[k + w..]));
  }

  // ----- the standard's definition -------------------------------------------------

  /** The generator without its leading term, highest coefficient first: 0x04C11DB7. */
  const GENERATOR: seq<bool> := OCTET0 + (OCTET1 + (OCTET2 + OCTET3))
  const OCTET0 := [false, false, false, false, false, true, false, false]
  const OCTET1 := [true, true, false, false, false, false, false, true]
  const OCTET2 := [false, false, false, true, true, true, false, true]
  const OCTET3 := [true, false, true, true, false, true, true, true]

  function XorBits(a: seq<bool>, b: seq<bool>): (c: seq<bool>)
    requires |a| == |b|
    ensures |c| == |a| && forall i :: 0 <= i < |a| ==> c[i] == (a[i] != b[i])
  {
    seq(|a|, i requires 0 <= i < |a| => a[i] != b[i])
  }

  function Repeat(v: bool, n: nat): (s: seq<bool>)
    ensures |s| == n && forall i :: 0 <= i < n ==> s[i] == v
  {
    seq(n, _ => v)
  }

  /** One line of schoolbook division: drop the leading coefficient, subtracting the generator if it was set. */
  function DivideOnce(p: seq<bool>, g: seq<bool>): (r: seq<bool>)
    requires |p| > |g|
    ensures |r| == |p| - 1
  {
    if p[0] then XorBits(p[1..][..|g|], g) + p[1..][|g|..] else p[1..]
  }

  /** The coefficients left when the generator no longer fits. */
  function Remainder(p: seq<bool>, g: seq<bool>): (r: seq<bool>)
    requires |p| >= |g|
    ensures |r| == |g|
    decreases |p|
  {
    if |p| == |g| then p else Remainder(DivideOnce(p, g), g)
  }

  /**
   Clause 3.2.9 of IEEE 802.3-2018: complement the first 32 bits, multiply by x^32, divide,
   complement the remainder.
   */
  function FrameCheckSequence(s: bytes): seq<bool> {
    var shifted := MessageBits(s) + Repeat(false, 32);
    var dividend := XorBits(shifted, Repeat(true, 32) + Repeat(false, 8 * |s|));
    XorBits(Remainder(dividend, GENERATOR), Repeat(true, 32))
  }

  lemma {:induction false} FromBitsXor(a: seq<bool>, b: seq<bool>)
    requires |a| == |b|
    ensures FromBits(XorBits(a, b)) == Xor(FromBits(a), FromBits(b))
  {
    hide Xor;
    if a == [] {
      XorSelf(0);
    } else {
      var x, y := FromBits(a[1..]), FromBits(b[1..]);
      assert XorBits(a, b)[1..] == XorBits(a[1..], b[1..]);
      FromBitsXor(a[1..], b[1..]);
      XorBit(a[0], b[0], x, y, a[0] != b[0]);
    }
  }

  lemma {:induction false} FromZeros(n: nat)
    ensures FromBits(Repeat(false, n)) == 0
  {
    if n == 0 {
    } else {
      assert Repeat(false, n)[1..] == Repeat(false, n - 1);
      FromZeros(n - 1);
    }
  }

  lemma {:induction false} FromOnes(n: nat)
    ensures FromBits(Repeat(true, n)) == Pow2(n) - 1
  {
    if n == 0 {
    } else {
      assert Repeat(true, n)[1..] == Repeat(true, n - 1);
      FromOnes(n - 1);
    }
  }

  lemma FromPadded(b: seq<bool>, n: nat)
    ensures FromBits(b + Repeat(false, n)) == FromBits(b)
  {
    FromBitsConcat(b, Repeat(false, n));
    FromZeros(n);
  }

  /** The program's constant is the generator, read with the highest coefficient in bit 0. */
  lemma GeneratorValue()
    ensures FromBits(GENERATOR) == POLY
  {
    hide FromBits, Pow2;
    FromBitsConcat(OCTET0, OCTET1 + (OCTET2 + OCTET3));
    FromBitsConcat(OCTET1, OCTET2 + OCTET3);
    FromBitsConcat(OCTET2, OCTET3);
    Pow2Values();
    assert FromBits(OCTET0) == 0x20 by { OctetValue(OCTET0); }
    assert FromBits(OCTET1) == 0x83 by { OctetValue(OCTET1); }
    assert FromBits(OCTET2) == 0xB8 by { OctetValue(OCTET2); }
    assert FromBits(OCTET3) == 0xED by { OctetValue(OCTET3); }
  }

  lemma OctetValue(b: seq<bool>)
    requires |b| == 8
    ensures FromBits(b) == Bit(b[0]) + 2 * Bit(b[1]) + 4 * Bit(b[2]) + 8 * Bit(b[3])
                           + 16 * Bit(b[4]) + 32 * Bit(b[5]) + 64 * Bit(b[6]) + 128 * Bit(b[7])
  {
    hide FromBits;
    NibbleValue(b[..4]);
    NibbleValue(b[4..]);
    assert b == b[..4] + b[4..];
    FromBitsConcat(b[..4], b[4..]);
    assert Pow2(4) == 16;
  }

  lemma NibbleValue(b: seq<bool>)
    requires |b| == 4
    ensures FromBits(b) == Bit(b[0]) + 2 * Bit(b[1]) + 4 * Bit(b[2]) + 8 * Bit(b[3])
  {
    assert FromBits(b) == Bit(b[0]) + 2 * FromBits(b[1..]);
    assert b[1..][1..] == b[2..];
    assert FromBits(b[1..]) == Bit(b[1]) + 2 * FromBits(b[2..]);
    assert b[2..][1..] == b[3..];
    assert FromBits(b[2..]) == Bit(b[2]) + 2 * FromBits(b[3..]);
    assert b[3..][1..] == [];
    assert FromBits(b[3..]) == Bit(b[3]);
  }

  lemma DivideOnceIsStep(p: seq<bool>, g: seq<bool>)
    requires |p| > |g| && FromBits(g) == POLY
    ensures FromBits(DivideOnce(p, g)) == BitStep(FromBits(p))
  {
    hide Xor, BitStep;
    var rest := FromBits(p[1..]);
    EvenOddStep(rest);
    if p[0] {
      assert FromBits(p) == 1 + 2 * rest;
      SubtractValue(p[1..], g);
      XorComm(rest, POLY);
    }
  }

  lemma EvenOddStep(r: nat)
    ensures BitStep(1 + 2 * r) == Xor(POLY, r) && BitStep(2 * r) == r
  {
  }

  lemma SubtractValue(p: seq<bool>, g: seq<bool>)
    requires |p| >= |g|
    ensures FromBits(XorBits(p[..|g|], g) + p[|g|..]) == Xor(FromBits(p), FromBits(g))
  {
    var padded := g + Repeat(false, |p| - |g|);
    assert XorBits(p[..|g|], g) + p[|g|..] == XorBits(p, padded);
    FromBitsXor(p, padded);
    FromPadded(g, |p| - |g|);
  }

  lemma {:induction false} RemainderIsSteps(p: seq<bool>, g: seq<bool>)
    requires |p| >= |g| && FromBits(g) == POLY
    ensures FromBits(Remainder(p, g)) == Steps(FromBits(p), |p| - |g|)
    decreases |p|
  {
    if |p| == |g| {
    } else {
      DivideOnceIsStep(p, g);
      RemainderIsSteps(DivideOnce(p, g), g);
    }
  }

  /** The table-driven checksum of every message is the standard's polynomial division. */
  lemma ChecksumIsFrameCheckSequence(s: bytes)
    ensures BitsOf(Checksum(s), 32) == FrameCheckSequence(s)
  {
    var flip := Repeat(true, 32) + Repeat(false, 8 * |s|);
    var dividend := XorBits(MessageBits(s) + Repeat(false, 32), flip);
    DividendValue(s);
    GeneratorValue();
    RemainderIsSteps(dividend, GENERATOR);
    AbsorbIsDivision(ONES, s);
    FromOnes(32);
    Pow2Values();
    FromBitsXor(Remainder(dividend, GENERATOR), Repeat(true, 32));
    FromBitsBound(FrameCheckSequence(s));
  }

  lemma DividendValue(s: bytes)
    ensures FromBits(XorBits(MessageBits(s) + Repeat(false, 32), Repeat(true, 32) + Repeat(false, 8 * |s|)))
            == Xor(ONES, FromLittleEndian(s))
  {
    var shifted := MessageBits(s) + Repeat(false, 32);
    var flip := Repeat(true, 32) + Repeat(false, 8 * |s|);
    FromBitsXor(shifted, flip);
    FromPadded(MessageBits(s), 32);
    FromPadded(Repeat(true, 32), 8 * |s|);
    MessageBitsValue(s);
    FromOnes(32);
    Pow2Values();
    XorComm(FromLittleEndian(s), ONES);
  }
}
