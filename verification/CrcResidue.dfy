/** The residue as a number: 32 turns of the register, worked out on its bits. */
module ResidueConstant {
  import opened Bitwise
  import opened Crc
  import opened CrcLaws

  /** A hexadecimal digit and a 32-bit register, least significant part first. */
  datatype Digit = Digit(b0: bool, b1: bool, b2: bool, b3: bool)
  datatype Word = Word(d0: Digit, d1: Digit, d2: Digit, d3: Digit, d4: Digit, d5: Digit, d6: Digit, d7: Digit)

  const H0: Digit := Digit(false, false, false, false)
  const H1: Digit := Digit(true, false, false, false)
  const H2: Digit := Digit(false, true, false, false)
  const H3: Digit := Digit(true, true, false, false)
  const H4: Digit := Digit(false, false, true, false)
  const H5: Digit := Digit(true, false, true, false)
  const H6: Digit := Digit(false, true, true, false)
  const H7: Digit := Digit(true, true, true, false)
  const H8: Digit := Digit(false, false, false, true)
  const H9: Digit := Digit(true, false, false, true)
  const HA: Digit := Digit(false, true, false, true)
  const HB: Digit := Digit(true, true, false, true)
  const HC: Digit := Digit(false, false, true, true)
  const HD: Digit := Digit(true, false, true, true)
  const HE: Digit := Digit(false, true, true, true)
  const HF: Digit := Digit(true, true, true, true)

  function DigitValue(d: Digit): (n: nat)
    ensures n < 16
  {
    Bit(d.b0) + 2 * Bit(d.b1) + 4 * Bit(d.b2) + 8 * Bit(d.b3)
  }

  /** The upper half of the register. */
  function Upper(w: Word): nat {
    DigitValue(w.d4) + 16 * (DigitValue(w.d5) + 16 * (DigitValue(w.d6) + 16 * DigitValue(w.d7)))
  }

  function Value(w: Word): nat {
    DigitValue(w.d0) + 16 * (DigitValue(w.d1) + 16 * (DigitValue(w.d2) + 16 * (DigitValue(w.d3) + 16 * Upper(w))))
  }

  function XorDigit(d: Digit, e: Digit): Digit {
    Digit(d.b0 != e.b0, d.b1 != e.b1, d.b2 != e.b2, d.b3 != e.b3)
  }

  function XorWord(v: Word, w: Word): Word {
    Word(XorDigit(v.d0, w.d0), XorDigit(v.d1, w.d1), XorDigit(v.d2, w.d2), XorDigit(v.d3, w.d3),
         XorDigit(v.d4, w.d4), XorDigit(v.d5, w.d5), XorDigit(v.d6, w.d6), XorDigit(v.d7, w.d7))
  }

  function HalfWord(w: Word): Word {
    Word(Digit(w.d0.b1, w.d0.b2, w.d0.b3, w.d1.b0),
         Digit(w.d1.b1, w.d1.b2, w.d1.b3, w.d2.b0),
         Digit(w.d2.b1, w.d2.b2, w.d2.b3, w.d3.b0),
         Digit(w.d3.b1, w.d3.b2, w.d3.b3, w.d4.b0),
         Digit(w.d4.b1, w.d4.b2, w.d4.b3, w.d5.b0),
         Digit(w.d5.b1, w.d5.b2, w.d5.b3, w.d6.b0),
         Digit(w.d6.b1, w.d6.b2, w.d6.b3, w.d7.b0),
         Digit(w.d7.b1, w.d7.b2, w.d7.b3, false))
  }

  const POLY_WORD: Word := Word(H0, H2, H3, H8, H8, HB, HD, HE)
  const ONES_WORD: Word := Word(HF, HF, HF, HF, HF, HF, HF, HF)

  function Turn(w: Word): Word {
    if w.d0.b0 then XorWord(POLY_WORD, HalfWord(w)) else HalfWord(w)
  }

  function LowPair(d: Digit): nat { Bit(d.b0) + 2 * Bit(d.b1) }
  function HighPair(d: Digit): nat { Bit(d.b2) + 2 * Bit(d.b3) }

  lemma Pairs(d: Digit)
    ensures DigitValue(d) == LowPair(d) + 4 * HighPair(d)
  {
    hide Bit;
  }

  lemma XorLowPair(d: Digit, e: Digit, x: nat, y: nat)
    ensures Xor(LowPair(d) + 4 * x, LowPair(e) + 4 * y) == LowPair(XorDigit(d, e)) + 4 * Xor(x, y)
  {
    hide Xor, Bit;
    var f := XorDigit(d, e);
    var x', y' := Bit(d.b1) + 2 * x, Bit(e.b1) + 2 * y;
    XorBit(d.b1, e.b1, x, y, f.b1);
    XorBit(d.b0, e.b0, x', y', f.b0);
    assert LowPair(d) + 4 * x == Bit(d.b0) + 2 * x';
    assert LowPair(e) + 4 * y == Bit(e.b0) + 2 * y';
  }

  lemma XorHighPair(d: Digit, e: Digit, x: nat, y: nat)
    ensures Xor(HighPair(d) + 4 * x, HighPair(e) + 4 * y) == HighPair(XorDigit(d, e)) + 4 * Xor(x, y)
  {
    hide Xor, Bit;
    var f := XorDigit(d, e);
    var x', y' := Bit(d.b3) + 2 * x, Bit(e.b3) + 2 * y;
    XorBit(d.b3, e.b3, x, y, f.b3);
    XorBit(d.b2, e.b2, x', y', f.b2);
    assert HighPair(d) + 4 * x == Bit(d.b2) + 2 * x';
    assert HighPair(e) + 4 * y == Bit(e.b2) + 2 * y';
  }

  lemma XorDigitValue(d: Digit, e: Digit, x: nat, y: nat)
    ensures Xor(DigitValue(d) + 16 * x, DigitValue(e) + 16 * y) == DigitValue(XorDigit(d, e)) + 16 * Xor(x, y)
  {
    hide *;
    Pairs(d);
    Pairs(e);
    Pairs(XorDigit(d, e));
    XorHighPair(d, e, x, y);
    XorLowPair(d, e, HighPair(d) + 4 * x, HighPair(e) + 4 * y);
  }

  lemma XorWordValue(v: Word, w: Word)
    ensures Value(XorWord(v, w)) == Xor(Value(v), Value(w))
  {
    hide Xor, DigitValue, XorDigit;
    var x6, y6 := DigitValue(v.d6) + 16 * DigitValue(v.d7), DigitValue(w.d6) + 16 * DigitValue(w.d7);
    var x5, y5 := DigitValue(v.d5) + 16 * x6, DigitValue(w.d5) + 16 * y6;
    var x4, y4 := DigitValue(v.d4) + 16 * x5, DigitValue(w.d4) + 16 * y5;
    var x3, y3 := DigitValue(v.d3) + 16 * x4, DigitValue(w.d3) + 16 * y4;
    var x2, y2 := DigitValue(v.d2) + 16 * x3, DigitValue(w.d2) + 16 * y3;
    var x1, y1 := DigitValue(v.d1) + 16 * x2, DigitValue(w.d1) + 16 * y2;
    XorZero(0);
    XorDigitValue(v.d7, w.d7, 0, 0);
    XorDigitValue(v.d6, w.d6, DigitValue(v.d7), DigitValue(w.d7));
    XorDigitValue(v.d5, w.d5, x6, y6);
    XorDigitValue(v.d4, w.d4, x5, y5);
    XorDigitValue(v.d3, w.d3, x4, y4);
    XorDigitValue(v.d2, w.d2, x3, y3);
    XorDigitValue(v.d1, w.d1, x2, y2);
    XorDigitValue(v.d0, w.d0, x1, y1);
  }

  lemma HalfUpper(w: Word)
    ensures Upper(w) == Bit(w.d4.b0) + 2 * Upper(HalfWord(w))
  {
    hide Bit, DigitValue;
    HalfDigit(w.d4, w.d5.b0);
    HalfDigit(w.d5, w.d6.b0);
    HalfDigit(w.d6, w.d7.b0);
    HalfDigit(w.d7, false);
    NoBit();
  }

  lemma HalfWordValue(w: Word)
    ensures Value(w) == Bit(w.d0.b0) + 2 * Value(HalfWord(w))
  {
    hide Bit, DigitValue, Upper;
    HalfDigit(w.d0, w.d1.b0);
    HalfDigit(w.d1, w.d2.b0);
    HalfDigit(w.d2, w.d3.b0);
    HalfDigit(w.d3, w.d4.b0);
    HalfUpper(w);
  }

  lemma NoBit()
    ensures Bit(false) == 0
  {
  }

  lemma HalfDigit(d: Digit, carry: bool)
    ensures DigitValue(d) + 16 * Bit(carry) == Bit(d.b0) + 2 * DigitValue(Digit(d.b1, d.b2, d.b3, carry))
  {
    hide Bit;
  }

  /** A turn on the bits is a turn of the register. */
  lemma TurnIsStep(w: Word)
    ensures Value(Turn(w)) == BitStep(Value(w))
  {
    hide Xor, Value, XorWord, HalfWord;
    HalfWordValue(w);
    XorWordValue(POLY_WORD, HalfWord(w));
    PolyValue();
  }

  lemma PolyValue()
    ensures Value(POLY_WORD) == POLY
  {
  }

  function Turns(w: Word, n: nat): Word
    decreases n, w
  {
    if n == 0 then w else Turns(Turn(w), n - 1)
  }

  lemma {:induction false} TurnsAreSteps(w: Word, n: nat)
    ensures Value(Turns(w, n)) == Steps(Value(w), n)
    decreases n
  {
    hide Turn, Value, BitStep;
    if n == 0 {
    } else {
      TurnIsStep(w);
      TurnsAreSteps(Turn(w), n - 1);
    }
  }

  const AFTER_8: Word := Word(H2, H7, H0, H1, HD, HF, HD, H2)
  const AFTER_16: Word := Word(H0, H0, HD, HE, H6, H2, HE, HB)
  const AFTER_24: Word := Word(HD, HE, H6, H2, HE, HB, H0, H0)
  const AFTER_32: Word := Word(H3, HE, H0, H2, HB, HB, HE, HD)

  lemma Turns0()
    ensures Turns(ONES_WORD, 8) == AFTER_8
  {
  }

  lemma Turns8()
    ensures Turns(AFTER_8, 8) == AFTER_16
  {
  }

  lemma Turns16()
    ensures Turns(AFTER_16, 8) == AFTER_24
  {
  }

  lemma Turns24()
    ensures Turns(AFTER_24, 8) == AFTER_32
  {
  }

  /** The checksum of every message that ends in its own checksum, as a number. */
  lemma ResidueIs()
    ensures ResidueValue() == 0x2144_DF1C
  {
    hide Xor, Steps, Turns, Value, XorWord;
    Turns0();
    Turns8();
    Turns16();
    Turns24();
    TurnsAreSteps(ONES_WORD, 8);
    TurnsAreSteps(AFTER_8, 8);
    TurnsAreSteps(AFTER_16, 8);
    TurnsAreSteps(AFTER_24, 8);
    StepsSplit(Value(ONES_WORD), 8, 24);
    StepsSplit(Value(AFTER_8), 8, 16);
    StepsSplit(Value(AFTER_16), 8, 8);
    XorWordValue(AFTER_32, ONES_WORD);
    FinalValues();
  }

  lemma FinalValues()
    ensures Value(ONES_WORD) == ONES && Value(XorWord(AFTER_32, ONES_WORD)) == 0x2144_DF1C
  {
    assert XorWord(AFTER_32, ONES_WORD) == Word(HC, H1, HF, HD, H4, H4, H1, H2);
  }
}
