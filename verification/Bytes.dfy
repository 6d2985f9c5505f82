/** Byte strings and the fixed-width integer encodings used on disk and on the wire. */
module Bytes {
  const U32_LIMIT: nat := 0x1_0000_0000
  const U64_LIMIT: nat := 0x1_0000_0000_0000_0000

  type byte = n: nat | n < 256
  type u32 = n: nat | n < 0x1_0000_0000
  type u64 = n: nat | n < 0x1_0000_0000_0000_0000
  type bytes = seq<byte>

  datatype Option<+T> = None | Some(value: T)

  /** `n` in `width` little-endian bytes; the part of `n` that does not fit is dropped. */
  function LittleEndian(n: nat, width: nat): (s: bytes)
    ensures |s| == width
    decreases width, n
  {
    if width == 0 then [] else [n % 256] + LittleEndian(n / 256, width - 1)
  }

  function FromLittleEndian(s: bytes): nat {
    if s == [] then 0 else s[0] + 256 * FromLittleEndian(s[1..])
  }

  function Reversed<T>(s: seq<T>): (r: seq<T>)
    ensures |r| == |s|
  {
    if s == [] then [] else Reversed(s[1..]) + [s[0]]
  }

  function BigEndian(n: nat, width: nat): (s: bytes)
    ensures |s| == width
  {
    Reversed(LittleEndian(n, width))
  }

  function FromBigEndian(s: bytes): nat {
    FromLittleEndian(Reversed(s))
  }

  /** 256 to the power `width`: how many values fit. */
  function Capacity(width: nat): (c: nat)
    ensures c > 0
  {
    if width == 0 then 1 else 256 * Capacity(width - 1)
  }

  lemma Capacities()
    ensures Capacity(4) == U32_LIMIT && Capacity(8) == U64_LIMIT
  {
    assert Capacity(4) == 256 * (256 * (256 * (256 * Capacity(0))));
    assert Capacity(8) == 256 * (256 * (256 * (256 * Capacity(4))));
  }

  /** Decoding an encoded integer gives it back modulo the width of the field. */
  lemma {:induction false} LittleEndianRoundTrip(n: nat, width: nat)
    ensures FromLittleEndian(LittleEndian(n, width)) == n % Capacity(width)
    decreases width
  {
    if width == 0 {
    } else {
      var s := LittleEndian(n, width);
      assert s[1..] == LittleEndian(n / 256, width - 1);
      LittleEndianRoundTrip(n / 256, width - 1);
      ModSplit(n, Capacity(width - 1));
    }
  }

  /** Encoding a decoded field gives the same bytes: the two forms carry the same information. */
  lemma {:induction false} FromLittleEndianRoundTrip(s: bytes)
    ensures LittleEndian(FromLittleEndian(s), |s|) == s
    ensures FromLittleEndian(s) < Capacity(|s|)
  {
    if s == [] {
    } else {
      var rest := FromLittleEndian(s[1..]);
      FromLittleEndianRoundTrip(s[1..]);
      SplitLow(s[0], rest);
      assert LittleEndian(s[0] + 256 * rest, |s|) == [s[0]] + LittleEndian(rest, |s| - 1);
      assert s == [s[0]] + s[1..];
    }
  }

  lemma SplitLow(low: byte, rest: nat)
    ensures (low + 256 * rest) % 256 == low && (low + 256 * rest) / 256 == rest
  {
  }

  lemma {:induction false} FromLittleEndianConcat(a: bytes, b: bytes)
    ensures FromLittleEndian(a + b) == FromLittleEndian(a) + Capacity(|a|) * FromLittleEndian(b)
  {
    if a == [] {
      assert a + b == b;
    } else {
      assert (a + b)[1..] == a[1..] + b;
      FromLittleEndianConcat(a[1..], b);
      MulAssoc(256, Capacity(|a| - 1), FromLittleEndian(b));
    }
  }

  lemma MulAssoc(a: int, b: int, c: int)
    ensures a * (b * c) == (a * b) * c
  {
  }

  lemma ModSplit(n: nat, c: nat)
    requires c > 0
    ensures n % 256 + 256 * ((n / 256) % c) == n % (256 * c)
  {
    var q, r := (n / 256) / c, (n / 256) % c;
    assert n / 256 == q * c + r;
    var low := n % 256 + 256 * r;
    assert n == q * (256 * c) + low;
    assert 0 <= low < 256 * c;
    DivModUnique(n, 256 * c, q, low);
  }

  lemma DivModUnique(n: int, d: int, q: int, r: int)
    requires 0 <= r < d && n == q * d + r
    ensures n / d == q && n % d == r
  {
    var q', r' := n / d, n % d;
    assert n == q' * d + r';
    if q > q' {
      MulGap(q, q', d);
      assert false;
    } else if q < q' {
      MulGap(q', q, d);
      assert false;
    }
  }

  lemma Distribute(b: int, gap: int, d: int)
    ensures (b + 1 + gap) * d == b * d + d + gap * d
  {
  }

  lemma MulGap(a: int, b: int, d: int)
    requires a > b && d >= 0
    ensures a * d >= b * d + d
  {
    var gap := a - b - 1;
    assert a == b + 1 + gap && gap * d >= 0;
    Distribute(b, gap, d);
  }

  lemma {:induction false} ReversedConcat<T>(a: seq<T>, b: seq<T>)
    ensures Reversed(a + b) == Reversed(b) + Reversed(a)
  {
    if a == [] {
      assert a + b == b;
    } else {
      assert (a + b)[1..] == a[1..] + b;
      ReversedConcat(a[1..], b);
    }
  }

  lemma {:induction false} ReversedTwice<T>(s: seq<T>)
    ensures Reversed(Reversed(s)) == s
  {
    if s == [] {
    } else {
      ReversedConcat(Reversed(s[1..]), [s[0]]);
      ReversedTwice(s[1..]);
    }
  }

  /** Each field of a file or frame that is written can be read back. */
  lemma FieldRoundTrips(n: nat)
    ensures FromLittleEndian(LittleEndian(n, 4)) == n % U32_LIMIT
    ensures FromLittleEndian(LittleEndian(n, 8)) == n % U64_LIMIT
    ensures FromBigEndian(BigEndian(n, 4)) == n % U32_LIMIT
  {
    Capacities();
    LittleEndianRoundTrip(n, 4);
    LittleEndianRoundTrip(n, 8);
    ReversedTwice(LittleEndian(n, 4));
  }

  /** What fits the field is read back as it was. */
  lemma FieldFits(n: nat)
    ensures n < U32_LIMIT ==> FromLittleEndian(LittleEndian(n, 4)) == n
    ensures n < U64_LIMIT ==> FromLittleEndian(LittleEndian(n, 8)) == n
  {
    hide FromLittleEndian, LittleEndian;
    FieldRoundTrips(n);
  }

  /** A 32-bit field byte by byte, least significant first. */
  lemma LittleBytes(n: nat, b0: byte, b1: byte, b2: byte, b3: byte)
    requires n < U32_LIMIT && b0 == n % 256 && b1 == n / 256 % 256 && b2 == n / 65_536 % 256 && b3 == n / 16_777_216
    ensures LittleEndian(n, 4) == [b0, b1, b2, b3]
  {
    var n1, n2, n3 := n / 256, n / 65_536, n / 16_777_216;
    assert n1 / 256 == n2 && n2 / 256 == n3 && n3 % 256 == n3;
    assert LittleEndian(n3, 1) == [n3 % 256] + LittleEndian(n3 / 256, 0) == [b3];
    assert LittleEndian(n2, 2) == [n2 % 256] + LittleEndian(n3, 1) == [b2, b3];
    assert LittleEndian(n1, 3) == [n1 % 256] + LittleEndian(n2, 2) == [b1, b2, b3];
    assert LittleEndian(n, 4) == [n % 256] + LittleEndian(n1, 3);
  }

  lemma FieldBounds(s: bytes)
    ensures |s| == 4 ==> FromLittleEndian(s) < U32_LIMIT && FromBigEndian(s) < U32_LIMIT
    ensures |s| == 8 ==> FromLittleEndian(s) < U64_LIMIT
  {
    Capacities();
    FromLittleEndianRoundTrip(s);
    FromLittleEndianRoundTrip(Reversed(s));
  }
}
