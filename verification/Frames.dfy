/** The wire: length-prefixed frames over a byte stream that may stop anywhere. */
module Frames {
  import opened Bytes
  import opened Streams
  import Format

  const MAX_CONTROL_FRAME: nat := 4 * 1024 * 1024
  const MAX_CHUNK_FRAME: nat := 4 * 1024 * 1024
  const CHUNK: nat := 256 * 1024

  datatype FrameType = HelloFrame | HelloAckFrame | ChunkFrame | EofFrame | ResultFrame | ErrorFrame

  function Code(t: FrameType): byte {
    match t
    case HelloFrame => 1
    case HelloAckFrame => 2
    case ChunkFrame => 3
    case EofFrame => 4
    case ResultFrame => 5
    case ErrorFrame => 6
  }

  function FromCode(b: byte): Option<FrameType> {
    match b
    case 1 => Some(HelloFrame)
    case 2 => Some(HelloAckFrame)
    case 3 => Some(ChunkFrame)
    case 4 => Some(EofFrame)
    case 5 => Some(ResultFrame)
    case 6 => Some(ErrorFrame)
    case _ => None
  }

  lemma CodeRoundTrip(t: FrameType, b: byte)
    ensures FromCode(b) == Some(t) <==> b == Code(t)
  {
  }

  function Cap(t: FrameType): nat {
    if t == ChunkFrame then MAX_CHUNK_FRAME else MAX_CONTROL_FRAME
  }

  datatype Frame = Frame(kind: FrameType, payload: bytes)

  function Encode(f: Frame): bytes {
    [Code(f.kind)] + BigEndian(|f.payload|, 4) + f.payload
  }

  function EncodeAll(fs: seq<Frame>): bytes {
    if fs == [] then [] else Encode(fs[0]) + EncodeAll(fs[1..])
  }

  /** A 32-bit length as four bytes, most significant first. */
  lemma LengthBytes(n: nat)
    requires n < U32_LIMIT
    ensures BigEndian(n, 4) == [n / 16_777_216, n / 65_536 % 256, n / 256 % 256, n % 256]
  {
    hide BigEndian;
    var b0, b1, b2, b3: byte := n % 256, n / 256 % 256, n / 65_536 % 256, n / 16_777_216;
    LittleBytes(n, b0, b1, b2, b3);
    FourReversed(b0, b1, b2, b3);
    BigIsReversed(n);
  }

  lemma BigIsReversed(n: nat)
    ensures BigEndian(n, 4) == Reversed(LittleEndian(n, 4))
  {
  }

  lemma FourReversed(b0: byte, b1: byte, b2: byte, b3: byte)
    ensures Reversed([b0, b1, b2, b3]) == [b3, b2, b1, b0]
  {
    assert [b0, b1, b2, b3][1..] == [b1, b2, b3] && [b1, b2, b3][1..] == [b2, b3] && [b2, b3][1..] == [b3];
    assert Reversed([b3]) == [b3];
    assert Reversed([b2, b3]) == Reversed([b3]) + [b2];
    assert Reversed([b1, b2, b3]) == Reversed([b2, b3]) + [b1];
  }

  /** The type byte, spelled out. */
  predicate TypeByte(t: FrameType, b: int) {
    && (t == HelloFrame <==> b == 1) && (t == HelloAckFrame <==> b == 2) && (t == ChunkFrame <==> b == 3)
    && (t == EofFrame <==> b == 4) && (t == ResultFrame <==> b == 5) && (t == ErrorFrame <==> b == 6)
  }

  /** A frame on the wire, byte by byte. */
  lemma BytesOnWire(f: Frame)
    requires |f.payload| < U32_LIMIT
    ensures var e, n := Encode(f), |f.payload|;
            && |e| == 5 + n && TypeByte(f.kind, e[0])
            && e[1] == n / 16_777_216 && e[2] == n / 65_536 % 256 && e[3] == n / 256 % 256 && e[4] == n % 256
            && e[5..] == f.payload
  {
    hide BigEndian;
    LengthBytes(|f.payload|);
  }

  datatype Stop = Starved | UnknownType | TooLong
  datatype Parsed<+T> = Got(value: T, rest: bytes) | Stopped(why: Stop)

  /** `read_header`: five bytes, a known type, a length within the cap for it. */
  function ParseHeader(s: bytes): (r: Parsed<(FrameType, nat)>)
    ensures r.Got? ==> |s| >= 5 && r.rest == s[5..]
  {
    if |s| < 5 then Stopped(Starved)
    else
      match FromCode(s[0])
      case None => Stopped(UnknownType)
      case Some(t) =>
        var len := FromBigEndian(s[1..5]);
        if len > Cap(t) then Stopped(TooLong) else Got((t, len), s[5..])
  }

  function ParseFrame(s: bytes): (r: Parsed<Frame>)
    ensures r.Got? ==> |r.rest| < |s|
  {
    match ParseHeader(s)
    case Stopped(why) => Stopped(why)
    case Got((t, len), rest) =>
      if |rest| < len then Stopped(Starved) else Got(Frame(t, rest[..len]), rest[len..])
  }

  /** Every frame that can be read before the stream stops making sense or runs out. */
  function ParseAll(s: bytes): seq<Frame>
    decreases |s|
  {
    match ParseFrame(s)
    case Stopped(_) => []
    case Got(f, rest) => [f] + ParseAll(rest)
  }

  predicate WithinCap(f: Frame) {
    |f.payload| <= Cap(f.kind)
  }

  lemma HeaderRoundTrip(f: Frame, s: bytes)
    requires WithinCap(f) && |s| >= 5 && s[..5] == [Code(f.kind)] + BigEndian(|f.payload|, 4)
    ensures ParseHeader(s) == Got((f.kind, |f.payload|), s[5..])
  {
    hide BigEndian, FromBigEndian, FromCode, Code;
    assert FromBigEndian(BigEndian(|f.payload|, 4)) == |f.payload| by { FieldRoundTrips(|f.payload|); }
    CodeRoundTrip(f.kind, s[0]);
    assert s[0] == s[..5][0] && s[1..5] == s[..5][1..];
  }

  /** A frame at the head of a stream is read back, and the rest of the stream with it. */
  lemma FrameRoundTrip(f: Frame, rest: bytes)
    requires WithinCap(f)
    ensures ParseFrame(Encode(f) + rest) == Got(f, rest)
  {
    hide BigEndian, ParseHeader;
    var s := Encode(f) + rest;
    assert s[5..] == f.payload + rest;
    HeaderRoundTrip(f, s);
  }

  /** A stream cut inside its first frame yields no frame at all, and no error but starvation. */
  lemma FrameCut(f: Frame, p: bytes)
    requires WithinCap(f) && p <= Encode(f) && |p| < |Encode(f)|
    ensures ParseFrame(p) == Stopped(Starved)
  {
    hide BigEndian;
    if |p| >= 5 {
      assert p[..5] == Encode(f)[..5];
      HeaderRoundTrip(f, p);
    }
  }

  lemma PrefixOfConcat(p: bytes, a: bytes, b: bytes)
    requires p <= a + b
    ensures if |p| < |a| then p <= a else p == a + p[|a|..] && p[|a|..] <= b
  {
    if |p| >= |a| {
      assert p[..|a|] == (a + b)[..|a|] == a;
      assert p[|a|..] == (a + b)[|a|..|p|] == b[..|p| - |a|];
    } else {
      assert p == (a + b)[..|p|] == a[..|p|];
    }
  }

  /**
   Any prefix of a well-formed stream parses to a prefix of the frames sent: whole frames in order,
   never an invented one; the whole stream parses to all of them.
   */
  lemma {:induction false} StreamPrefix(fs: seq<Frame>, p: bytes)
    requires forall i :: 0 <= i < |fs| ==> WithinCap(fs[i])
    requires p <= EncodeAll(fs)
    ensures ParseAll(p) <= fs
    ensures p == EncodeAll(fs) ==> ParseAll(p) == fs
    decreases |fs|
  {
    hide Encode, ParseFrame;
    if fs == [] {
      assert p == [];
      NothingToParse();
    } else {
      var a, b := Encode(fs[0]), EncodeAll(fs[1..]);
      PrefixOfConcat(p, a, b);
      if |p| < |a| {
        FrameCut(fs[0], p);
      } else {
        var rest := p[|a|..];
        FrameRoundTrip(fs[0], rest);
        StreamPrefix(fs[1..], rest);
        assert fs == [fs[0]] + fs[1..];
      }
    }
  }

  lemma NothingToParse()
    ensures ParseFrame([]) == Stopped(Starved)
  {
  }

  /** The four bytes of a length, most significant first, as the number they stand for. */
  function Number(a: int, b: int, c: int, d: int): int {
    16_777_216 * a + 65_536 * b + 256 * c + d
  }

  lemma LengthOf(s: bytes)
    requires |s| == 4
    ensures FromBigEndian(s) == Number(s[0], s[1], s[2], s[3])
  {
    hide Reversed, FromLittleEndian;
    FourReversed(s[0], s[1], s[2], s[3]);
    assert s == [s[0], s[1], s[2], s[3]];
    LittleValue(s[3], s[2], s[1], s[0]);
  }

  lemma LittleValue(b0: byte, b1: byte, b2: byte, b3: byte)
    ensures FromLittleEndian([b0, b1, b2, b3]) == b0 + 256 * b1 + 65_536 * b2 + 16_777_216 * b3
  {
    assert [b0, b1, b2, b3][1..] == [b1, b2, b3] && [b1, b2, b3][1..] == [b2, b3] && [b2, b3][1..] == [b3];
    assert FromLittleEndian([b3]) == b3 + 256 * FromLittleEndian([b3][1..]) == b3;
    assert FromLittleEndian([b2, b3]) == b2 + 256 * b3;
    assert FromLittleEndian([b1, b2, b3]) == b1 + 256 * FromLittleEndian([b2, b3]);
  }

  /** Which headers are accepted, byte by byte: six types, and at most four mebibytes. */
  lemma HeaderAccepts(s: bytes)
    ensures ParseHeader(s).Got? <==>
              |s| >= 5 && 1 <= s[0] <= 6 && Number(s[1], s[2], s[3], s[4]) <= 4_194_304
    ensures ParseHeader(s).Got? ==>
              && TypeByte(ParseHeader(s).value.0, s[0])
              && ParseHeader(s).value.1 == Number(s[1], s[2], s[3], s[4])
  {
    hide FromBigEndian;
    if |s| >= 5 {
      LengthOf(s[1..5]);
    }
  }

  /** Reading is exactly the inverse of writing: a frame is read if and only if its encoding is there. */
  lemma FrameParsesExactly(s: bytes, f: Frame, rest: bytes)
    ensures ParseFrame(s) == Got(f, rest) <==> WithinCap(f) && s == Encode(f) + rest
  {
    hide BigEndian, ParseHeader;
    if WithinCap(f) && s == Encode(f) + rest {
      FrameRoundTrip(f, rest);
    }
    if ParseFrame(s) == Got(f, rest) {
      HeaderIsEncoded(s);
      assert s == s[..5] + (f.payload + rest);
    }
  }

  lemma HeaderIsEncoded(s: bytes)
    requires ParseHeader(s).Got?
    ensures var (t, len) := ParseHeader(s).value; len <= Cap(t) && s[..5] == [Code(t)] + BigEndian(len, 4)
  {
    hide FromLittleEndian, LittleEndian;
    var four := s[1..5];
    CodeRoundTrip(ParseHeader(s).value.0, s[0]);
    FromLittleEndianRoundTrip(Reversed(four));
    ReversedTwice(four);
    assert s[..5] == [s[0]] + four;
  }

  // ----- reading and writing frames ------------------------------------------------

  datatype Wire<+T> = Read(value: T) | Broken(why: Stop) | Fault

  method WriteFrame(w: Sink, t: FrameType, payload: bytes) returns (ok: bool)
    modifies w
    ensures ok ==> |payload| < U32_LIMIT && w.data == old(w.data) + Encode(Frame(t, payload))
    ensures !ok ==> |payload| >= U32_LIMIT || !w.reliable
    ensures |payload| >= U32_LIMIT ==> !ok && w.data == old(w.data)
    ensures ok ==> var e, n := w.data[|old(w.data)|..], |payload|;
                   && |e| == 5 + n && TypeByte(t, e[0]) && e[5..] == payload
                   && e[1] == n / 16_777_216 && e[2] == n / 65_536 % 256 && e[3] == n / 256 % 256 && e[4] == n % 256
  {
    hide BigEndian, Encode;
    EncodeParts(Frame(t, payload));
    if |payload| >= U32_LIMIT {
      return false;
    }
    ok := w.WriteAll([Code(t)]);
    if ok {
      ok := w.WriteAll(BigEndian(|payload|, 4));
    }
    if ok {
      ok := w.WriteAll(payload);
    }
    if ok {
      BytesOnWire(Frame(t, payload));
      assert w.data[|old(w.data)|..] == Encode(Frame(t, payload));
    }
  }

  lemma EncodeParts(f: Frame)
    ensures Encode(f) == [Code(f.kind)] + BigEndian(|f.payload|, 4) + f.payload
  {
  }

  /** One header off the stream, for every schedule of short reads. */
  method ReadHeader(r: Source) returns (out: Wire<(FrameType, nat)>)
    requires r.Valid()
    modifies r
    ensures r.Valid() && old(r.pos) <= r.pos
    ensures out == Fault ==> !r.reliable
    ensures out.Read? ==> out.value.1 <= Cap(out.value.0)
    ensures match out
            case Read(v) => ParseHeader(old(r.Rest())) == Got(v, r.Rest()) && r.pos == old(r.pos) + 5
            case Broken(why) => ParseHeader(old(r.Rest())) == Stopped(why)
            case Fault => true
  {
    hide FromBigEndian;
    var hdr := r.ReadExact(5);
    if hdr.Err? {
      return if hdr.error == Format.ShortRead then Broken(Starved) else Fault;
    }
    assert hdr.value == old(r.Rest())[..5] && r.Rest() == old(r.Rest())[5..];
    assert hdr.value[1..5] == old(r.Rest())[1..5];
    var t := FromCode(hdr.value[0]);
    if t.None? {
      return Broken(UnknownType);
    }
    var len := FromBigEndian(hdr.value[1..5]);
    if len > Cap(t.value) {
      return Broken(TooLong);
    }
    out := Read((t.value, len));
  }

  method ReadPayload(r: Source, len: nat) returns (out: Wire<bytes>)
    requires r.Valid()
    modifies r
    ensures r.Valid() && old(r.pos) <= r.pos
    ensures out == Fault ==> !r.reliable
    ensures match out
            case Read(v) => |old(r.Rest())| >= len && v == old(r.Rest())[..len] && r.Rest() == old(r.Rest())[len..]
            case Broken(why) => why == Starved && |old(r.Rest())| < len
            case Fault => true
  {
    var buf := r.ReadExact(len);
    if buf.Err? {
      return if buf.error == Format.ShortRead then Broken(Starved) else Fault;
    }
    assert buf.value == old(r.Rest())[..len] && r.Rest() == old(r.Rest())[len..];
    out := Read(buf.value);
  }
}
