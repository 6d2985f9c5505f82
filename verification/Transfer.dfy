/** Shipping a snapshot: the sender's chunk loop, the receiver's loop on arbitrary input, and what they agree on. */
module Transfer {
  import opened Bytes
  import opened Crc
  import opened CrcLaws
  import opened Streams
  import opened Frames

  datatype Hello = Hello(proto: u32, id: bytes, arch: bytes, size: u64, crc: u32, token: bytes)
  datatype Eof = Eof(size: u64, crc: u32)

  /** The JSON bodies of the two messages whose contents matter here. */
  datatype Messages = Messages(
    encodeHello: Hello -> bytes, decodeHello: bytes -> Option<Hello>,
    encodeEof: Eof -> bytes, decodeEof: bytes -> Option<Eof>)

  /** JSON reads back what it wrote; two integers make a small document. */
  ghost predicate Lawful(m: Messages) {
    && (forall h :: m.decodeHello(m.encodeHello(h)) == Some(h))
    && (forall e :: m.decodeEof(m.encodeEof(e)) == Some(e))
    && (forall e :: |m.encodeEof(e)| <= MAX_CONTROL_FRAME)
  }

  // ----- receiving -------------------------------------------------------------------

  /** How the receive loop ends: the file that is renamed into place, or what is left of the part file. */
  datatype Received = Committed(file: bytes, rest: bytes) | Abandoned(part: Option<bytes>)

  /** The receive loop on an arbitrary stream, with `got` already stored. */
  function Receive(m: Messages, hello: Hello, s: bytes, got: bytes): Received
    decreases |s|
  {
    match ParseHeader(s)
    case Stopped(_) => Abandoned(Some(got))
    case Got((t, len), rest) =>
      if t != ChunkFrame && t != EofFrame then Abandoned(None)
      else if |rest| < len then Abandoned(Some(got))
      else if t == ChunkFrame then
        var stored := got + rest[..len];
        if |stored| > hello.size then Abandoned(None) else Receive(m, hello, rest[len..], stored)
      else
        match m.decodeEof(rest[..len])
        case None => Abandoned(Some(got))
        case Some(eof) =>
          if Confirms(hello, eof, got) then Committed(got, rest[len..]) else Abandoned(None)
  }

  predicate Confirms(hello: Hello, eof: Eof, got: bytes) {
    eof.size == |got| && eof.crc == Checksum(got) && Checksum(got) == hello.crc
  }

  function Flatten(cs: seq<bytes>): bytes {
    if cs == [] then [] else cs[0] + Flatten(cs[1..])
  }

  function Payloads(fs: seq<Frame>): (cs: seq<bytes>)
    ensures |cs| == |fs|
  {
    if fs == [] then [] else [fs[0].payload] + Payloads(fs[1..])
  }

  /** Frames `fs[..n]` are chunks that add `file` to `got`, and frame `n` is an end of file that confirms it. */
  ghost predicate CleanTransfer(m: Messages, hello: Hello, fs: seq<Frame>, n: nat, got: bytes, file: bytes) {
    && n < |fs| && (forall i :: 0 <= i < n ==> fs[i].kind == ChunkFrame) && fs[n].kind == EofFrame
    && file == got + Flatten(Payloads(fs[..n]))
    && (n > 0 ==> |file| <= hello.size)
    && hello.crc == Checksum(file)
    && exists eof :: m.decodeEof(fs[n].payload) == Some(eof) && eof.size == |file| && eof.crc == Checksum(file)
  }

  /**
   On any byte stream whatever, a file is renamed into place exactly when the frames on the stream
   are chunks followed by an end of file, the file is the chunks' concatenation, it is no longer
   than announced, and its length and checksum are the ones both messages claim.
   */
  lemma {:induction false} CommitsExactly(m: Messages, hello: Hello, s: bytes, got: bytes, file: bytes)
    ensures (exists rest :: Receive(m, hello, s, got) == Committed(file, rest))
            <==> (exists n :: CleanTransfer(m, hello, ParseAll(s), n, got, file))
    decreases |s|
  {
    hide Checksum, ParseHeader;
    var fs := ParseAll(s);
    match ParseFrame(s)
    case Stopped(_) =>
      assert Receive(m, hello, s, got).Abandoned?;
    case Got(f, rest) =>
      assert fs == [f] + ParseAll(rest);
      if f.kind == ChunkFrame {
        ChunkStep(m, hello, f, ParseAll(rest), got, file);
        if |got + f.payload| <= hello.size {
          CommitsExactly(m, hello, rest, got + f.payload, file);
        }
      } else if f.kind == EofFrame {
        EofStep(m, hello, fs, got, file);
        assert (exists r :: Receive(m, hello, s, got) == Committed(file, r))
          <==> Receive(m, hello, s, got) == Committed(file, rest);
      }
  }

  lemma ChunkStep(m: Messages, hello: Hello, f: Frame, tail: seq<Frame>, got: bytes, file: bytes)
    requires f.kind == ChunkFrame
    ensures (exists n :: CleanTransfer(m, hello, [f] + tail, n, got, file)) <==>
            |got + f.payload| <= hello.size && exists n :: CleanTransfer(m, hello, tail, n, got + f.payload, file)
  {
    hide Checksum;
    var fs := [f] + tail;
    forall n: nat | CleanTransfer(m, hello, fs, n, got, file)
      ensures n > 0 && |got + f.payload| <= hello.size && CleanTransfer(m, hello, tail, n - 1, got + f.payload, file)
    {
      assert n > 0;
      assert fs[..n][1..] == tail[..n - 1] && fs[n] == tail[n - 1];
      assert forall i :: 0 <= i < n - 1 ==> tail[i] == fs[i + 1];
      assert got + (f.payload + Flatten(Payloads(tail[..n - 1]))) == got + f.payload + Flatten(Payloads(tail[..n - 1]));
    }
    forall n: nat | |got + f.payload| <= hello.size && CleanTransfer(m, hello, tail, n, got + f.payload, file)
      ensures CleanTransfer(m, hello, fs, n + 1, got, file)
    {
      assert fs[..n + 1][1..] == tail[..n] && fs[n + 1] == tail[n];
      assert got + (f.payload + Flatten(Payloads(tail[..n]))) == got + f.payload + Flatten(Payloads(tail[..n]));
    }
  }

  lemma EofStep(m: Messages, hello: Hello, fs: seq<Frame>, got: bytes, file: bytes)
    requires fs != [] && fs[0].kind == EofFrame
    ensures (exists n :: CleanTransfer(m, hello, fs, n, got, file)) <==>
            file == got && exists eof :: m.decodeEof(fs[0].payload) == Some(eof) && Confirms(hello, eof, got)
  {
    hide Checksum;
    assert got + Flatten(Payloads(fs[..0])) == got;
    if exists n :: CleanTransfer(m, hello, fs, n, got, file) {
      var n :| CleanTransfer(m, hello, fs, n, got, file);
      assert n == 0;
    }
    if file == got && exists eof :: m.decodeEof(fs[0].payload) == Some(eof) && Confirms(hello, eof, got) {
      assert CleanTransfer(m, hello, fs, 0, got, file);
    }
  }

  /**
   The receive loop itself. The part file only grows, so its length at the end is the most that was
   ever stored, on every exit.
   */
  method ReceiveSnapshot(m: Messages, hello: Hello, r: Source, part: Sink) returns (out: Option<Received>)
    requires r.Valid() && part.data == []
    modifies r, part
    ensures r.Valid()
    ensures out.Some? ==> out.value == Receive(m, hello, old(r.Rest()), [])
    ensures out.Some? && out.value.Committed? ==> part.data == out.value.file
    ensures out.Some? && out.value.Abandoned? && out.value.part.Some? ==> part.data == out.value.part.value
    ensures out.None? ==> !(r.reliable && part.reliable)
    ensures |part.data| <= hello.size + MAX_CHUNK_FRAME
  {
    hide ParseHeader;
    assert AbsorbAll(ONES, []) == ONES;
    hide AbsorbAll;
    var crc := new Crc32();
    var received := 0;
    while true
      invariant r.Valid() && fresh(crc)
      invariant received == |part.data| <= hello.size
      invariant crc.value == AbsorbAll(ONES, part.data)
      invariant Receive(m, hello, r.Rest(), part.data) == Receive(m, hello, old(r.Rest()), [])
      decreases |r.data| - r.pos
    {
      var header := ReadHeader(r);
      match header
      case Fault => return None;
      case Broken(_) => return Some(Abandoned(Some(part.data)));
      case Read((t, len)) =>
        if t != ChunkFrame && t != EofFrame {
          return Some(Abandoned(None));
        }
        var body := ReadPayload(r, len);
        if body == Fault {
          return None;
        }
        if body.Broken? {
          return Some(Abandoned(Some(part.data)));
        }
        if t == EofFrame {
          var eof := m.decodeEof(body.value);
          if eof.None? {
            return Some(Abandoned(Some(part.data)));
          }
          var sum := crc.Finish();
          if eof.value.size != received || eof.value.crc != sum || sum != hello.crc {
            return Some(Abandoned(None));
          }
          return Some(Committed(part.data, r.data[r.pos..]));
        }
        AbsorbConcat(ONES, part.data, body.value);
        crc.Update(body.value);
        var ok := part.WriteAll(body.value);
        if !ok {
          return None;
        }
        received := received + |body.value|;
        if received > hello.size {
          return Some(Abandoned(None));
        }
    }
  }

  // ----- sending ------------------------------------------------------------------------

  function ChunkFrames(cs: seq<bytes>): (fs: seq<Frame>)
    ensures |fs| == |cs|
  {
    if cs == [] then [] else [Frame(ChunkFrame, cs[0])] + ChunkFrames(cs[1..])
  }

  /** Everything after the handshake: the chunks, then the end-of-file message. */
  function Body(m: Messages, cs: seq<bytes>, eof: Eof): bytes {
    EncodeAll(ChunkFrames(cs)) + Encode(Frame(EofFrame, m.encodeEof(eof)))
  }

  /** What the sender's read loop can cut a file into. */
  predicate SenderChunks(cs: seq<bytes>) {
    forall i :: 0 <= i < |cs| ==> 0 < |cs[i]| <= 262_144
  }

  lemma {:induction false} FlattenSnoc(cs: seq<bytes>, c: bytes)
    ensures Flatten(cs + [c]) == Flatten(cs) + c
    ensures EncodeAll(ChunkFrames(cs + [c])) == EncodeAll(ChunkFrames(cs)) + Encode(Frame(ChunkFrame, c))
  {
    if cs == [] {
      assert cs + [c] == [c];
    } else {
      assert (cs + [c])[1..] == cs[1..] + [c];
      FlattenSnoc(cs[1..], c);
    }
  }

  /** `crc_of_file`. */
  method ChecksumFile(data: bytes, reliable: bool) returns (r: Option<u32>)
    ensures r.Some? ==> r.value == Checksum(data)
    ensures r.None? ==> !reliable
  {
    assert AbsorbAll(ONES, []) == ONES;
    hide AbsorbAll;
    var f := new Source(data, reliable);
    var crc := new Crc32();
    while true
      invariant f.Valid() && fresh(f) && fresh(crc) && f.data == data && f.reliable == reliable
      invariant crc.value == AbsorbAll(ONES, data[..f.pos])
      decreases |data| - f.pos
    {
      ghost var before := f.pos;
      var chunk := f.Read(CHUNK);
      if chunk.None? {
        return None;
      }
      if chunk.value == [] {
        break;
      }
      assert data[..before] + chunk.value == data[..f.pos];
      AbsorbConcat(ONES, data[..before], chunk.value);
      crc.Update(chunk.value);
    }
    assert data[..f.pos] == data;
    var sum := crc.Finish();
    r := Some(sum);
  }

  /** The streaming part of `send_snapshot`: some chunking of the file, then the end-of-file message. */
  method SendBody(m: Messages, f: Source, w: Sink, fileLen: u64, crc: u32) returns (ok: bool, chunks: seq<bytes>)
    requires Lawful(m) && f.Valid() && f.pos == 0
    modifies f, w
    ensures SenderChunks(chunks)
    ensures ok ==> Flatten(chunks) == f.data && |f.data| == fileLen
                   && w.data == old(w.data) + Body(m, chunks, Eof(fileLen, crc))
    ensures !ok ==> |f.data| != fileLen || !(f.reliable && w.reliable)
  {
    hide Encode, EncodeAll;
    var sent := 0;
    chunks, ok := [], false;
    NoChunks();
    while true
      invariant f.Valid() && sent == f.pos && SenderChunks(chunks)
      invariant Flatten(chunks) == f.data[..f.pos]
      invariant w.data == old(w.data) + EncodeAll(ChunkFrames(chunks))
      decreases |f.data| - f.pos
    {
      ghost var before := f.pos;
      var chunk := f.Read(CHUNK);
      if chunk.None? {
        return;
      }
      if chunk.value == [] {
        break;
      }
      FlattenSnoc(chunks, chunk.value);
      assert f.data[..before] + chunk.value == f.data[..f.pos];
      var wrote := WriteFrame(w, ChunkFrame, chunk.value);
      if !wrote {
        return;
      }
      chunks := chunks + [chunk.value];
      sent := sent + |chunk.value|;
    }
    assert f.data[..f.pos] == f.data;
    if sent != fileLen {
      return;
    }
    var body := m.encodeEof(Eof(fileLen, crc));
    ok := WriteFrame(w, EofFrame, body);
  }

  lemma NoChunks()
    ensures EncodeAll(ChunkFrames([])) == []
  {
  }

  // ----- sender against receiver ----------------------------------------------------------

  /**
   However the file was cut into chunks and however much of the stream arrived, the receiver
   commits only if all of it arrived, and then only the concatenation of the chunks; short of
   that it keeps no more than a prefix. If all of it arrives and the messages describe the file,
   it does commit.
   */
  lemma {:induction false} DeliveredBody(m: Messages, hello: Hello, cs: seq<bytes>, eof: Eof, got: bytes, p: bytes)
    requires Lawful(m) && SenderChunks(cs) && p <= Body(m, cs, eof)
    ensures var file := got + Flatten(cs);
            var out := Receive(m, hello, p, got);
            && (out.Committed? ==> p == Body(m, cs, eof) && out.file == file)
            && (p == Body(m, cs, eof) && |file| <= hello.size && Confirms(hello, eof, file) ==>
                  out == Committed(file, []))
            && (out.Abandoned? && out.part.Some? ==> out.part.value <= file)
    decreases |cs|
  {
    hide Encode, ParseHeader, Checksum;
    var last := Frame(EofFrame, m.encodeEof(eof));
    if cs == [] {
      NoChunks();
      assert Body(m, cs, eof) == Encode(last);
      assert got + Flatten(cs) == got;
      OneFrame(m, hello, last, [], got, p);
    } else {
      var f := Frame(ChunkFrame, cs[0]);
      var tail := Body(m, cs[1..], eof);
      assert Body(m, cs, eof) == Encode(f) + tail;
      assert got + (cs[0] + Flatten(cs[1..])) == (got + cs[0]) + Flatten(cs[1..]);
      OneFrame(m, hello, f, tail, got, p);
      if |p| >= |Encode(f)| {
        DeliveredBody(m, hello, cs[1..], eof, got + cs[0], p[|Encode(f)|..]);
      }
    }
  }

  /** The receive loop at a stream that starts with a (perhaps incomplete) chunk or end-of-file frame. */
  lemma OneFrame(m: Messages, hello: Hello, f: Frame, tail: bytes, got: bytes, p: bytes)
    requires WithinCap(f) && (f.kind == ChunkFrame || f.kind == EofFrame) && p <= Encode(f) + tail
    ensures |p| < |Encode(f)| ==> Receive(m, hello, p, got) == Abandoned(Some(got))
    ensures |p| >= |Encode(f)| ==>
              var rest := p[|Encode(f)|..];
              && p == Encode(f) + rest && rest <= tail
              && Receive(m, hello, p, got) ==
                 (if f.kind == ChunkFrame then
                    if |got + f.payload| > hello.size then Abandoned(None) else Receive(m, hello, rest, got + f.payload)
                  else
                    match m.decodeEof(f.payload)
                    case None => Abandoned(Some(got))
                    case Some(eof) => if Confirms(hello, eof, got) then Committed(got, rest) else Abandoned(None))
  {
    hide Encode, ParseHeader, Checksum;
    PrefixOfConcat(p, Encode(f), tail);
    if |p| < |Encode(f)| {
      FrameCut(f, p);
      StarvedHeader(f, p);
    } else {
      FrameRoundTrip(f, p[|Encode(f)|..]);
    }
  }

  /** A starved header is starved, or announces the frame it belongs to. */
  lemma StarvedHeader(f: Frame, p: bytes)
    requires WithinCap(f) && p <= Encode(f)
    ensures match ParseHeader(p)
            case Stopped(_) => true
            case Got((t, _), _) => t == f.kind
  {
    hide BigEndian;
    if |p| >= 5 {
      assert p[..5] == Encode(f)[..5];
      HeaderRoundTrip(f, p);
    }
  }

  // ----- the handshake -----------------------------------------------------------------------

  /** `read_json` for HELLO: the message and what follows it. */
  function ReadHello(m: Messages, s: bytes): Option<(Hello, bytes)> {
    match ParseFrame(s)
    case Stopped(_) => None
    case Got(f, rest) =>
      if f.kind != HelloFrame then None
      else
        match m.decodeHello(f.payload)
        case None => None
        case Some(h) => Some((h, rest))
  }

  /** A HELLO is read if and only if a frame of that type with that message is there, within the cap. */
  lemma HelloReadExactly(m: Messages, s: bytes, h: Hello, rest: bytes)
    ensures ReadHello(m, s) == Some((h, rest)) <==>
              exists payload ::
                && |payload| <= MAX_CONTROL_FRAME && m.decodeHello(payload) == Some(h)
                && s == Encode(Frame(HelloFrame, payload)) + rest
  {
    hide Encode, ParseFrame;
    if ParseFrame(s).Got? {
      FrameParsesExactly(s, ParseFrame(s).value, ParseFrame(s).rest);
    }
    forall payload | |payload| <= MAX_CONTROL_FRAME && s == Encode(Frame(HelloFrame, payload)) + rest
      ensures ParseFrame(s) == Got(Frame(HelloFrame, payload), rest)
    {
      FrameParsesExactly(s, Frame(HelloFrame, payload), rest);
    }
  }

  function HelloBytes(m: Messages, h: Hello): bytes {
    Encode(Frame(HelloFrame, m.encodeHello(h)))
  }

  /**
   A prefix of HELLO and whatever follows gives that HELLO and a prefix of what follows, or nothing;
   a HELLO over the receiver's cap is never read at all.
   */
  lemma DeliveredHello(m: Messages, h: Hello, tail: bytes, p: bytes)
    requires Lawful(m) && |m.encodeHello(h)| < U32_LIMIT
    requires p <= HelloBytes(m, h) + tail
    ensures match ReadHello(m, p)
            case None => |p| < |HelloBytes(m, h)| || |m.encodeHello(h)| > MAX_CONTROL_FRAME
            case Some((h', rest)) => h' == h && rest <= tail && p == HelloBytes(m, h) + rest
  {
    var f := Frame(HelloFrame, m.encodeHello(h));
    if !WithinCap(f) {
      OversizedFrame(f, tail, p);
    } else {
      hide Encode, ParseFrame;
      PrefixOfConcat(p, Encode(f), tail);
      if |p| < |Encode(f)| {
        FrameCut(f, p);
      } else {
        FrameRoundTrip(f, p[|Encode(f)|..]);
      }
    }
  }

  lemma OversizedFrame(f: Frame, tail: bytes, p: bytes)
    requires Cap(f.kind) < |f.payload| < U32_LIMIT && p <= Encode(f) + tail
    ensures ParseFrame(p).Stopped?
  {
    hide BigEndian, FromBigEndian;
    if |p| >= 5 {
      assert p[..5] == (Encode(f) + tail)[..5] == [Code(f.kind)] + BigEndian(|f.payload|, 4);
      assert p[0] == p[..5][0] && p[1..5] == p[..5][1..];
      CodeRoundTrip(f.kind, p[0]);
      FieldRoundTrips(|f.payload|);
    }
  }
}
