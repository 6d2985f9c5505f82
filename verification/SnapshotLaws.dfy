/** Round trip, corruption and truncation of snapshot files of every length. */
module FormatLaws {
  import opened Bytes
  import opened Crc
  import opened CrcLaws
  import opened ResidueConstant
  import opened Format

  // ----- bytes at a position -----------------------------------------------------

  predicate At(f: bytes, pos: nat, s: bytes) {
    pos + |s| <= |f| && f[pos..pos + |s|] == s
  }

  lemma AtConcat(f: bytes, pos: nat, a: bytes, b: bytes)
    ensures At(f, pos, a + b) <==> At(f, pos, a) && At(f, pos + |a|, b)
  {
    if At(f, pos, a + b) {
      assert f[pos..pos + |a|] == f[pos..pos + |a + b|][..|a|];
      assert f[pos + |a|..pos + |a| + |b|] == f[pos..pos + |a + b|][|a|..];
    }
    if At(f, pos, a) && At(f, pos + |a|, b) {
      assert f[pos..pos + |a + b|] == f[pos..pos + |a|] + f[pos + |a|..pos + |a| + |b|];
    }
  }

  lemma AtPrefix(f: bytes, p: bytes, pos: nat, s: bytes)
    requires p <= f && At(f, pos, s)
    ensures At(p, pos, s) <==> pos + |s| <= |p|
  {
    if pos + |s| <= |p| {
      assert p[pos..pos + |s|] == f[pos..pos + |s|];
    }
  }

  lemma AtFour(f: bytes, pos: nat, a: bytes, b: bytes, c: bytes, d: bytes)
    requires At(f, pos, a + b + c + d)
    ensures At(f, pos, a) && At(f, pos + |a|, b)
    ensures At(f, pos + |a| + |b|, c) && At(f, pos + |a| + |b| + |c|, d)
  {
    AtConcat(f, pos, a + b + c, d);
    AtConcat(f, pos, a + b, c);
    AtConcat(f, pos, a, b);
  }

  // ----- entries -------------------------------------------------------------------

  /** The reader's limits on a name, which the writer does not enforce. */
  predicate Readable<M>(c: Codec<M>, name: bytes) {
    1 <= |name| <= 4096 && c.safe(name)
  }

  predicate AllReadable<M>(c: Codec<M>, es: seq<Entry>) {
    forall i :: 0 <= i < |es| ==> Readable(c, es[i].name)
  }

  /** Entry names are Rust strings. */
  predicate Named<M>(c: Codec<M>, es: seq<Entry>) {
    forall i :: 0 <= i < |es| ==> c.utf8(es[i].name)
  }

  lemma HeaderPresent<M>(c: Codec<M>, p: bytes, pos: nat, name: bytes, len: u64, lenField: bytes, sizeField: bytes)
    requires c.utf8(name) && 1 <= |name| <= MAX_NAME
    requires |lenField| == 4 && FromLittleEndian(lenField) == |name|
    requires |sizeField| == 8 && FromLittleEndian(sizeField) == len
    requires At(p, pos, lenField) && At(p, pos + 4, name) && At(p, pos + 4 + |name|, sizeField)
    ensures ReadEntryHeader(c, p, pos) == Ok(EntryHeader(name, len, pos + 12 + |name|))
  {
    hide FromLittleEndian;
  }

  lemma HeaderCut<M>(c: Codec<M>, p: bytes, pos: nat, n: nat, lenField: bytes)
    requires |lenField| == 4 && FromLittleEndian(lenField) == n
    requires pos + 4 <= |p| ==> At(p, pos, lenField)
    requires pos + 12 + n > |p|
    ensures ReadEntryHeader(c, p, pos).Err?
  {
    hide FromLittleEndian;
  }

  /** An entry header, read from any prefix `p` of a file that holds it. */
  lemma HeaderReadsBack<M>(c: Codec<M>, F: bytes, p: bytes, pos: nat, name: bytes, len: u64)
    requires p <= F && c.utf8(name) && 1 <= |name| <= MAX_NAME
    requires At(F, pos, LittleEndian(|name|, 4)) && At(F, pos + 4, name)
    requires At(F, pos + 4 + |name|, LittleEndian(len, 8))
    ensures if pos + 12 + |name| <= |p|
            then ReadEntryHeader(c, p, pos) == Ok(EntryHeader(name, len, pos + 12 + |name|))
            else ReadEntryHeader(c, p, pos).Err?
  {
    hide FromLittleEndian, LittleEndian, FromBigEndian, BigEndian, ReadEntryHeader, At;
    var n := |name|;
    FieldFits(n);
    FieldFits(len);
    AtPrefix(F, p, pos, LittleEndian(n, 4));
    if pos + 12 + n <= |p| {
      AtPrefix(F, p, pos + 4, name);
      AtPrefix(F, p, pos + 4 + n, LittleEndian(len, 8));
      HeaderPresent(c, p, pos, name, len, LittleEndian(n, 4), LittleEndian(len, 8));
    } else {
      HeaderCut(c, p, pos, n, LittleEndian(n, 4));
    }
  }

  /** A name outside the limits is refused, or truncated to a length that cannot be its own. */
  lemma LongHeaderRefused<M>(c: Codec<M>, F: bytes, p: bytes, pos: nat, name: bytes)
    requires p <= F && At(F, pos, LittleEndian(|name|, 4)) && !(1 <= |name| <= MAX_NAME)
    ensures ReadEntryHeader(c, p, pos).Ok? ==> ReadEntryHeader(c, p, pos).value.name != name
  {
    hide FromLittleEndian, LittleEndian;
    FieldRoundTrips(|name|);
    AtPrefix(F, p, pos, LittleEndian(|name|, 4));
  }

  /**
   One entry, read from any prefix `p` of a file that holds its frame: it comes back, whole,
   exactly when its name is readable and the prefix reaches its end.
   */
  lemma EntryReadsBack<M>(c: Codec<M>, F: bytes, p: bytes, pos: nat, e: Entry)
    requires p <= F && At(F, pos, FrameOf(e))
    requires |e.data| < U64_LIMIT && c.utf8(e.name)
    ensures var r := ReadEntry(c, p, pos, MetaOf(e));
            && (r.Ok? <==> Readable(c, e.name) && pos + |FrameOf(e)| <= |p|)
            && (r.Ok? ==> r.value == (e, pos + |FrameOf(e)|))
  {
    hide LittleEndian, ReadEntryHeader, Checksum;
    AtFour(F, pos, LittleEndian(|e.name|, 4), e.name, LittleEndian(|e.data|, 8), e.data);
    if 1 <= |e.name| <= MAX_NAME {
      HeaderReadsBack(c, F, p, pos, e.name, |e.data|);
      AtPrefix(F, p, pos + 12 + |e.name|, e.data);
    } else {
      LongHeaderRefused(c, F, p, pos, e.name);
    }
  }

  lemma AllReadableSplit<M>(c: Codec<M>, e: Entry, rest: seq<Entry>)
    ensures AllReadable(c, [e] + rest) <==> Readable(c, e.name) && AllReadable(c, rest)
  {
    hide Readable;
    if AllReadable(c, [e] + rest) {
      assert Readable(c, ([e] + rest)[0].name);
      forall i | 0 <= i < |rest| ensures Readable(c, rest[i].name) {
        assert Readable(c, ([e] + rest)[i + 1].name);
      }
    }
  }

  /** The same for a whole payload: all of it, or an error; never other data. */
  lemma {:induction false} EntriesReadBack<M>(c: Codec<M>, F: bytes, p: bytes, pos: nat, es: seq<Entry>)
    requires p <= F && pos <= |p| && At(F, pos, Payload(es))
    requires Sized(es) && Named(c, es)
    ensures var r := Extract(c, p, pos, MetasOf(es));
            && (r.Ok? <==> AllReadable(c, es) && pos + |Payload(es)| <= |p|)
            && (r.Ok? ==> r.value == es)
    decreases |es|
  {
    hide ReadEntry, FrameOf, MetaOf, At, Readable;
    if es == [] {
    } else {
      var e := es[0];
      AtConcat(F, pos, FrameOf(e), Payload(es[1..]));
      EntryReadsBack(c, F, p, pos, e);
      assert MetasOf(es)[0] == MetaOf(e) && MetasOf(es)[1..] == MetasOf(es[1..]);
      assert es == [e] + es[1..];
      AllReadableSplit(c, e, es[1..]);
      if ReadEntry(c, p, pos, MetaOf(e)).Ok? {
        EntriesReadBack(c, F, p, pos + |FrameOf(e)|, es[1..]);
      }
    }
  }

  // ----- whole files ---------------------------------------------------------------

  lemma FileParts(json: bytes, payload: bytes)
    ensures var f := FileOf(json, payload);
            && |f| == 24 + |json| + |payload|
            && At(f, 0, MAGIC) && At(f, 8, LittleEndian(|json|, 4)) && At(f, 12, json)
            && At(f, 12 + |json|, payload) && At(f, |f| - 12, TRAILER)
            && f[..|f| - 4] == Body(json, payload)
            && f[|f| - 4..] == LittleEndian(Checksum(Body(json, payload)), 4)
  {
    hide LittleEndian, Checksum;
    var f := FileOf(json, payload);
    var lead := MAGIC + LittleEndian(|json|, 4) + json;
    var crc := LittleEndian(Checksum(Body(json, payload)), 4);
    assert f == lead + payload + TRAILER + crc;
    assert At(f, 0, f);
    AtFour(f, 0, lead, payload, TRAILER, crc);
    AtConcat(f, 0, MAGIC + LittleEndian(|json|, 4), json);
    AtConcat(f, 0, MAGIC, LittleEndian(|json|, 4));
  }

  /** A prefix that opens as a snapshot opens with the writer's own manifest, at the writer's own offset. */
  lemma PrefixOpens<M(!new)>(c: Codec<M>, m: Manifest<M>, payload: bytes, p: bytes)
    requires Lawful(c) && ManifestFits(c.encode(m))
    requires p <= FileOf(c.encode(m), payload)
    ensures Open(c, p).Ok? ==>
              && |c.encode(m)| <= MAX_MANIFEST
              && Open(c, p).value.manifest == m && Open(c, p).value.payloadStart == 12 + |c.encode(m)|
  {
    hide FromLittleEndian, LittleEndian, FileOf, Body, Checksum;
    var json := c.encode(m);
    var f := FileOf(json, payload);
    FileParts(json, payload);
    FieldRoundTrips(|json|);
    var mlen := |json| % U32_LIMIT;
    assert mlen < |json| ==> c.decode(json[..mlen]) == None;
    assert mlen == |json| ==> json[..mlen] == json;
    if |p| >= 12 {
      assert p[8..12] == f[8..12];
    }
    if 12 + mlen <= |p| {
      assert p[12..12 + mlen] == f[12..12 + |json|][..mlen] == json[..mlen];
    }
  }

  /**
   The finished file opens, with the manifest it was given, exactly when the manifest's true
   length is within the limit; `finish` itself only checks the length modulo 2^32.
   */
  lemma FinishedOpens<M(!new)>(c: Codec<M>, m: Manifest<M>, payload: bytes)
    requires Lawful(c) && ManifestFits(c.encode(m))
    ensures var f := FileOf(c.encode(m), payload);
            && (Open(c, f).Ok? <==> |c.encode(m)| <= MAX_MANIFEST)
            && (Open(c, f).Ok? ==>
                  Open(c, f).value == Header(m, 12 + |c.encode(m)|, |f| - 12, Checksum(f[..|f| - 4])))
  {
    hide FromLittleEndian, LittleEndian, FileOf, Body, Checksum;
    var json := c.encode(m);
    var f := FileOf(json, payload);
    FileParts(json, payload);
    FieldRoundTrips(|json|);
    FieldRoundTrips(Checksum(Body(json, payload)));
    PrefixOpens(c, m, payload, f);
    if |json| <= MAX_MANIFEST {
      assert f[..6] == MAGIC[..6] by { assert f[..6] == f[0..8][..6]; }
      assert f[..8] == f[0..8];
      assert f[12..12 + |json|] == json;
      assert c.decode(json) == Some(m);
    }
  }

  /** Four bytes of a field, least significant first. */
  predicate Little(n: int, b0: int, b1: int, b2: int, b3: int) {
    b0 == n % 256 && b1 == n / 256 % 256 && b2 == n / 65_536 % 256 && b3 == n / 16_777_216 % 256
  }

  lemma LittleField(n: nat)
    requires n < U32_LIMIT
    ensures var s := LittleEndian(n, 4); Little(n, s[0], s[1], s[2], s[3])
  {
    LittleBytes(n, n % 256, n / 256 % 256, n / 65_536 % 256, n / 16_777_216);
  }

  /**
   The finished file, byte by byte: "MCSNAP" 0 1, the manifest's length, the manifest, the payload,
   "MCSNAPED", the checksum.
   */
  lemma FileLayout(json: bytes, payload: bytes)
    requires |json| < U32_LIMIT
    ensures var f := FileOf(json, payload);
            var n, z := |json|, |f|;
            && z == 24 + n + |payload|
            && f[0..8] == [77, 67, 83, 78, 65, 80, 0, 1] && Little(n, f[8], f[9], f[10], f[11])
            && f[12..12 + n] == json && f[12 + n..z - 12] == payload
            && f[z - 12..z - 4] == [77, 67, 83, 78, 65, 80, 69, 68]
            && Little(Checksum(f[..z - 4]), f[z - 4], f[z - 3], f[z - 2], f[z - 1])
  {
    hide LittleEndian, FileOf, Body, Checksum;
    var f := FileOf(json, payload);
    FileParts(json, payload);
    var z := |f|;
    var len, crc := LittleEndian(|json|, 4), LittleEndian(Checksum(f[..z - 4]), 4);
    LittleField(|json|);
    LittleField(Checksum(f[..z - 4]));
    assert f[8..12] == len && f[8] == len[0] && f[9] == len[1] && f[10] == len[2] && f[11] == len[3];
    assert f[z - 4..] == crc && f[z - 4] == crc[0] && f[z - 3] == crc[1] && f[z - 2] == crc[2] && f[z - 1] == crc[3];
  }

  /** An entry, byte by byte: the name's length in four bytes, the name, the data's length in eight, the data. */
  lemma EntryLayout(e: Entry)
    requires |e.name| < U32_LIMIT && |e.data| < U64_LIMIT
    ensures var s, n, d := FrameOf(e), |e.name|, |e.data|;
            && |s| == 12 + n + d && Little(n, s[0], s[1], s[2], s[3]) && s[4..4 + n] == e.name
            && Little(d % 0x1_0000_0000, s[4 + n], s[5 + n], s[6 + n], s[7 + n])
            && Little(d / 0x1_0000_0000, s[8 + n], s[9 + n], s[10 + n], s[11 + n])
            && s[12 + n..] == e.data
  {
    var s, n, d := FrameOf(e), |e.name|, |e.data|;
    var len, size := LittleEndian(n, 4), LittleEndian(d, 8);
    var low, high := LittleEndian(d % U32_LIMIT, 4), LittleEndian(d / U32_LIMIT, 4);
    EightBytes(d);
    hide LittleEndian;
    LittleField(n);
    LittleField(d % U32_LIMIT);
    LittleField(d / U32_LIMIT);
    assert s[..4] == len && s[4 + n..12 + n] == size;
    assert s[0] == len[0] && s[1] == len[1] && s[2] == len[2] && s[3] == len[3];
    assert s[4 + n] == size[0] == low[0] && s[5 + n] == size[1] == low[1];
    assert s[6 + n] == size[2] == low[2] && s[7 + n] == size[3] == low[3];
    assert s[8 + n] == size[4] == high[0] && s[9 + n] == size[5] == high[1];
    assert s[10 + n] == size[6] == high[2] && s[11 + n] == size[7] == high[3];
  }

  lemma EightBytes(d: nat)
    requires d < U64_LIMIT
    ensures LittleEndian(d, 8) == LittleEndian(d % U32_LIMIT, 4) + LittleEndian(d / U32_LIMIT, 4)
  {
    hide LittleEndian, FromLittleEndian;
    var low, high := LittleEndian(d % U32_LIMIT, 4), LittleEndian(d / U32_LIMIT, 4);
    FieldFits(d % U32_LIMIT);
    FieldFits(d / U32_LIMIT);
    Capacities();
    FromLittleEndianConcat(low, high);
    FromLittleEndianRoundTrip(low + high);
  }

  // ----- what is accepted, exactly --------------------------------------------------------

  lemma WrittenOpens<M>(c: Codec<M>, json: bytes, payload: bytes)
    requires |json| <= MAX_MANIFEST && c.decode(json).Some?
    ensures var f := FileOf(json, payload);
            Open(c, f) == Ok(Header(c.decode(json).value, 12 + |json|, |f| - 12, Checksum(f[..|f| - 4])))
  {
    hide FromLittleEndian, LittleEndian, FileOf, Body, Checksum;
    var f := FileOf(json, payload);
    FileParts(json, payload);
    FieldFits(|json|);
    FieldFits(Checksum(Body(json, payload)));
    assert f[..6] == MAGIC[..6] by { assert f[..6] == f[0..8][..6]; }
    assert f[..8] == f[0..8];
    assert f[12..12 + |json|] == json;
  }

  /** Open and verify accept exactly the files the writer lays down, around any manifest that decodes and fits. */
  lemma AcceptedExactly<M>(c: Codec<M>, f: bytes)
    ensures Accepted(c, f) <==>
              exists json, payload :: |json| <= 8_388_608 && c.decode(json).Some? && f == FileOf(json, payload)
  {
    hide FromLittleEndian, LittleEndian, FileOf, Body, Checksum, Open, Accepted;
    if Accepted(c, f) {
      var json, payload := PartsOfAccepted(c, f);
    }
    forall json, payload | |json| <= MAX_MANIFEST && c.decode(json).Some? && f == FileOf(json, payload)
      ensures Accepted(c, f)
    {
      WrittenOpens(c, json, payload);
      AcceptedMeans(c, f);
    }
  }

  lemma AcceptedMeans<M>(c: Codec<M>, f: bytes)
    requires Open(c, f).Ok? && Open(c, f).value.storedCrc == Checksum(f[..|f| - 4])
    ensures Accepted(c, f)
  {
    hide Checksum, FromLittleEndian;
  }

  lemma PartsOfAccepted<M>(c: Codec<M>, f: bytes) returns (json: bytes, payload: bytes)
    requires Accepted(c, f)
    ensures |json| <= 8_388_608 && c.decode(json).Some? && f == FileOf(json, payload)
  {
    hide FromLittleEndian, LittleEndian, Checksum;
    var n := FromLittleEndian(f[8..12]);
    json, payload := f[12..12 + n], f[12 + n..|f| - 12];
    FromLittleEndianRoundTrip(f[8..12]);
    FromLittleEndianRoundTrip(f[|f| - 4..]);
    var body := f[..|f| - 4];
    assert body == MAGIC + f[8..12] + json + payload + TRAILER by {
      assert f[..8] == MAGIC && f[|f| - 12..|f| - 4] == TRAILER;
      assert body == f[..8] + f[8..12] + f[12..12 + n] + f[12 + n..|f| - 12] + f[|f| - 12..|f| - 4];
    }
    assert body == Body(json, payload);
    assert f == body + f[|f| - 4..];
  }

  /** One entry is read only if its frame is there and the manifest's line is its own. */
  lemma EntryReadMeans<M>(c: Codec<M>, f: bytes, pos: nat, meta: EntryMeta)
    requires ReadEntry(c, f, pos, meta).Ok?
    ensures var (e, next) := ReadEntry(c, f, pos, meta).value;
            && |e.data| < U64_LIMIT && MetaOf(e) == meta && Readable(c, e.name) && c.utf8(e.name)
            && At(f, pos, FrameOf(e)) && next == pos + |FrameOf(e)|
  {
    hide FromLittleEndian, LittleEndian, Checksum;
    var h := ReadEntryHeader(c, f, pos).value;
    var (e, next) := ReadEntry(c, f, pos, meta).value;
    var n := |h.name|;
    FromLittleEndianRoundTrip(f[pos..pos + 4]);
    FromLittleEndianRoundTrip(f[pos + 4 + n..pos + 12 + n]);
    assert f[pos..next] ==
      f[pos..pos + 4] + f[pos + 4..pos + 4 + n] + f[pos + 4 + n..pos + 12 + n] + f[pos + 12 + n..next];
  }

  /**
   Extraction gives some entries exactly when the table is theirs, their names are readable, and their
   frames are there.
   */
  lemma {:induction false} ExtractsExactly<M>(c: Codec<M>, f: bytes, pos: nat, metas: seq<EntryMeta>, es: seq<Entry>)
    requires pos <= |f|
    ensures Extract(c, f, pos, metas) == Ok(es) <==>
              && Sized(es) && MetasOf(es) == metas && AllReadable(c, es) && Named(c, es) && At(f, pos, Payload(es))
    decreases |metas|
  {
    hide ReadEntry, FrameOf, MetaOf, Readable, Payload, Extract, MetasOf;
    if Sized(es) && MetasOf(es) == metas && AllReadable(c, es) && Named(c, es) && At(f, pos, Payload(es)) {
      EntriesReadBack(c, f, f, pos, es);
    }
    if Extract(c, f, pos, metas) == Ok(es) {
      ExtractMeans(c, f, pos, metas, es);
    }
  }

  lemma {:induction false} ExtractMeans<M>(c: Codec<M>, f: bytes, pos: nat, metas: seq<EntryMeta>, es: seq<Entry>)
    requires pos <= |f| && Extract(c, f, pos, metas) == Ok(es)
    ensures Sized(es) && MetasOf(es) == metas && AllReadable(c, es) && Named(c, es) && At(f, pos, Payload(es))
    decreases |metas|
  {
    hide ReadEntry, FrameOf, MetaOf, Readable, At;
    if metas == [] {
      EmptyAt(f, pos);
    } else {
      var (e, next) := ReadEntry(c, f, pos, metas[0]).value;
      EntryReadMeans(c, f, pos, metas[0]);
      var rest := es[1..];
      ExtractMeans(c, f, next, metas[1..], rest);
      assert es == [e] + rest;
      AllReadableSplit(c, e, rest);
      AtConcat(f, pos, FrameOf(e), Payload(rest));
      assert metas == [metas[0]] + metas[1..];
    }
  }

  lemma EmptyAt(f: bytes, pos: nat)
    requires pos <= |f|
    ensures At(f, pos, [])
  {
  }

  /** What the writer wrote is what the reader gives back, or the reader refuses: exactly by name and manifest size. */
  lemma RoundTrip<M(!new)>(c: Codec<M>, m: Manifest<M>, es: seq<Entry>)
    requires Lawful(c) && ManifestFits(c.encode(m))
    requires Sized(es) && Named(c, es) && m.entries == MetasOf(es)
    ensures var r := Load(c, FileOf(c.encode(m), Payload(es)));
            && (r.Ok? <==> |c.encode(m)| <= MAX_MANIFEST && AllReadable(c, es))
            && (r.Ok? ==> r.value == (m, es))
  {
    hide FromLittleEndian, LittleEndian, FileOf, Body, Checksum, Payload, Extract, Open;
    var json := c.encode(m);
    var f := FileOf(json, Payload(es));
    FinishedOpens(c, m, Payload(es));
    FileParts(json, Payload(es));
    if |json| <= MAX_MANIFEST {
      EntriesReadBack(c, f, f, 12 + |json|, es);
    }
  }

  // ----- integrity -------------------------------------------------------------------

  /** For an opened file, the trailer check is a statement about the checksum of the whole file. */
  lemma VerifyIsResidue<M>(c: Codec<M>, f: bytes)
    requires Open(c, f).Ok?
    ensures Verify(f, Open(c, f).value).Ok? <==> Checksum(f) == ResidueValue()
  {
    var body, tail := f[..|f| - 4], f[|f| - 4..];
    assert f == body + tail;
    Residue(body, tail);
  }

  predicate Accepted<M>(c: Codec<M>, f: bytes) {
    Open(c, f).Ok? && Verify(f, Open(c, f).value).Ok?
  }

  /** Damage confined to four consecutive bytes of an accepted file, anywhere in it, is refused. */
  lemma CorruptionRefused<M>(c: Codec<M>, f: bytes, g: bytes, k: nat, w: nat)
    requires Accepted(c, f)
    requires |g| == |f| && g != f && w <= 4 && k + w <= |f|
    requires g[..k] == f[..k] && g[k + w..] == f[k + w..]
    ensures !Accepted(c, g)
  {
    VerifyIsResidue(c, f);
    WindowDetected(f, g, k, w);
    if Open(c, g).Ok? {
      VerifyIsResidue(c, g);
    }
  }

  /** The same for any burst of up to 32 bits, whatever byte boundaries it straddles. */
  lemma BurstRefused<M>(c: Codec<M>, f: bytes, g: bytes,
                        pre: seq<bool>, u: seq<bool>, v: seq<bool>, post: seq<bool>)
    requires Accepted(c, f)
    requires MessageBits(f) == pre + u + post && MessageBits(g) == pre + v + post
    requires |u| == |v| <= 32 && u != v
    ensures !Accepted(c, g)
  {
    VerifyIsResidue(c, f);
    BurstDetected(f, g, pre, u, v, post);
    if Open(c, g).Ok? {
      VerifyIsResidue(c, g);
    }
  }

  /** Every finished file has the same whole-file checksum, whatever it holds. */
  lemma FinishedChecksum(json: bytes, payload: bytes)
    ensures Checksum(FileOf(json, payload)) == 0x2144_DF1C
  {
    hide Checksum, LittleEndian, ResidueValue;
    ResidueIs();
    ResidueOfSelf(Body(json, payload));
  }

  /**
   Truncation never yields wrong data. With `cut` bytes missing from the end of a finished file:
   1 to 7 are refused by `open`; up to 12 leave every entry readable, so extraction can only give
   the original entries; more than 12 never get through extraction.
   */
  lemma TruncationSafe<M(!new)>(c: Codec<M>, m: Manifest<M>, es: seq<Entry>, cut: nat)
    requires Lawful(c) && ManifestFits(c.encode(m))
    requires Sized(es) && Named(c, es) && m.entries == MetasOf(es)
    requires 0 < cut <= |FileOf(c.encode(m), Payload(es))|
    ensures var f := FileOf(c.encode(m), Payload(es));
            var p := f[..|f| - cut];
            && (cut <= 7 ==> Open(c, p).Err?)
            && (cut > 12 ==> Load(c, p).Err?)
            && (Load(c, p).Ok? ==> Load(c, p).value == (m, es))
  {
    hide FromLittleEndian, LittleEndian, FileOf, Body, Checksum, Payload, Extract;
    var json := c.encode(m);
    var f := FileOf(json, Payload(es));
    var p := f[..|f| - cut];
    FileParts(json, Payload(es));
    PrefixOpens(c, m, Payload(es), p);
    if Open(c, p).Ok? {
      EntriesReadBack(c, f, p, 12 + |json|, es);
      TrailerShift(f, cut);
    }
  }

  /** A trailer shifted by less than its length would need its 'M' where it has another letter. */
  lemma TrailerShift(f: bytes, cut: nat)
    requires |f| >= 12 + cut && At(f, |f| - 12, TRAILER)
    ensures 0 < cut <= 7 ==> f[|f| - cut - 12..|f| - cut - 4] != TRAILER
  {
    if 0 < cut <= 7 {
      assert f[|f| - cut - 12..|f| - cut - 4][cut] == f[|f| - 12..|f| - 4][0] == TRAILER[0];
      assert TRAILER[cut] != TRAILER[0];
    }
  }
}
