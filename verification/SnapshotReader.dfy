/** Reading a snapshot: the streaming loops give exactly the whole-file answer, or an I/O fault. */
module Reader {
  import opened Bytes
  import opened Crc
  import opened CrcLaws
  import opened Format
  import opened Streams

  /** `got` is what the whole-file function says of the file, unless an unreliable file failed. */
  ghost predicate Agrees<T>(got: Result<T>, says: Result<T>, reliable: bool) {
    got == says || (got == Err(IoFault) && !reliable)
  }

  method OpenSnapshot<M>(c: Codec<M>, file: Source) returns (r: Result<Header<M>>)
    requires file.Valid() && file.pos == 0
    modifies file
    ensures file.Valid() && Agrees(r, Open(c, file.data), file.reliable)
  {
    hide FromLittleEndian;
    var total := |file.data|;
    if total < |MAGIC| + 4 + |TRAILER| + 4 {
      return Err(TooSmall);
    }
    var magic := file.ReadExact(8);
    if magic.Err? {
      return Err(magic.error);
    }
    assert magic.value == file.data[..8] && magic.value[..6] == file.data[..6];
    if magic.value[..6] != MAGIC[..6] {
      return Err(BadMagic);
    }
    if magic.value != MAGIC {
      return Err(BadVersion);
    }
    var lenb := file.ReadExact(4);
    if lenb.Err? {
      return Err(lenb.error);
    }
    var mlen := FromLittleEndian(lenb.value);
    if mlen > MAX_MANIFEST || mlen > total {
      return Err(ImplausibleManifest);
    }
    var mbuf := file.ReadExact(mlen);
    if mbuf.Err? {
      return Err(mbuf.error);
    }
    var manifest := c.decode(mbuf.value);
    if manifest.None? {
      return Err(BadJson);
    }
    var payloadStart := |MAGIC| + 4 + mlen;
    var payloadEnd := total - (|TRAILER| + 4);
    if payloadEnd < payloadStart {
      return Err(PayloadTruncated);
    }
    r := ReadTrailer(file, manifest.value, payloadStart, payloadEnd);
  }

  method ReadTrailer<M>(file: Source, manifest: Manifest<M>, payloadStart: nat, payloadEnd: nat)
    returns (r: Result<Header<M>>)
    requires file.Valid() && payloadEnd + 12 == |file.data|
    modifies file
    ensures file.Valid()
    ensures Agrees(r,
                   if file.data[payloadEnd..payloadEnd + 8] != TRAILER then Err(NoTrailer)
                   else Ok(Header(manifest, payloadStart, payloadEnd, StoredWord(file.data, payloadEnd + 8))),
                   file.reliable)
  {
    file.Seek(payloadEnd);
    var tr := file.ReadExact(8);
    if tr.Err? {
      return Err(tr.error);
    }
    var crcb := file.ReadExact(4);
    if crcb.Err? {
      return Err(crcb.error);
    }
    if tr.value != TRAILER {
      return Err(NoTrailer);
    }
    assert crcb.value == file.data[payloadEnd + 8..];
    FieldBounds(crcb.value);
    r := Ok(Header(manifest, payloadStart, payloadEnd, FromLittleEndian(crcb.value)));
  }

  ghost function StoredWord(f: bytes, at: nat): u32
    requires at + 4 == |f|
  {
    FieldBounds(f[at..]);
    FromLittleEndian(f[at..])
  }

  class SnapshotReader<M> {
    const codec: Codec<M>
    const file: Source
    const header: Header<M>

    constructor (codec: Codec<M>, file: Source, header: Header<M>)
      ensures this.codec == codec && this.file == file && this.header == header
    {
      this.codec, this.file, this.header := codec, file, header;
    }

    /** The whole-file integrity check. */
    method Verify() returns (r: Result<()>)
      requires file.Valid()
      modifies file
      ensures file.Valid() && Agrees(r, Format.Verify(file.data, header), file.reliable)
    {
      file.Seek(0);
      var got := ChecksumNext(file, header.payloadEnd + |TRAILER|, ShortRead);
      if got.Err? {
        return Err(got.error);
      }
      assert file.data[0..header.payloadEnd + 8] == file.data[..header.payloadEnd + 8];
      if got.value.1 != header.storedCrc {
        return Err(ChecksumMismatch);
      }
      r := Ok(());
    }

    method ReadHeader() returns (r: Result<EntryHeader>)
      requires file.Valid()
      modifies file
      ensures file.Valid() && Agrees(r, ReadEntryHeader(codec, file.data, old(file.pos)), file.reliable)
      ensures r.Ok? ==> file.pos == r.value.next
    {
      hide FromLittleEndian;
      var nb := file.ReadExact(4);
      if nb.Err? {
        return Err(nb.error);
      }
      var nlen := FromLittleEndian(nb.value);
      if nlen == 0 || nlen > MAX_NAME {
        return Err(BadNameLength);
      }
      var name := file.ReadExact(nlen);
      if name.Err? {
        return Err(name.error);
      }
      if !codec.utf8(name.value) {
        return Err(NotUtf8);
      }
      var lb := file.ReadExact(8);
      if lb.Err? {
        return Err(lb.error);
      }
      FieldBounds(lb.value);
      r := Ok(EntryHeader(name.value, FromLittleEndian(lb.value), file.pos));
    }

    method ExtractOne(meta: EntryMeta) returns (r: Result<(Entry, nat)>)
      requires file.Valid()
      modifies file
      ensures file.Valid() && Agrees(r, ReadEntry(codec, file.data, old(file.pos), meta), file.reliable)
      ensures r.Ok? ==> file.pos == r.value.1
    {
      hide ReadEntryHeader, Checksum;
      var h := ReadHeader();
      if h.Err? {
        return Err(h.error);
      }
      if h.value.name != meta.name || h.value.len != meta.len {
        return Err(ManifestDisagrees);
      }
      if !codec.safe(h.value.name) {
        return Err(UnsafeName);
      }
      var got := ChecksumNext(file, h.value.len, TruncatedEntry);
      if got.Err? {
        return Err(got.error);
      }
      if got.value.1 != meta.crc {
        return Err(ChecksumMismatch);
      }
      r := Ok((Entry(h.value.name, got.value.0), file.pos));
    }

    /** Unpack every entry, checking each as it lands; `written` is what reached the directory. */
    method ExtractAll() returns (r: Result<seq<Entry>>, written: seq<Entry>)
      requires file.Valid() && header.payloadStart <= |file.data|
      modifies file
      ensures file.Valid()
      ensures Agrees(r, Extract(codec, file.data, header.payloadStart, header.manifest.entries), file.reliable)
      ensures r.Ok? ==> r.value == written
    {
      file.Seek(header.payloadStart);
      var expected := header.manifest.entries;
      written := [];
      ghost var goal := Extract(codec, file.data, header.payloadStart, expected);
      var i := 0;
      assert expected[0..] == expected;
      PrependNone(goal);
      while i < |expected|
        invariant 0 <= i <= |expected| && file.Valid()
        invariant goal == Prepend(written, Extract(codec, file.data, file.pos, expected[i..]))
      {
        ghost var here := file.pos;
        assert expected[i..][1..] == expected[i + 1..];
        var got := ExtractOne(expected[i]);
        if got.Err? {
          return Err(got.error), written;
        }
        PrependOne(written, got.value.0, Extract(codec, file.data, file.pos, expected[i + 1..]));
        written := written + [got.value.0];
        i := i + 1;
      }
      assert written + [] == written;
      r := Ok(written);
    }
  }

  ghost function Prepend(done: seq<Entry>, r: Result<seq<Entry>>): Result<seq<Entry>> {
    match r
    case Ok(rest) => Ok(done + rest)
    case Err(e) => Err(e)
  }

  lemma PrependNone(r: Result<seq<Entry>>)
    ensures Prepend([], r) == r
  {
    if r.Ok? {
      assert [] + r.value == r.value;
    }
  }

  lemma PrependOne(done: seq<Entry>, e: Entry, r: Result<seq<Entry>>)
    ensures Prepend(done, Prepend([e], r)) == Prepend(done + [e], r)
  {
    if r.Ok? {
      assert done + ([e] + r.value) == done + [e] + r.value;
    }
  }

  /** Read the next `count` bytes in pieces, keeping a rolling checksum; `short` is the error at end of file. */
  method ChecksumNext(file: Source, count: nat, short: Error) returns (r: Result<(bytes, u32)>)
    requires file.Valid()
    modifies file
    ensures file.Valid()
    ensures Agrees(r,
                   if old(file.pos) + count > |file.data| then Err(short)
                   else var s := file.data[old(file.pos)..old(file.pos) + count]; Ok((s, Checksum(s))),
                   file.reliable)
    ensures r.Ok? ==> file.pos == old(file.pos) + count
  {
    assert AbsorbAll(ONES, []) == ONES;
    hide AbsorbAll;
    var crc := new Crc32();
    var remaining: nat := count;
    var out: bytes := [];
    ghost var start := file.pos;
    while remaining > 0
      invariant file.Valid() && file.pos == start + |out| && |out| + remaining == count
      invariant out == file.data[start..file.pos]
      invariant fresh(crc) && crc.value == AbsorbAll(ONES, out)
    {
      var chunk := file.Read(Min(CHUNK, remaining));
      if chunk.None? {
        return Err(IoFault);
      }
      if chunk.value == [] {
        return Err(short);
      }
      AbsorbConcat(ONES, out, chunk.value);
      crc.Update(chunk.value);
      out := out + chunk.value;
      remaining := remaining - |chunk.value|;
    }
    var got := crc.Finish();
    assert out == file.data[start..start + count];
    r := Ok((out, got));
  }
}
