/** Writing a snapshot: entries stream to a scratch file, then the file is assembled around them. */
module Writer {
  import opened Bytes
  import opened Crc
  import opened CrcLaws
  import opened Format
  import opened Streams

  /** A writer that checksums everything passing through it. */
  class CrcWriter {
    const inner: Sink
    const crc: Crc32
    var bytes: nat

    /** The rolling checksum and the byte count describe exactly what the inner writer accepted. */
    ghost predicate Valid()
      reads this, inner, crc
    {
      crc.value == AbsorbAll(ONES, inner.data) && bytes == |inner.data|
    }

    constructor (inner: Sink)
      requires inner.data == []
      ensures Valid() && this.inner == inner && fresh(crc)
    {
      this.inner := inner;
      crc := new Crc32();
      bytes := 0;
    }

    method Write(buf: bytes) returns (n: Option<nat>)
      requires Valid() && buf != []
      modifies this, inner, crc
      ensures Valid()
      ensures n.Some? ==> 0 < n.value <= |buf| && inner.data == old(inner.data) + buf[..n.value]
      ensures n.None? ==> !inner.reliable && inner.data == old(inner.data)
    {
      n := inner.Write(buf);
      if n.Some? {
        AbsorbConcat(ONES, old(inner.data), buf[..n.value]);
        crc.Update(buf[..n.value]);
        bytes := bytes + n.value;
      }
    }

    method WriteAll(buf: bytes) returns (ok: bool)
      requires Valid()
      modifies this, inner, crc
      ensures Valid()
      ensures ok ==> inner.data == old(inner.data) + buf
      ensures !ok ==> !inner.reliable && inner.data <= old(inner.data) + buf
    {
      var done := 0;
      while done < |buf|
        invariant Valid() && done <= |buf| && inner.data == old(inner.data) + buf[..done]
      {
        var n := Write(buf[done..]);
        if n.None? {
          return false;
        }
        assert buf[..done] + buf[done..][..n.value] == buf[..done + n.value];
        done := done + n.value;
      }
      assert buf[..done] == buf;
      ok := true;
    }

    /** `io::copy`: everything the source still has. */
    method CopyFrom(src: Source) returns (ok: bool)
      requires Valid() && src.Valid()
      modifies this, inner, crc, src
      ensures Valid()
      ensures ok ==> inner.data == old(inner.data) + old(src.Rest())
      ensures !ok ==> !(inner.reliable && src.reliable) && inner.data <= old(inner.data) + old(src.Rest())
    {
      ghost var start := src.pos;
      while true
        invariant Valid() && src.Valid() && start <= src.pos
        invariant inner.data == old(inner.data) + src.data[start..src.pos]
        decreases |src.data| - src.pos
      {
        ghost var before := src.pos;
        var chunk := src.Read(CHUNK);
        if chunk.None? {
          return false;
        }
        if chunk.value == [] {
          break;
        }
        assert src.data[start..before] + chunk.value == src.data[start..src.pos];
        assert src.data[start..src.pos] <= old(src.Rest());
        var wrote := WriteAll(chunk.value);
        if !wrote {
          return false;
        }
      }
      ok := true;
    }
  }

  lemma {:induction false} PayloadSnoc(es: seq<Entry>, e: Entry)
    requires Sized(es) && |e.data| < U64_LIMIT
    ensures Sized(es + [e])
    ensures Payload(es + [e]) == Payload(es) + FrameOf(e)
    ensures MetasOf(es + [e]) == MetasOf(es) + [MetaOf(e)]
  {
    if es == [] {
      assert es + [e] == [e];
    } else {
      assert (es + [e])[1..] == es[1..] + [e];
      PayloadSnoc(es[1..], e);
    }
  }

  /** Stream the rest of `src` into the scratch file, counting and checksumming it on the way. */
  method CopyData(scratch: Sink, src: Source) returns (ok: bool, copied: nat, sum: u32)
    requires src.Valid()
    modifies scratch, src
    ensures src.Valid()
    ensures ok ==>
              && copied == |old(src.Rest())| && sum == Checksum(old(src.Rest()))
              && scratch.data == old(scratch.data) + old(src.Rest())
    ensures !ok ==> !(src.reliable && scratch.reliable)
  {
    assert AbsorbAll(ONES, []) == ONES;
    hide AbsorbAll;
    var crc := new Crc32();
    copied, sum, ok := 0, 0, false;
    ghost var start, got := src.pos, [];
    while true
      invariant src.Valid() && start <= src.pos && got == src.data[start..src.pos] && copied == |got|
      invariant scratch.data == old(scratch.data) + got
      invariant fresh(crc) && crc.value == AbsorbAll(ONES, got)
      decreases |src.data| - src.pos
    {
      var chunk := src.Read(CHUNK);
      if chunk.None? {
        return;
      }
      if chunk.value == [] {
        break;
      }
      AbsorbConcat(ONES, got, chunk.value);
      got := got + chunk.value;
      crc.Update(chunk.value);
      var wrote := scratch.WriteAll(chunk.value);
      if !wrote {
        return;
      }
      copied := copied + |chunk.value|;
    }
    assert got == old(src.Rest());
    sum := crc.Finish();
    ok := true;
  }

  class SnapshotWriter {
    var scratch: Sink?
    var entries: seq<EntryMeta>
    /** The entries added so far, and whether a failed `WriteEntry` has left part of one behind. */
    ghost var added: seq<Entry>
    ghost var spoiled: bool

    ghost predicate Valid()
      reads this, scratch
    {
      && Sized(added) && entries == MetasOf(added)
      && (scratch != null && !spoiled ==> scratch.data == Payload(added))
    }

    constructor (scratchReliable: bool)
      ensures Valid() && scratch != null && fresh(scratch) && scratch.reliable == scratchReliable
      ensures added == [] && !spoiled
    {
      scratch := new Sink(scratchReliable);
      entries, added, spoiled := [], [], false;
    }

    method HasName(name: bytes) returns (found: bool)
      ensures found <==> exists m :: m in entries && m.name == name
    {
      var i := 0;
      found := false;
      while i < |entries|
        invariant 0 <= i <= |entries|
        invariant forall k :: 0 <= k < i ==> entries[k].name != name
      {
        if entries[i].name == name {
          return true;
        }
        i := i + 1;
      }
    }

    /**
     Append one entry, streaming it from `src`, for every schedule of short reads and writes.
     An error other than a refusal may leave part of a frame in the scratch file.
     */
    method WriteEntry(name: bytes, len: u64, src: Source) returns (r: Result<()>)
      requires Valid() && src.Valid()
      modifies this, scratch, src
      ensures Valid() && scratch == old(scratch)
      ensures r.Ok? ==> |old(src.Rest())| == len && spoiled == old(spoiled)
                        && added == old(added) + [Entry(name, old(src.Rest()))]
      ensures r.Err? ==> entries == old(entries) && added == old(added)
      ensures r == Err(DuplicateEntry) <==> exists m :: m in old(entries) && m.name == name
      ensures r == Err(AlreadyFinished) ==> old(scratch) == null
      ensures r == Err(DuplicateEntry) || r == Err(AlreadyFinished) ==>
                spoiled == old(spoiled) && src.pos == old(src.pos)
      ensures r == Err(LengthChanged) ==> |old(src.Rest())| != len
      ensures r == Err(IoFault) ==> !(src.reliable && old(scratch) != null && scratch.reliable)
      ensures r.Err? ==> r.error in {DuplicateEntry, AlreadyFinished, LengthChanged, IoFault}
    {
      hide LittleEndian, Checksum, Payload, MetasOf;
      var duplicate := HasName(name);
      if duplicate {
        return Err(DuplicateEntry);
      }
      if scratch == null {
        return Err(AlreadyFinished);
      }
      ghost var e := Entry(name, src.Rest());
      ghost var wasSpoiled := spoiled;
      spoiled := true;
      var ok := WriteHeader(name, len);
      if !ok {
        return Err(IoFault);
      }
      var copied, sum;
      ok, copied, sum := CopyData(scratch, src);
      if !ok {
        return Err(IoFault);
      }
      if copied != len {
        return Err(LengthChanged);
      }
      entries := entries + [EntryMeta(name, len, sum)];
      added := added + [e];
      spoiled := wasSpoiled;
      PayloadSnoc(old(added), e);
      r := Ok(());
    }

    ghost function HeaderBytes(name: bytes, len: u64): bytes {
      LittleEndian(|name|, 4) + name + LittleEndian(len, 8)
    }

    method WriteHeader(name: bytes, len: u64) returns (ok: bool)
      requires scratch != null
      modifies scratch
      ensures ok ==> scratch.data == old(scratch.data) + HeaderBytes(name, len)
      ensures !ok ==> !scratch.reliable
    {
      ok := scratch.WriteAll(LittleEndian(|name| % U32_LIMIT, 4));
      if ok {
        ok := scratch.WriteAll(name);
      }
      if ok {
        ok := scratch.WriteAll(LittleEndian(len, 8));
      }
      TruncatedField(|name|);
    }

    /** Assemble the final file in place at `dest`. The writer cannot be used again. */
    method Finish<M>(c: Codec<M>, dest: Sink, build: seq<EntryMeta> -> Manifest<M>, readBackReliable: bool)
      returns (r: Result<Manifest<M>>)
      requires Valid() && dest != scratch
      modifies this, dest, scratch
      ensures scratch == null && added == old(added)
      ensures r == Err(AlreadyFinished) <==> old(scratch) == null
      ensures r == Err(ManifestTooLarge) ==>
                !ManifestFits(c.encode(build(old(entries)))) && dest.data == old(dest.data)
      ensures r == Err(IoFault) ==>
                && old(scratch) != null && !(dest.reliable && readBackReliable && old(scratch).reliable)
                && (dest.data == old(dest.data) ||
                    (!old(spoiled) ==> dest.data <= FileOf(c.encode(build(old(entries))), Payload(added))))
      ensures r.Err? ==> r.error in {AlreadyFinished, ManifestTooLarge, IoFault}
      ensures r.Ok? ==>
                && r.value == build(MetasOf(added)) && ManifestFits(c.encode(r.value))
                && (!old(spoiled) ==> dest.data == FileOf(c.encode(r.value), Payload(added)))
    {
      if scratch == null {
        return Err(AlreadyFinished);
      }
      var flushed := scratch.Flush();
      var payload := scratch.data;
      scratch := null;
      if !flushed {
        return Err(IoFault);
      }
      var manifest := build(entries);
      var json := c.encode(manifest);
      if |json| % U32_LIMIT > MAX_MANIFEST {
        return Err(ManifestTooLarge);
      }
      var created := dest.Truncate();
      if !created {
        return Err(IoFault);
      }
      var done := Assemble(dest, json, payload, readBackReliable);
      if !done {
        return Err(IoFault);
      }
      r := Ok(manifest);
    }
  }

  lemma TruncatedField(n: nat)
    ensures LittleEndian(n % U32_LIMIT, 4) == LittleEndian(n, 4)
  {
    FieldRoundTrips(n);
    FieldRoundTrips(n % U32_LIMIT);
    FromLittleEndianRoundTrip(LittleEndian(n, 4));
    FromLittleEndianRoundTrip(LittleEndian(n % U32_LIMIT, 4));
  }

  function Front(json: bytes): bytes {
    MAGIC + LittleEndian(|json|, 4) + json
  }

  lemma FileIs(json: bytes, payload: bytes)
    ensures Body(json, payload) == Front(json) + payload + TRAILER
    ensures FileOf(json, payload) == Body(json, payload) + LittleEndian(Checksum(Body(json, payload)), 4)
  {
  }

  lemma ShortOf(d: bytes, reached: bytes, rest: bytes)
    requires d <= reached
    ensures d <= reached + rest
  {
  }

  /** Magic, manifest length and manifest. */
  method WriteFront(w: CrcWriter, json: bytes) returns (ok: bool)
    requires w.Valid() && w.inner.data == []
    modifies w, w.inner, w.crc
    ensures w.Valid()
    ensures ok ==> w.inner.data == Front(json)
    ensures !ok ==> !w.inner.reliable && w.inner.data <= Front(json)
  {
    hide LittleEndian, AbsorbAll;
    ok := w.WriteAll(MAGIC);
    if !ok {
      ShortOf(w.inner.data, MAGIC, LittleEndian(|json|, 4) + json);
      assert MAGIC + (LittleEndian(|json|, 4) + json) == Front(json);
      return;
    }
    TruncatedField(|json|);
    ok := w.WriteAll(LittleEndian(|json| % U32_LIMIT, 4));
    if !ok {
      ShortOf(w.inner.data, MAGIC + LittleEndian(|json|, 4), json);
      return;
    }
    ok := w.WriteAll(json);
  }

  /**
   Magic, manifest, payload and trailer go through the checksumming writer; then its checksum. A fault
   leaves a prefix of the file.
   */
  method Assemble(dest: Sink, json: bytes, payload: bytes, readBackReliable: bool) returns (ok: bool)
    requires dest.data == []
    modifies dest
    ensures ok ==> dest.data == FileOf(json, payload)
    ensures !ok ==> !(dest.reliable && readBackReliable) && dest.data <= FileOf(json, payload)
  {
    hide LittleEndian, AbsorbAll, Checksum, Front, FileOf, Body;
    FileIs(json, payload);
    ghost var front, body := Front(json), Body(json, payload);
    ghost var crc := LittleEndian(Checksum(body), 4);
    var w := new CrcWriter(dest);
    ok := WriteFront(w, json);
    if !ok {
      ShortOf(dest.data, front, payload + TRAILER + crc);
      assert front + (payload + TRAILER + crc) == body + crc;
      return;
    }
    var scratch := new Source(payload, readBackReliable);
    ok := w.CopyFrom(scratch);
    if !ok {
      ShortOf(dest.data, front + payload, TRAILER + crc);
      assert front + payload + (TRAILER + crc) == body + crc;
      return;
    }
    ok := WriteEnd(w);
  }

  /** Trailer, checksum of everything before it, and the last flush. */
  method WriteEnd(w: CrcWriter) returns (ok: bool)
    requires w.Valid()
    modifies w, w.inner, w.crc
    ensures var body := old(w.inner.data) + TRAILER;
            var whole := body + LittleEndian(Checksum(body), 4);
            if ok then w.inner.data == whole else !w.inner.reliable && w.inner.data <= whole
  {
    hide LittleEndian, AbsorbAll, Checksum;
    ghost var body := w.inner.data + TRAILER;
    ok := w.WriteAll(TRAILER);
    if !ok {
      ShortOf(w.inner.data, body, LittleEndian(Checksum(body), 4));
      return;
    }
    var sum := w.crc.Finish();
    ok := w.WriteAll(LittleEndian(sum, 4));
    if ok {
      ok := w.inner.Flush();
    }
  }
}
