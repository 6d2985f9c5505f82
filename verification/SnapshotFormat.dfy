/** The `.mcsnap` file as a value: what the writer lays down and what the reader makes of any bytes. */
module Format {
  import opened Bytes
  import opened Crc

  const MAGIC: bytes := [0x4D, 0x43, 0x53, 0x4E, 0x41, 0x50, 0x00, 0x01]
  const TRAILER: bytes := [0x4D, 0x43, 0x53, 0x4E, 0x41, 0x50, 0x45, 0x44]
  const MAX_MANIFEST: nat := 8 * 1024 * 1024
  const MAX_NAME: nat := 4096
  const CHUNK: nat := 256 * 1024

  /** One file inside the snapshot, and its line in the manifest. */
  datatype Entry = Entry(name: bytes, data: bytes)
  datatype EntryMeta = EntryMeta(name: bytes, len: u64, crc: u32)

  /** The manifest: the entry table, and everything else as `info`. */
  datatype Manifest<+M> = Manifest(info: M, entries: seq<EntryMeta>)

  /** The library calls the format leans on: the JSON text of a manifest, UTF-8, and path safety. */
  datatype Codec<!M> = Codec(
    encode: Manifest<M> -> bytes,
    decode: bytes -> Option<Manifest<M>>,
    utf8: bytes -> bool,
    safe: bytes -> bool)

  /** JSON reads back what it wrote, and no proper prefix of an object is a document. */
  ghost predicate Lawful<M(!new)>(c: Codec<M>) {
    && (forall m :: c.decode(c.encode(m)) == Some(m))
    && (forall m, k: nat :: k < |c.encode(m)| ==> c.decode(c.encode(m)[..k]) == None)
  }

  datatype Error =
    | TooSmall | BadMagic | BadVersion | ImplausibleManifest | ShortRead | BadJson | PayloadTruncated | NoTrailer
    | ChecksumMismatch | ManifestDisagrees | UnsafeName | TruncatedEntry | BadNameLength | NotUtf8
    | DuplicateEntry | AlreadyFinished | LengthChanged | ManifestTooLarge | IoFault

  datatype Result<+T> = Ok(value: T) | Err(error: Error)

  // ----- writing ----------------------------------------------------------------

  /** An entry as `write_entry` frames it; the name length is truncated to 32 bits. */
  function FrameOf(e: Entry): bytes {
    LittleEndian(|e.name|, 4) + e.name + LittleEndian(|e.data|, 8) + e.data
  }

  function Payload(es: seq<Entry>): bytes {
    if es == [] then [] else FrameOf(es[0]) + Payload(es[1..])
  }

  predicate Sized(es: seq<Entry>) {
    forall i :: 0 <= i < |es| ==> |es[i].data| < U64_LIMIT
  }

  function MetaOf(e: Entry): EntryMeta
    requires |e.data| < U64_LIMIT
  {
    EntryMeta(e.name, |e.data|, Checksum(e.data))
  }

  function MetasOf(es: seq<Entry>): (ms: seq<EntryMeta>)
    requires Sized(es)
    ensures |ms| == |es|
  {
    if es == [] then [] else [MetaOf(es[0])] + MetasOf(es[1..])
  }

  function Body(json: bytes, payload: bytes): bytes {
    MAGIC + LittleEndian(|json|, 4) + json + payload + TRAILER
  }

  /** The file `finish` leaves behind. */
  function FileOf(json: bytes, payload: bytes): bytes {
    Body(json, payload) + LittleEndian(Checksum(Body(json, payload)), 4)
  }

  /** `finish` compares the length after a cast to 32 bits. */
  predicate ManifestFits(json: bytes) {
    |json| % U32_LIMIT <= MAX_MANIFEST
  }

  // ----- reading ----------------------------------------------------------------

  datatype Header<+M> = Header(manifest: Manifest<M>, payloadStart: nat, payloadEnd: nat, storedCrc: u32)

  function Open<M>(c: Codec<M>, f: bytes): (r: Result<Header<M>>)
    ensures r.Ok? ==> 12 <= r.value.payloadStart <= r.value.payloadEnd == |f| - 12
  {
    if |f| < 24 then Err(TooSmall)
    else if f[..6] != MAGIC[..6] then Err(BadMagic)
    else if f[..8] != MAGIC then Err(BadVersion)
    else
      var mlen := FromLittleEndian(f[8..12]);
      if mlen > MAX_MANIFEST || mlen > |f| then Err(ImplausibleManifest)
      else if 12 + mlen > |f| then Err(ShortRead)
      else
        match c.decode(f[12..12 + mlen])
        case None => Err(BadJson)
        case Some(m) =>
          if |f| - 12 < 12 + mlen then Err(PayloadTruncated)
          else if f[|f| - 12..|f| - 4] != TRAILER then Err(NoTrailer)
          else
            FieldBounds(f[|f| - 4..]);
            Ok(Header(m, 12 + mlen, |f| - 12, FromLittleEndian(f[|f| - 4..])))
  }

  function Verify<M>(f: bytes, h: Header<M>): Result<()> {
    if h.payloadEnd + 8 > |f| then Err(ShortRead)
    else if Checksum(f[..h.payloadEnd + 8]) != h.storedCrc then Err(ChecksumMismatch)
    else Ok(())
  }

  datatype EntryHeader = EntryHeader(name: bytes, len: u64, next: nat)

  function ReadEntryHeader<M>(c: Codec<M>, f: bytes, pos: nat): (r: Result<EntryHeader>)
    ensures r.Ok? ==> pos < r.value.next <= |f|
  {
    if pos + 4 > |f| then Err(ShortRead)
    else
      var nlen := FromLittleEndian(f[pos..pos + 4]);
      if nlen == 0 || nlen > MAX_NAME then Err(BadNameLength)
      else if pos + 4 + nlen > |f| then Err(ShortRead)
      else if !c.utf8(f[pos + 4..pos + 4 + nlen]) then Err(NotUtf8)
      else if pos + 12 + nlen > |f| then Err(ShortRead)
      else
        var lb := f[pos + 4 + nlen..pos + 12 + nlen];
        FieldBounds(lb);
        Ok(EntryHeader(f[pos + 4..pos + 4 + nlen], FromLittleEndian(lb), pos + 12 + nlen))
  }

  /** One turn of the extraction loop: the entry the manifest promises at `pos`. */
  function ReadEntry<M>(c: Codec<M>, f: bytes, pos: nat, meta: EntryMeta): (r: Result<(Entry, nat)>)
    ensures r.Ok? ==> r.value.1 <= |f|
  {
    match ReadEntryHeader(c, f, pos)
    case Err(e) => Err(e)
    case Ok(h) =>
      if h.name != meta.name || h.len != meta.len then Err(ManifestDisagrees)
      else if !c.safe(h.name) then Err(UnsafeName)
      else if h.next + h.len > |f| then Err(TruncatedEntry)
      else
        var data := f[h.next..h.next + h.len];
        if Checksum(data) != meta.crc then Err(ChecksumMismatch)
        else Ok((Entry(h.name, data), h.next + h.len))
  }

  /** The files `extract_all` creates, in order. */
  function Extract<M>(c: Codec<M>, f: bytes, pos: nat, metas: seq<EntryMeta>): Result<seq<Entry>>
    decreases |metas|
  {
    if metas == [] then Ok([])
    else
      match ReadEntry(c, f, pos, metas[0])
      case Err(e) => Err(e)
      case Ok(got) =>
        match Extract(c, f, got.1, metas[1..])
        case Err(e) => Err(e)
        case Ok(rest) => Ok([got.0] + rest)
  }

  /** Everything a restore reads before it touches the host. */
  function Load<M>(c: Codec<M>, f: bytes): Result<(Manifest<M>, seq<Entry>)> {
    match Open(c, f)
    case Err(e) => Err(e)
    case Ok(h) =>
      match Verify(f, h)
      case Err(e) => Err(e)
      case Ok(_) =>
        match Extract(c, f, h.payloadStart, h.manifest.entries)
        case Err(e) => Err(e)
        case Ok(es) => Ok((h.manifest, es))
  }
}
