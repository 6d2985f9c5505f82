/** Writer and reader end to end, over every schedule of short reads and short writes. */
module SnapshotRun {
  import opened Bytes
  import opened Crc
  import opened Format
  import opened FormatLaws
  import opened Streams
  import opened Writer
  import opened Reader

  predicate DistinctNames(es: seq<Entry>) {
    forall i, j :: 0 <= i < j < |es| ==> es[i].name != es[j].name
  }

  /**
   Add every entry to a fresh writer, finish it, then open, verify and extract the file, all on
   reliable storage. The writer refuses exactly duplicate names and manifests over the (32-bit)
   limit; what it accepts reads back as the same names and bytes in the same order exactly when
   every name is readable and the manifest really fits.
   */
  method WriteThenRead<M(!new)>(c: Codec<M>, info: M, es: seq<Entry>) returns (wrote: bool, r: Result<seq<Entry>>)
    requires Lawful(c) && Sized(es) && Named(c, es)
    ensures wrote <==> DistinctNames(es) && ManifestFits(c.encode(Manifest(info, MetasOf(es))))
    ensures r.Ok? <==> wrote && AllReadable(c, es) && |c.encode(Manifest(info, MetasOf(es)))| <= MAX_MANIFEST
    ensures r.Ok? ==> r.value == es
  {
    hide LittleEndian, FromLittleEndian, Checksum, Payload, Open, Verify, Extract, FileOf, MetaOf;
    var w := new SnapshotWriter(true);
    wrote, r := false, Err(DuplicateEntry);
    var i := 0;
    while i < |es|
      invariant 0 <= i <= |es| && fresh(w) && w.Valid() && !w.spoiled
      invariant w.scratch != null && fresh(w.scratch) && w.scratch.reliable
      invariant w.added == es[..i] && DistinctNames(es[..i])
    {
      var src := new Source(es[i].data, true);
      var added := w.WriteEntry(es[i].name, |es[i].data|, src);
      MetaNames(es[..i]);
      if added.Err? {
        return;
      }
      assert es[..i + 1] == es[..i] + [es[i]];
      assert DistinctNames(es[..i + 1]) by {
        forall a, b | 0 <= a < b < i + 1 ensures es[a].name != es[b].name {
          if b == i {
            assert es[..i][a].name == MetasOf(es[..i])[a].name;
          } else {
            assert es[..i][a] == es[a] && es[..i][b] == es[b];
          }
        }
      }
      i := i + 1;
    }
    assert es[..i] == es;
    var dest := new Sink(true);
    var built := w.Finish(c, dest, table => Manifest(info, table), true);
    if built.Err? {
      r := Err(built.error);
      return;
    }
    wrote := true;
    RoundTrip(c, built.value, es);
    r := LoadFile(c, dest.data);
  }

  lemma {:induction false} MetaNames(es: seq<Entry>)
    requires Sized(es)
    ensures forall i :: 0 <= i < |es| ==> MetasOf(es)[i].name == es[i].name
  {
    if es == [] {
    } else {
      MetaNames(es[1..]);
      forall i | 0 <= i < |es| ensures MetasOf(es)[i].name == es[i].name {
        if i > 0 {
          assert es[i] == es[1..][i - 1] && MetasOf(es)[i] == MetasOf(es[1..])[i - 1];
        }
      }
    }
  }

  /** Open, verify and extract a stored file. */
  method LoadFile<M>(c: Codec<M>, data: bytes) returns (r: Result<seq<Entry>>)
    ensures match Load(c, data)
            case Ok(v) => r == Ok(v.1)
            case Err(e) => r == Err(e)
  {
    hide Extract, Checksum;
    var file := new Source(data, true);
    var header := OpenSnapshot(c, file);
    if header.Err? {
      return Err(header.error);
    }
    assert header == Open(c, data);
    var reader := new SnapshotReader(c, file, header.value);
    var checked := reader.Verify();
    if checked.Err? {
      return Err(checked.error);
    }
    var written;
    r, written := reader.ExtractAll();
  }
}
