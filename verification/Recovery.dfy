/** A checkpoint killed while it was packing: what the half-written snapshot can and cannot do. */
module Recovery {
  import opened Bytes
  import opened Format
  import opened FormatLaws
  import opened Hosts
  import opened Reconciling
  import opened Checkpointing

  /**
   `finish` writes the snapshot in place and the sweep only asks whether the file exists, so a
   checkpoint killed while packing can be labelled checkpointed with part of a file. Loading that
   file gives exactly the checkpointed images or is refused; once more than twelve bytes are
   missing it is always refused.
   */
  lemma InterruptedPackNeverMisleads<M(!new)>(
    c: Codec<M>, m: Manifest<M>, images: seq<Entry>, env: CkEnv, pid: Pid, t: seq<Ck>)
    requires Lawful(c) && ManifestFits(c.encode(m)) && Sized(images) && Named(c, images) && m.entries == MetasOf(images)
    requires CkTrace(env, pid, t)
    requires var s := t[|t| - 1];
             s.pc == CkPack && env.pack(Lifecycle(s.st)) == FileOf(c.encode(m), Payload(images))
    ensures var s := t[|t| - 1];
            && env.dest in s.h.snapshots
            && var f := s.h.snapshots[env.dest];
               && (Load(c, f).Ok? ==> Load(c, f).value == (m, images))
               && (|f| + 12 < |FileOf(c.encode(m), Payload(images))| ==> Load(c, f).Err?)
  {
    hide Load, FileOf, Payload, CkStep, Lawful;
    PackedSoFar(env, pid, t);
    var s := t[|t| - 1];
    var whole := FileOf(c.encode(m), Payload(images));
    var f := s.h.snapshots[env.dest];
    if f == whole {
      RoundTrip(c, m, images);
    } else {
      assert f == whole[..|whole| - (|whole| - |f|)];
      TruncationSafe(c, m, images, |whole| - |f|);
    }
  }

  /** And the label: the sweep after such a crash says checkpointed as soon as the record or `latest` names the file. */
  lemma HalfWrittenCountsAsSnapshot(env: CkEnv, pid: Pid, t: seq<Ck>, cfg: Config)
    requires CkTrace(env, pid, t)
    requires var s := t[|t| - 1];
             && s.pc == CkPack && s.h.state == Whole(MarkedFor(s.st))
             && (s.st.snapshot == Some(env.dest) || env.dest == LATEST)
    ensures var r := Reconcile(t[|t| - 1].h, cfg);
            r.state.Whole? && r.state.record.status == Checkpointed && r.live == {}
  {
    CrashedCheckpointSettles(env, pid, t, cfg);
    CheckpointInvariant(env, pid, t);
  }
}
