/** Live migration between two nodes, over a connection that may deliver any prefix and then die. */
module Migrating {
  import opened Bytes
  import opened Crc
  import opened Format
  import opened FormatLaws
  import opened Frames
  import opened Transfer
  import opened Hosts
  import opened Reconciling
  import opened Checkpointing
  import opened Restoring

  /** What the manifest says about the container beyond its entry table. */
  datatype Info = Info(lifecycle: Record, host: string)

  datatype Params = Params(
    ck: CkEnv,
    pid: Pid,
    codec: Codec<Info>,
    host: string,
    images: seq<Entry>,
    msgs: Messages,
    id: bytes,
    arch: bytes,
    token: bytes,
    inbox: Path,
    rs: RsEnv)

  function ManifestFor(p: Params, lifecycle: Record): Manifest<Info>
    requires Sized(p.images)
  {
    Manifest(Info(lifecycle, p.host), MetasOf(p.images))
  }

  /** What a restore makes of a file is what the snapshot reader makes of it. */
  ghost predicate ReadsWith(env: RsEnv, c: Codec<Info>) {
    && (forall f :: env.verifies(f) <==> Accepted(c, f))
    && (forall f :: env.unpacks(f) <==> Load(c, f).Ok?)
  }

  /**
   Default options; the container, running under record `st`, packs into a file the reader's limits
   allow; the receiver restores what it received, and reads it with the snapshot reader.
   */
  ghost predicate Sound(p: Params, st: Record) {
    && ReadsWith(p.rs, p.codec)
    && Format.Lawful(p.codec) && Transfer.Lawful(p.msgs)
    && Sized(p.images) && Named(p.codec, p.images) && AllReadable(p.codec, p.images)
    && !p.ck.leaveRunning && p.rs.from == Some(p.inbox)
    && var lc := Lifecycle(st);
       && |p.codec.encode(ManifestFor(p, lc))| <= MAX_MANIFEST
       && p.ck.pack(lc) == FileOf(p.codec.encode(ManifestFor(p, lc)), Payload(p.images))
       && |p.ck.pack(lc)| < U64_LIMIT
       && |p.msgs.encodeHello(HelloFor(p, p.ck.pack(lc)))| < U32_LIMIT
  }

  // ----- the two nodes and the wire -----------------------------------------------------------

  datatype SndPc =
    | SndFreeze
    | SndHash
    | SndHello
    | SndAwaitAck
    | SndStream(sent: nat)
    | SndAwaitResult
    | SndRelease(save: Save)
    | SndDone
    | SndFailed
    | SndCrashed

  datatype RcvPc =
    | RcvListen
    | RcvReceive
    | RcvOpen
    | RcvAdopt(save: Save)
    | RcvRestore
    | RcvReply(ok: bool)
    | RcvEnded
    | RcvCrashed

  datatype Reply = Ack(accept: bool) | Outcome(ok: bool)

  /**
   The sender's node with its checkpoint and supervisor, the receiver's node with its restore, the
   bytes written towards the receiver and how many arrived, the replies likewise. The rest is history:
   `shipped` once the checkpoint is done, `chunks` the file as cut so far, `eofSent`, `released` once
   the sender has begun to rewrite its record, and what the receiver's restore committed.
   */
  datatype Sys = Sys(
    a: Ck, snd: SndPc,
    b: Rs, rcv: RcvPc,
    up: bytes, seen: nat, down: seq<Reply>, downSeen: nat, lost: bool,
    shipped: bool, chunks: seq<bytes>, eofSent: bool, released: bool, committed: Option<(bytes, u32)>)

  function FileShipped(p: Params, s: Sys): bytes {
    p.ck.pack(Lifecycle(s.a.st))
  }

  function HelloFor(p: Params, file: bytes): Hello {
    Hello(1, p.id, p.arch, |file| % U64_LIMIT, Checksum(file), p.token)
  }

  function EofFor(file: bytes): Eof {
    Eof(|file| % U64_LIMIT, Checksum(file))
  }

  /** The snapshot as the sender reads it back from its own disk. */
  function OnDisk(p: Params, s: Sys): bytes {
    if p.ck.dest in s.a.h.snapshots then s.a.h.snapshots[p.ck.dest] else []
  }

  function Take(s: bytes, n: nat): bytes {
    if n <= |s| then s[..n] else s
  }

  function Clamp(n: nat, most: nat): nat {
    if 1 <= n <= most then n else most
  }

  datatype Act =
    | ActCheckpoint(ok: bool, n: nat)
    | ActSupervise(ok: bool, code: int)
    | ActDriftHere(e: Event)
    | ActSend(ok: bool, n: nat)
    | ActReceive(c: Choice)
    | ActDriftThere(e: Event)
    | ActDeliver(up: nat, down: nat)
    | ActLose
    | ActCrashHere
    | ActCrashThere

  function MigNext(p: Params, s: Sys, act: Act): Sys {
    match act
    case ActCheckpoint(ok, n) => if s.snd == SndFreeze then s.(a := CkNext(p.ck, s.a, ok, n)) else s
    case ActSupervise(ok, code) => s.(a := SupNext(s.a, p.pid, ok, code))
    case ActDriftHere(e) => s.(a := s.a.(h := Drift(s.a.h, e)))
    case ActSend(ok, n) => SndNext(p, s, ok, n)
    case ActReceive(c) => RcvNext(p, s, c)
    case ActDriftThere(e) => s.(b := s.b.(h := Drift(s.b.h, e)))
    case ActDeliver(u, d) =>
      if !s.lost && s.seen <= u <= |s.up| && s.downSeen <= d <= |s.down| then s.(seen := u, downSeen := d) else s
    case ActLose => s.(lost := true)
    case ActCrashHere => s.(snd := SndCrashed)
    case ActCrashThere => s.(rcv := RcvCrashed)
  }

  /** One step of `migrate` after the checkpoint. A failed write may have put part of a frame on the wire. */
  function SndNext(p: Params, s: Sys, ok: bool, n: nat): Sys {
    match s.snd
    case SndFreeze =>
      if s.a.pc == CkOk then s.(snd := SndHash, shipped := true)
      else if s.a.pc == CkErr then s.(snd := SndFailed) else s
    case SndHash => s.(snd := if ok then SndHello else SndFailed)
    case SndHello => SendHello(p, s, ok, n)
    case SndAwaitAck =>
      if s.downSeen >= 1 && |s.down| >= 1
      then s.(snd := if ok && s.down[0] == Ack(true) then SndStream(0) else SndFailed)
      else if ok then s else s.(snd := SndFailed)
    case SndStream(sent) => SendMore(p, s, sent, ok, n)
    case SndAwaitResult =>
      if s.downSeen >= 2 && |s.down| >= 2
      then s.(snd := if ok && s.down[1] == Outcome(true) then SndRelease(Loading) else SndFailed)
      else if ok then s else s.(snd := SndFailed)
    case SndRelease(save) => Release(s, save, ok)
    case SndDone => s
    case SndFailed => s
    case SndCrashed => s
  }

  function SendHello(p: Params, s: Sys, ok: bool, n: nat): Sys {
    var hello := HelloBytes(p.msgs, HelloFor(p, OnDisk(p, s)));
    if ok then s.(up := hello, snd := SndAwaitAck) else s.(up := Take(hello, n), snd := SndFailed)
  }

  function SendMore(p: Params, s: Sys, sent: nat, ok: bool, n: nat): Sys {
    var file := OnDisk(p, s);
    if sent < |file| then
      var k := Clamp(n, if |file| - sent < Frames.CHUNK then |file| - sent else Frames.CHUNK);
      SendChunk(s, file[sent..sent + k], sent + k, ok, n)
    else SendEof(p, s, file, ok, n)
  }

  function SendEof(p: Params, s: Sys, file: bytes, ok: bool, n: nat): Sys {
    var last := Encode(Frame(EofFrame, p.msgs.encodeEof(EofFor(file))));
    s.(up := s.up + (if ok then last else Take(last, n)), eofSent := true,
       snd := if ok then SndAwaitResult else SndFailed)
  }

  function Release(s: Sys, save: Save, ok: bool): Sys {
    var (h', progress) := SaveStep(s.a.h, save, ToMigrated, ok);
    s.(a := s.a.(h := h'), released := s.released || (save.Truncating? && ok),
       snd := match progress
              case Continue(save') => SndRelease(save')
              case Saved => SndDone
              case SaveFailed => SndFailed)
  }

  function SendChunk(s: Sys, c: bytes, sent: nat, ok: bool, n: nat): Sys {
    var frame := Encode(Frame(ChunkFrame, c));
    s.(up := s.up + (if ok then frame else Take(frame, n)), chunks := s.chunks + [c],
       snd := if ok then SndStream(sent) else SndFailed)
  }

  /** One step of `handle_one`: handshake, receive and rename, adopt, restore, reply. */
  function RcvNext(p: Params, s: Sys, c: Choice): Sys {
    match s.rcv
    case RcvListen => Answer(p, s, c)
    case RcvReceive => ReceiveFile(p, s, c)
    case RcvOpen => OpenReceived(p, s, c)
    case RcvAdopt(save) => Adopt(s, save, c)
    case RcvRestore => RestoreReceived(p, s, c)
    case RcvReply(ok) => s.(down := if c.ok then s.down + [Outcome(ok)] else s.down, rcv := RcvEnded)
    case RcvEnded => s
    case RcvCrashed => s
  }

  function Answer(p: Params, s: Sys, c: Choice): Sys {
    if ReadHello(p.msgs, Take(s.up, s.seen)).None? then s
    else s.(down := s.down + [Ack(c.ok)], rcv := if c.ok then RcvReceive else RcvEnded)
  }

  /** `adopt_snapshot`: the file must open and verify; its manifest supplies the record. */
  function OpenReceived(p: Params, s: Sys, c: Choice): Sys {
    if c.ok && p.inbox in s.b.h.snapshots && Accepted(p.codec, s.b.h.snapshots[p.inbox]) then
      var info := Open(p.codec, s.b.h.snapshots[p.inbox]).value.manifest.info;
      s.(rcv := RcvAdopt(Truncating(Adopted(info.lifecycle, p.inbox, info.host))))
    else s.(rcv := RcvReply(false))
  }

  /** The adopted record is written without reading what was there. */
  function Adopt(s: Sys, save: Save, c: Choice): Sys {
    if save.Loading? then s.(rcv := RcvReply(false))
    else if !c.ok then s.(rcv := RcvReply(false))
    else if save.Truncating? then s.(b := s.b.(h := s.b.h.(state := Torn)), rcv := RcvAdopt(Writing(save.r)))
    else s.(b := Begin(s.b.h.(state := Whole(save.r))), rcv := RcvRestore)
  }

  function RestoreReceived(p: Params, s: Sys, c: Choice): Sys {
    if s.b.pc.RsOk? then s.(rcv := RcvReply(true))
    else if s.b.pc.RsErr? then s.(rcv := RcvReply(false))
    else s.(b := RsNext(p.rs, s.b, c), committed := if Commits(s.b, c) then Committing(s.b) else s.committed)
  }

  /** The whole of what has arrived decides: a finished transfer, or more to wait for, or giving up. */
  function ReceiveFile(p: Params, s: Sys, c: Choice): Sys {
    match ReadHello(p.msgs, Take(s.up, s.seen))
    case None => s
    case Some((hello, rest)) =>
      match Receive(p.msgs, hello, rest, [])
      case Committed(file, _) =>
        if c.ok then s.(b := s.b.(h := s.b.h.(snapshots := s.b.h.snapshots[p.inbox := file])), rcv := RcvOpen)
        else s.(rcv := RcvEnded)
      case Abandoned(_) => if c.ok then s else s.(down := s.down + [Outcome(false)], rcv := RcvEnded)
  }

  /** The step that writes the restored record, and what it commits. */
  predicate Commits(b: Rs, c: Choice) {
    b.pc.RsCommit? && b.pc.save.Writing? && c.ok
  }

  function Committing(b: Rs): Option<(bytes, u32)>
    requires b.pc.RsCommit? && b.pc.save.Writing?
  {
    Some((if b.src in b.h.snapshots then b.h.snapshots[b.src] else [], b.pc.save.r.generation))
  }

  function MigRun(p: Params, s: Sys, acts: seq<Act>): Sys
    decreases |acts|
  {
    if acts == [] then s else MigRun(p, MigNext(p, s, acts[0]), acts[1..])
  }

  /** A running container here, supervised or restored; no process of it there. */
  ghost predicate MigBegin(p: Params, s: Sys) {
    && CkBegin(s.a, p.pid) && s.snd == SndFreeze && s.rcv == RcvListen && s.b.h.live == {}
    && s.up == [] && s.seen == 0 && s.down == [] && s.downSeen == 0 && s.chunks == []
    && !s.shipped && !s.eofSent && !s.released && s.committed == None
  }

  // ----- the invariant ---------------------------------------------------------------------------

  /** The sender's own node: frozen before anything is shipped, and untouched by the shipping. */
  ghost predicate SenderInv(p: Params, s: Sys) {
    && s.a.h.live <= {p.pid}
    && (s.shipped ==> s.a.pc == CkOk && s.a.h.live == {} && Packed(p.ck, s.a))
    && (!s.released ==> CkInv(p.ck, p.pid, s.a))
    && (s.snd == SndFreeze ==> !s.shipped)
    && (!s.shipped ==> (s.snd == SndFreeze || s.snd == SndFailed || s.snd == SndCrashed) && !s.released)
    && (s.released || s.snd.SndRelease? || s.snd == SndDone ==> Outcome(true) in s.down)
    && (s.snd.SndRelease? && s.snd.save.Writing? ==> s.released)
    && (!s.released ==> NotYetMigrated(s.a))
  }

  predicate Pending(save: Save) {
    !save.Loading? && save.r.status == Migrated
  }

  /** Neither the record nor any rewrite of it under way says migrated. */
  predicate NotYetMigrated(a: Ck) {
    && (a.h.state.Whole? ==> a.h.state.record.status != Migrated)
    && (a.pc.CkMark? || a.pc.CkDumpFailed? || a.pc.CkCommit? ==> !Pending(a.pc.save))
    && (a.pc.CkDumpFailed? ==> a.pc.status != Migrated)
    && (a.sup.SupStopping? ==> !Pending(a.sup.save))
  }

  /** What has been written to the wire. */
  ghost predicate WireInv(p: Params, s: Sys) {
    var file := FileShipped(p, s);
    var hello := HelloBytes(p.msgs, HelloFor(p, file));
    var body := EncodeAll(ChunkFrames(s.chunks));
    && s.seen <= |s.up| && s.downSeen <= |s.down| && SenderChunks(s.chunks)
    && (!s.shipped ==> s.up == [] && !s.eofSent)
    && (s.eofSent ==> Flatten(s.chunks) == file)
    && s.up <= hello + (if s.eofSent then Transfer.Body(p.msgs, s.chunks, EofFor(file)) else body)
    && match s.snd
       case SndFreeze => s.up == [] && s.chunks == []
       case SndHash => s.up == [] && s.chunks == [] && !s.eofSent
       case SndHello => s.up == [] && s.chunks == [] && !s.eofSent
       case SndAwaitAck => s.up == hello && s.chunks == [] && !s.eofSent
       case SndStream(sent) => s.up == hello + body && sent <= |file| && Flatten(s.chunks) == file[..sent] && !s.eofSent
       case SndAwaitResult => s.up == hello + Transfer.Body(p.msgs, s.chunks, EofFor(file)) && s.eofSent
       case _ => true
  }

  predicate PastResolve(pc: RsPc) {
    !pc.RsReconcile? && !pc.RsLoad? && !pc.RsResolve? && !pc.RsErr?
  }

  /** The receiver's node: nothing lives there until the whole file has arrived. */
  ghost predicate ReceiverInv(p: Params, s: Sys) {
    var file := FileShipped(p, s);
    && (s.b.h.live != {} ==> s.eofSent && s.shipped)
    && (s.rcv == RcvListen || s.rcv == RcvReceive ==> s.b.h.live == {} && s.committed == None)
    && (s.committed.Some? ==>
          s.committed.value == (file, (s.a.st.generation + 1) % U32_LIMIT) && s.eofSent && s.shipped)
    && (Outcome(true) in s.down || s.rcv == RcvReply(true) ==> s.committed.Some?)
    && (s.rcv.RcvOpen? || s.rcv.RcvAdopt? || s.rcv.RcvRestore? || s.rcv.RcvReply? ==>
          s.eofSent && s.shipped && p.inbox in s.b.h.snapshots && s.b.h.snapshots[p.inbox] == file)
    && (s.rcv.RcvAdopt? ==>
          (s.rcv.save.Truncating? || s.rcv.save.Writing?) && s.rcv.save.r == AdoptedHere(p, s))
    && (s.rcv.RcvRestore? ==> RestoreInv(p, s.b, AdoptedHere(p, s)) && (PastCommit(s.b.pc) ==> s.committed.Some?))
  }

  predicate PastCommit(pc: RsPc) {
    pc.RsOrigin? || pc.RsSweep? || pc.RsOk?
  }

  /** A sweep that has found nothing to do. */
  predicate NothingToSweep(rc: RcPc) {
    rc == RcLoad || rc == RcDone || rc == RcFailed
  }

  /** The receiver's restore works from the adopted record, whose sweep finds nothing to do, and the inbox file. */
  ghost predicate RestoreInv(p: Params, b: Rs, adopted: Record) {
    && RecordInv(p.rs, b)
    && b.base.state == Whole(adopted)
    && (b.pc.RsReconcile? ==> NothingToSweep(b.pc.rc) && b.h.state == b.base.state)
    && (b.pc.RsLoad? ==> b.h.state == b.base.state)
    && (PastResolve(b.pc) ==> b.src == p.inbox)
  }

  function AdoptedHere(p: Params, s: Sys): Record {
    Adopted(Lifecycle(s.a.st), p.inbox, p.host)
  }

  ghost predicate MigInv(p: Params, s: Sys) {
    SenderInv(p, s) && WireInv(p, s) && ReceiverInv(p, s)
  }

  lemma BeginInv(p: Params, s: Sys)
    requires MigBegin(p, s)
    ensures MigInv(p, s)
  {
    CkBeginHolds(p.ck, p.pid, s.a);
    hide CkInv, Encode, EncodeAll, HelloBytes, RecordInv;
  }

  // ----- what one side's steps leave alone on the other ------------------------------------------------

  lemma ReceiverUnmoved(p: Params, s: Sys, s': Sys)
    requires ReceiverInv(p, s)
    requires s'.b == s.b && s'.rcv == s.rcv && s'.committed == s.committed && s'.down == s.down
    requires (s.eofSent ==> s'.eofSent) && (s.shipped ==> s'.shipped && s'.a.st == s.a.st)
    ensures ReceiverInv(p, s')
  {
    hide RecordInv;
  }

  lemma WireUnmoved(p: Params, s: Sys, s': Sys)
    requires WireInv(p, s)
    requires s'.up == s.up && s'.chunks == s.chunks && s'.eofSent == s.eofSent && s'.shipped == s.shipped
    requires s'.seen == s.seen && s'.downSeen == s.downSeen && s.down <= s'.down
    requires s'.snd == s.snd || s'.snd == SndFailed || s'.snd == SndCrashed || s'.snd.SndRelease? || s'.snd == SndDone
    requires s'.a.st == s.a.st || s.up == []
    requires s.snd.SndStream? && s'.snd == s.snd ==> s'.a.st == s.a.st
    requires s.snd == SndAwaitAck && s'.snd == s.snd ==> s'.a.st == s.a.st
    requires s.eofSent ==> s'.a.st == s.a.st
    ensures WireInv(p, s')
  {
    hide Encode, EncodeAll, HelloBytes, Flatten, ChunkFrames, HelloFor, EofFor;
  }

  lemma SenderUnmoved(p: Params, s: Sys, s': Sys)
    requires SenderInv(p, s)
    requires s'.a == s.a && s'.snd == s.snd && s'.shipped == s.shipped && s'.released == s.released
    requires Outcome(true) in s.down ==> Outcome(true) in s'.down
    ensures SenderInv(p, s')
  {
    hide CkInv, Packed;
  }

  // ----- steps on the sender's node -----------------------------------------------------------------

  lemma CheckpointKeeps(p: Params, s: Sys, ok: bool, n: nat)
    requires MigInv(p, s) && !p.ck.leaveRunning
    ensures MigInv(p, MigNext(p, s, ActCheckpoint(ok, n)))
  {
    hide CkInv, CkNext, ReceiverInv, Packed, NotYetMigrated;
    if s.snd == SndFreeze {
      var s' := MigNext(p, s, ActCheckpoint(ok, n));
      CkNeverMigrates(p.ck, s.a, ok, n);
      CkInvKept(p.ck, p.pid, s.a, ok, n);
      CkInvLive(p.ck, p.pid, s'.a);
      ReceiverUnmoved(p, s, s');
      assert s.up == [];
      WireUnmoved(p, s, s');
      hide WireInv;
    }
  }

  lemma CkNeverMigrates(env: CkEnv, a: Ck, ok: bool, n: nat)
    requires NotYetMigrated(a)
    ensures NotYetMigrated(CkNext(env, a, ok, n))
  {
    hide NotYetMigrated, CkNext;
    if a.pc.CkMark? || a.pc.CkDumpFailed? || a.pc.CkCommit? {
      SavesNeverMigrate(env, a, ok, n);
    } else {
      OthersNeverMigrate(env, a, ok, n);
    }
  }

  lemma SavesNeverMigrate(env: CkEnv, a: Ck, ok: bool, n: nat)
    requires NotYetMigrated(a) && (a.pc.CkMark? || a.pc.CkDumpFailed? || a.pc.CkCommit?)
    ensures NotYetMigrated(CkNext(env, a, ok, n))
  {
    hide RemoveCgroup, Lifecycle;
  }

  lemma OthersNeverMigrate(env: CkEnv, a: Ck, ok: bool, n: nat)
    requires NotYetMigrated(a) && !(a.pc.CkMark? || a.pc.CkDumpFailed? || a.pc.CkCommit?)
    ensures NotYetMigrated(CkNext(env, a, ok, n))
  {
    hide RemoveCgroup, SaveStep, Lifecycle, Apply, CommitUpdate;
  }

  lemma SupNeverMigrates(a: Ck, pid: Pid, ok: bool, code: int)
    requires NotYetMigrated(a)
    ensures NotYetMigrated(SupNext(a, pid, ok, code))
  {
    hide RemoveCgroup;
  }

  lemma CkInvLive(env: CkEnv, pid: Pid, s: Ck)
    requires CkInv(env, pid, s)
    ensures s.h.live <= {pid}
    ensures s.pc == CkOk && !env.leaveRunning ==> s.h.live == {} && Packed(env, s)
  {
  }

  lemma SuperviseKeeps(p: Params, s: Sys, ok: bool, code: int)
    requires MigInv(p, s)
    ensures MigInv(p, MigNext(p, s, ActSupervise(ok, code)))
  {
    hide CkInv, SupNext, ReceiverInv, WireInv, Packed, NotYetMigrated;
    var s' := MigNext(p, s, ActSupervise(ok, code));
    if !s.released {
      SupNeverMigrates(s.a, p.pid, ok, code);
      SupInvKept(p.ck, p.pid, s.a, ok, code);
    }
    SupLeaves(s.a, p.pid, ok, code);
    PackedKept(p.ck, s.a, s'.a);
    ReceiverUnmoved(p, s, s');
    WireUnmoved(p, s, s');
  }

  lemma PackedKept(env: CkEnv, a: Ck, a': Ck)
    requires a'.h.snapshots == a.h.snapshots && a'.st == a.st
    ensures Packed(env, a) <==> Packed(env, a')
  {
  }

  lemma DriftHereKeeps(p: Params, s: Sys, e: Event)
    requires MigInv(p, s)
    ensures MigInv(p, MigNext(p, s, ActDriftHere(e)))
  {
    hide CkInv, ReceiverInv, WireInv, Packed, Drift;
    var s' := MigNext(p, s, ActDriftHere(e));
    if !s.released {
      DriftInvKept(p.ck, p.pid, s.a, e);
    }
    PackedKept(p.ck, s.a, s'.a);
    ReceiverUnmoved(p, s, s');
    WireUnmoved(p, s, s');
  }

  lemma SendKeeps(p: Params, s: Sys, ok: bool, n: nat)
    requires MigInv(p, s) && !p.ck.leaveRunning
    ensures MigInv(p, MigNext(p, s, ActSend(ok, n)))
  {
    hide SenderInv, WireInv, ReceiverInv, SndNext;
    var s' := SndNext(p, s, ok, n);
    SendMoves(p, s, ok, n);
    ReceiverUnmoved(p, s, s');
    match s.snd
    case SndFreeze => SendKeepsStart(p, s, ok, n);
    case SndHash => SendKeepsStart(p, s, ok, n);
    case SndHello => SendKeepsHello(p, s, ok, n);
    case SndAwaitAck => SendKeepsAck(p, s, ok, n);
    case SndStream(sent) => SendKeepsStream(p, s, ok, n);
    case SndAwaitResult => SendKeepsResult(p, s, ok, n);
    case SndRelease(_) => SendKeepsRelease(p, s, ok, n);
    case _ =>
  }

  ghost predicate SenderOnly(s: Sys, s': Sys) {
    && s'.b == s.b && s'.rcv == s.rcv && s'.committed == s.committed && s'.down == s.down
    && (s.eofSent ==> s'.eofSent) && (s.shipped ==> s'.shipped) && s'.a.st == s.a.st
  }

  lemma SendMoves(p: Params, s: Sys, ok: bool, n: nat)
    ensures SenderOnly(s, SndNext(p, s, ok, n))
    ensures s.snd == SndDone || s.snd == SndFailed || s.snd == SndCrashed ==> SndNext(p, s, ok, n) == s
  {
    hide SenderOnly, SndNext;
    if s.snd.SndStream? {
      StreamMoves(p, s, ok, n);
    } else if s.snd.SndRelease? {
      ReleaseMoves(p, s, ok, n);
    } else if s.snd == SndHello {
      HelloMoves(p, s, ok, n);
    } else {
      QuietMoves(p, s, ok, n);
    }
  }

  lemma QuietMoves(p: Params, s: Sys, ok: bool, n: nat)
    requires !s.snd.SndStream? && !s.snd.SndRelease? && s.snd != SndHello
    ensures SenderOnly(s, SndNext(p, s, ok, n))
    ensures s.snd == SndDone || s.snd == SndFailed || s.snd == SndCrashed ==> SndNext(p, s, ok, n) == s
  {
    hide SendMore, Release, SendHello;
  }

  lemma HelloMoves(p: Params, s: Sys, ok: bool, n: nat)
    requires s.snd == SndHello
    ensures SenderOnly(s, SndNext(p, s, ok, n))
  {
    hide SendMore, Release, HelloBytes, HelloFor, OnDisk, Take;
  }

  lemma ReleaseMoves(p: Params, s: Sys, ok: bool, n: nat)
    requires s.snd.SndRelease?
    ensures SenderOnly(s, SndNext(p, s, ok, n))
  {
    hide SendHello, SendMore, SaveStep;
  }

  lemma StreamMoves(p: Params, s: Sys, ok: bool, n: nat)
    requires s.snd.SndStream?
    ensures SenderOnly(s, SndNext(p, s, ok, n))
  {
    hide SendHello, Release, Encode, EofFor, Clamp, Take, OnDisk;
  }

  lemma SendKeepsStart(p: Params, s: Sys, ok: bool, n: nat)
    requires SenderInv(p, s) && WireInv(p, s) && (s.snd == SndFreeze || s.snd == SndHash) && !p.ck.leaveRunning
    ensures SenderInv(p, SndNext(p, s, ok, n)) && WireInv(p, SndNext(p, s, ok, n))
  {
    hide CkInv, Encode, EncodeAll, HelloBytes, Flatten, ChunkFrames, HelloFor, EofFor, Packed;
    if s.snd == SndFreeze {
      CkInvLive(p.ck, p.pid, s.a);
    }
  }

  /** What the sender reads from its disk is what it packed. */
  lemma DiskIsFile(p: Params, s: Sys)
    requires s.shipped && SenderInv(p, s)
    ensures OnDisk(p, s) == FileShipped(p, s)
  {
    hide CkInv;
  }

  lemma TakePrefix(a: bytes, x: bytes, n: nat)
    ensures Take(x, n) <= x && a + Take(x, n) <= a + x
  {
  }

  lemma SendKeepsHello(p: Params, s: Sys, ok: bool, n: nat)
    requires SenderInv(p, s) && WireInv(p, s) && s.snd == SndHello
    ensures SenderInv(p, SndNext(p, s, ok, n)) && WireInv(p, SndNext(p, s, ok, n))
  {
    hide CkInv, Encode, EncodeAll, HelloBytes, Flatten, HelloFor, EofFor, Packed;
    DiskIsFile(p, s);
    var hello := HelloBytes(p.msgs, HelloFor(p, FileShipped(p, s)));
    TakePrefix([], hello, n);
    NoChunks();
    assert hello + [] == hello;
  }

  lemma SendKeepsAck(p: Params, s: Sys, ok: bool, n: nat)
    requires SenderInv(p, s) && WireInv(p, s) && s.snd == SndAwaitAck
    ensures SenderInv(p, SndNext(p, s, ok, n)) && WireInv(p, SndNext(p, s, ok, n))
  {
    hide CkInv, Encode, EncodeAll, HelloBytes, HelloFor, EofFor, Packed;
    NoChunks();
  }

  lemma SendKeepsStream(p: Params, s: Sys, ok: bool, n: nat)
    requires SenderInv(p, s) && WireInv(p, s) && s.snd.SndStream?
    ensures SenderInv(p, SndNext(p, s, ok, n)) && WireInv(p, SndNext(p, s, ok, n))
  {
    hide CkInv, Packed, WireInv, SendHello, Release, SendEof, Encode, NotYetMigrated;
    DiskIsFile(p, s);
    var file, sent := FileShipped(p, s), s.snd.sent;
    if sent < |file| {
      var k := Clamp(n, if |file| - sent < Frames.CHUNK then |file| - sent else Frames.CHUNK);
      WireChunk(p, s, file[sent..sent + k], sent + k, ok, n);
    } else {
      WireEof(p, s, ok, n);
      EofLeaves(p, s, file, ok, n);
    }
  }

  lemma EofLeaves(p: Params, s: Sys, file: bytes, ok: bool, n: nat)
    ensures var s' := SendEof(p, s, file, ok, n);
            && s'.a == s.a && s'.shipped == s.shipped && s'.released == s.released && s'.down == s.down
            && (s'.snd == SndAwaitResult || s'.snd == SndFailed)
  {
    hide Encode, Take, EofFor;
  }

  lemma WireChunk(p: Params, s: Sys, c: bytes, sent: nat, ok: bool, n: nat)
    requires WireInv(p, s) && s.shipped && s.snd.SndStream? && 0 < |c| <= Frames.CHUNK
    requires s.snd.sent < sent <= |FileShipped(p, s)| && c == FileShipped(p, s)[s.snd.sent..sent]
    ensures WireInv(p, SendChunk(s, c, sent, ok, n))
  {
    hide Encode, EncodeAll, HelloBytes, Flatten, ChunkFrames, HelloFor, EofFor;
    var file := FileShipped(p, s);
    var hello := HelloBytes(p.msgs, HelloFor(p, file));
    var body := EncodeAll(ChunkFrames(s.chunks));
    var frame := Encode(Frame(ChunkFrame, c));
    FlattenSnoc(s.chunks, c);
    assert file[..s.snd.sent] + c == file[..sent];
    assert hello + body + frame == hello + (body + frame);
    TakePrefix(hello + body, frame, n);
  }

  lemma WireEof(p: Params, s: Sys, ok: bool, n: nat)
    requires WireInv(p, s) && s.shipped && s.snd.SndStream? && s.snd.sent >= |FileShipped(p, s)|
    ensures WireInv(p, SendEof(p, s, FileShipped(p, s), ok, n))
  {
    hide Encode, EncodeAll, HelloBytes, Flatten, ChunkFrames, HelloFor, EofFor;
    var file := FileShipped(p, s);
    var hello := HelloBytes(p.msgs, HelloFor(p, file));
    var body := EncodeAll(ChunkFrames(s.chunks));
    var last := Encode(Frame(EofFrame, p.msgs.encodeEof(EofFor(file))));
    assert file[..s.snd.sent] == file;
    assert hello + body + last == hello + (body + last);
    TakePrefix(hello + body, last, n);
  }

  lemma SendKeepsResult(p: Params, s: Sys, ok: bool, n: nat)
    requires SenderInv(p, s) && WireInv(p, s) && s.snd == SndAwaitResult
    ensures SenderInv(p, SndNext(p, s, ok, n)) && WireInv(p, SndNext(p, s, ok, n))
  {
    hide CkInv, Packed, WireInv;
    WireUnmoved(p, s, SndNext(p, s, ok, n));
  }

  lemma SendKeepsRelease(p: Params, s: Sys, ok: bool, n: nat)
    requires SenderInv(p, s) && WireInv(p, s) && s.snd.SndRelease?
    ensures SenderInv(p, SndNext(p, s, ok, n)) && WireInv(p, SndNext(p, s, ok, n))
  {
    hide CkInv, Packed, WireInv;
    var s' := SndNext(p, s, ok, n);
    assert s'.a.h == s.a.h.(state := s'.a.h.state);
    PackedKept(p.ck, s.a, s'.a);
    WireUnmoved(p, s, s');
  }

  // ----- steps on the receiver's node ---------------------------------------------------------------

  lemma TakeOf(s: bytes, n: nat)
    requires n <= |s|
    ensures Take(s, n) <= s
  {
  }

  lemma PrefixTrans(a: bytes, b: bytes, c: bytes)
    requires a <= b && b <= c
    ensures a <= c
  {
  }

  /** Whatever has arrived, the receive loop commits only the sender's whole file, after all of it was sent. */
  lemma ReceivedIsFile(p: Params, s: Sys, hello: Hello, rest: bytes)
    requires Sound(p, s.a.st) && WireInv(p, s) && ReadHello(p.msgs, Take(s.up, s.seen)) == Some((hello, rest))
    ensures var out := Receive(p.msgs, hello, rest, []);
            out.Committed? ==> s.eofSent && out.file == FileShipped(p, s)
  {
    hide ReadHello, Receive, Encode, EncodeAll, HelloBytes, Flatten, ChunkFrames, Sound;
    var file := FileShipped(p, s);
    var h := HelloFor(p, file);
    var eof := EofFor(file);
    var chunks := EncodeAll(ChunkFrames(s.chunks));
    var body := Transfer.Body(p.msgs, s.chunks, eof);
    var got := Take(s.up, s.seen);
    SoundMessages(p, s.a.st);
    TakeOf(s.up, s.seen);
    var tail := if s.eofSent then body else chunks;
    PrefixTrans(got, s.up, HelloBytes(p.msgs, h) + tail);
    DeliveredHello(p.msgs, h, tail, got);
    assert chunks <= body;
    PrefixTrans(rest, tail, body);
    DeliveredBody(p.msgs, hello, s.chunks, eof, [], rest);
    EncodeNonEmpty(Frame(EofFrame, p.msgs.encodeEof(eof)));
    assert [] + Flatten(s.chunks) == Flatten(s.chunks);
  }

  lemma EncodeNonEmpty(f: Frame)
    ensures |Encode(f)| > 0
  {
  }

  lemma SoundMessages(p: Params, st: Record)
    requires Sound(p, st)
    ensures Transfer.Lawful(p.msgs) && |p.msgs.encodeHello(HelloFor(p, p.ck.pack(Lifecycle(st))))| < U32_LIMIT
  {
    hide ReadsWith, Format.Lawful;
  }

  /** The manifest the receiver reads is the one the sender packed. */
  lemma OpenedInfo(p: Params, st: Record)
    requires Sound(p, st)
    ensures var lc := Lifecycle(st);
            var f := p.ck.pack(lc);
            && Open(p.codec, f).Ok? && Open(p.codec, f).value.manifest.info == Info(lc, p.host)
            && lc == st.(status := Checkpointed, pid := None)
  {
    hide Open, FileOf, Payload, ReadsWith, Transfer.Lawful;
    var m := ManifestFor(p, Lifecycle(st));
    FinishedOpens(p.codec, m, Payload(p.images));
  }

  /** A receiver step leaves the sender's node and the bytes on the wire alone. */
  ghost predicate ReceiverOnly(s: Sys, s': Sys) {
    && s'.a == s.a && s'.snd == s.snd && s'.shipped == s.shipped && s'.released == s.released
    && s'.up == s.up && s'.chunks == s.chunks && s'.eofSent == s.eofSent
    && s'.seen == s.seen && s'.downSeen == s.downSeen
    && s.down <= s'.down
  }

  lemma ReceiveKeeps(p: Params, s: Sys, c: Choice)
    requires Sound(p, s.a.st) && MigInv(p, s)
    ensures MigInv(p, MigNext(p, s, ActReceive(c)))
  {
    hide Sound, SenderInv, WireInv, ReceiverInv, RcvNext;
    var s' := RcvNext(p, s, c);
    ReceiveMoves(p, s, c);
    SenderUnmoved(p, s, s');
    WireUnmoved(p, s, s');
    match s.rcv
    case RcvListen => KeepsListen(p, s, c);
    case RcvReceive => EofImpliesShipped(p, s); KeepsReceive(p, s, c);
    case RcvOpen => KeepsOpen(p, s, c);
    case RcvAdopt(_) => KeepsAdopt(p, s, c);
    case RcvRestore => SoundInbox(p, s.a.st); KeepsRestore(p, s, c);
    case _ => KeepsReply(p, s, c);
  }

  lemma EofImpliesShipped(p: Params, s: Sys)
    requires WireInv(p, s)
    ensures s.eofSent ==> s.shipped
  {
    hide HelloBytes, EncodeAll, Encode, Flatten;
  }

  lemma SoundInbox(p: Params, st: Record)
    requires Sound(p, st)
    ensures p.rs.from == Some(p.inbox) && !p.ck.leaveRunning
  {
    hide ReadsWith, Format.Lawful;
  }

  lemma ReceiveMoves(p: Params, s: Sys, c: Choice)
    ensures ReceiverOnly(s, RcvNext(p, s, c))
  {
    hide ReceiverOnly, RcvNext;
    match s.rcv
    case RcvReceive => ReceiveFileMoves(p, s, c);
    case RcvRestore => RestoreStepMoves(p, s, c);
    case RcvAdopt(_) => AdoptMoves(p, s, c);
    case _ => OtherMoves(p, s, c);
  }

  lemma ReceiveFileMoves(p: Params, s: Sys, c: Choice)
    requires s.rcv == RcvReceive
    ensures ReceiverOnly(s, RcvNext(p, s, c))
  {
    hide ReadHello, Receive, Take, Answer, OpenReceived, Adopt, RestoreReceived;
  }

  lemma RestoreStepMoves(p: Params, s: Sys, c: Choice)
    requires s.rcv == RcvRestore
    ensures ReceiverOnly(s, RcvNext(p, s, c))
  {
    hide RsNext, Committing, Commits, Answer, ReceiveFile, OpenReceived, Adopt;
  }

  lemma AdoptMoves(p: Params, s: Sys, c: Choice)
    requires s.rcv.RcvAdopt?
    ensures ReceiverOnly(s, RcvNext(p, s, c))
  {
    hide Begin, Answer, ReceiveFile, OpenReceived, RestoreReceived;
  }

  lemma OtherMoves(p: Params, s: Sys, c: Choice)
    requires s.rcv != RcvReceive && s.rcv != RcvRestore && !s.rcv.RcvAdopt?
    ensures ReceiverOnly(s, RcvNext(p, s, c))
  {
    hide ReadHello, Accepted, Open, Take, Adopted, ReceiveFile, Adopt, RestoreReceived;
  }

  lemma KeepsListen(p: Params, s: Sys, c: Choice)
    requires ReceiverInv(p, s) && s.rcv == RcvListen
    ensures ReceiverInv(p, RcvNext(p, s, c))
  {
    hide ReadHello, Take, RecordInv;
    assert Outcome(true) in RcvNext(p, s, c).down <==> Outcome(true) in s.down;
  }

  lemma KeepsReceive(p: Params, s: Sys, c: Choice)
    requires Sound(p, s.a.st) && WireInv(p, s) && ReceiverInv(p, s) && s.rcv == RcvReceive
    requires s.eofSent ==> s.shipped
    ensures ReceiverInv(p, RcvNext(p, s, c))
  {
    hide ReadHello, Receive, Take, RecordInv, Sound, WireInv;
    match ReadHello(p.msgs, Take(s.up, s.seen))
    case None =>
    case Some((hello, rest)) =>
      ReceivedIsFile(p, s, hello, rest);
      assert Outcome(true) in RcvNext(p, s, c).down <==> Outcome(true) in s.down;
  }

  lemma KeepsOpen(p: Params, s: Sys, c: Choice)
    requires Sound(p, s.a.st) && ReceiverInv(p, s) && s.rcv == RcvOpen
    ensures ReceiverInv(p, RcvNext(p, s, c))
  {
    hide Accepted, RestoreInv, Sound, Open, Answer, ReceiveFile, Adopt, RestoreReceived;
    OpenedInfo(p, s.a.st);
  }

  lemma KeepsAdopt(p: Params, s: Sys, c: Choice)
    requires ReceiverInv(p, s) && s.rcv.RcvAdopt?
    ensures ReceiverInv(p, RcvNext(p, s, c))
  {
    hide RestoreInv, Begin, Answer, ReceiveFile, OpenReceived, RestoreReceived;
    RestoreBegins(p, s.b.h.(state := Whole(s.rcv.save.r)), s.rcv.save.r);
  }

  lemma RestoreBegins(p: Params, h: Host, adopted: Record)
    requires h.state == Whole(adopted)
    ensures RestoreInv(p, Begin(h), adopted) && Begin(h).h == h && Begin(h).pc.RsReconcile?
  {
    BeginHolds(p.rs, h);
  }

  lemma KeepsRestore(p: Params, s: Sys, c: Choice)
    requires ReceiverInv(p, s) && s.rcv == RcvRestore && p.rs.from == Some(p.inbox)
    ensures ReceiverInv(p, RcvNext(p, s, c))
  {
    hide RestoreInv, RsNext, Answer, ReceiveFile, OpenReceived, Adopt, Adopted, Lifecycle;
    AdoptedIsFrozen(p, s);
    RestoreStepKeeps(p, s.b, c, AdoptedHere(p, s));
    if Commits(s.b, c) {
      CommitGeneration(p, s.b, AdoptedHere(p, s));
    }
  }

  lemma AdoptedIsFrozen(p: Params, s: Sys)
    ensures AdoptedHere(p, s).status == Checkpointed && AdoptedHere(p, s).generation == s.a.st.generation
  {
  }

  lemma RestoreStepKeeps(p: Params, b: Rs, c: Choice, adopted: Record)
    requires RestoreInv(p, b, adopted) && p.rs.from == Some(p.inbox) && p.inbox in b.h.snapshots
    requires adopted.status == Checkpointed
    ensures var b' := RsNext(p.rs, b, c);
            && RestoreInv(p, b', adopted) && b'.h.snapshots == b.h.snapshots
            && (PastCommit(b'.pc) ==> PastCommit(b.pc) || Commits(b, c))
  {
    hide RecordInv, RsNext;
    RecordInvKept(p.rs, b, c);
    if EarlyPc(b.pc) {
      EarlyMoves(p.rs, b, c, p.inbox);
    } else {
      LaterMoves(p.rs, b, c);
    }
  }

  lemma EarlyMoves(env: RsEnv, b: Rs, c: Choice, inbox: Path)
    requires EarlyPc(b.pc) && env.from == Some(inbox) && inbox in b.h.snapshots
    requires b.base.state.Whole? && b.base.state.record.status == Checkpointed
    requires b.pc.RsReconcile? ==> NothingToSweep(b.pc.rc) && b.h.state == b.base.state
    requires b.pc.RsLoad? ==> b.h.state == b.base.state
    requires PastResolve(b.pc) ==> b.src == inbox
    ensures var b' := RsNext(env, b, c);
            && b'.h.snapshots == b.h.snapshots && b'.base.state == b.base.state && !PastCommit(b'.pc)
            && (b'.pc.RsReconcile? ==> NothingToSweep(b'.pc.rc) && b'.h.state == b'.base.state)
            && (b'.pc.RsLoad? ==> b'.h.state == b'.base.state)
            && (PastResolve(b'.pc) ==> b'.src == inbox)
  {
    hide RemoveCgroup, SaveStep, HasSnapshot, KillRecorded, SweepCgroup, SweepVeth;
  }

  lemma LaterMoves(env: RsEnv, b: Rs, c: Choice)
    requires !EarlyPc(b.pc)
    ensures var b' := RsNext(env, b, c);
            && b'.h.snapshots == b.h.snapshots && b'.base == b.base && b'.src == b.src
            && !b'.pc.RsReconcile? && !b'.pc.RsLoad? && !b'.pc.RsResolve?
            && (PastResolve(b'.pc) ==> PastResolve(b.pc))
            && (PastCommit(b'.pc) ==> PastCommit(b.pc) || Commits(b, c))
  {
    hide RemoveCgroup, SaveStep, RsNext;
    if b.pc.RsUndo? {
      UndoMoves(b, b.pc.step);
      UndoStepIs(env, b, c);
    } else if b.pc.RsCommit? || b.pc.RsOrigin? || b.pc.RsMark? || b.pc.RsUnmark? {
      SavingMoves(env, b, c);
    } else {
      PlainMoves(env, b, c);
    }
  }

  lemma UndoMoves(b: Rs, step: UndoStep)
    ensures var b' := UndoNext(b, step);
            && b'.h.snapshots == b.h.snapshots && b'.base == b.base && b'.src == b.src
            && (b'.pc.RsUndo? || b'.pc.RsUnmark?)
  {
    hide RemoveCgroup;
  }

  lemma SavingMoves(env: RsEnv, b: Rs, c: Choice)
    requires b.pc.RsCommit? || b.pc.RsOrigin? || b.pc.RsMark? || b.pc.RsUnmark?
    ensures var b' := RsNext(env, b, c);
            && b'.h.snapshots == b.h.snapshots && b'.base == b.base && b'.src == b.src
            && !EarlyPc(b'.pc) && (PastCommit(b'.pc) ==> PastCommit(b.pc) || Commits(b, c))
  {
    hide SaveStep;
    if b.pc.RsCommit? {
      CommitStep(b.h, b.pc.save, ToRestored(b.pc.pid), c.ok);
    }
  }

  lemma PlainMoves(env: RsEnv, b: Rs, c: Choice)
    requires !EarlyPc(b.pc) && !b.pc.RsUndo? && !b.pc.RsCommit? && !b.pc.RsOrigin? && !b.pc.RsMark? && !b.pc.RsUnmark?
    ensures var b' := RsNext(env, b, c);
            && b'.h.snapshots == b.h.snapshots && b'.base == b.base && b'.src == b.src
            && !EarlyPc(b'.pc) && (PastCommit(b'.pc) ==> PastCommit(b.pc)) && (b.pc.RsErr? ==> b' == b)
  {
    hide SaveStep, RemoveCgroup;
  }

  lemma CommitStep(h: Host, save: Save, u: Update, ok: bool)
    ensures SaveStep(h, save, u, ok).1 == Saved ==> save.Writing? && ok
  {
  }

  lemma CommitGeneration(p: Params, b: Rs, adopted: Record)
    requires RestoreInv(p, b, adopted) && b.pc.RsCommit? && b.pc.save.Writing?
    ensures b.pc.save.r.generation == (adopted.generation + 1) % U32_LIMIT && b.src == p.inbox
  {
  }

  lemma KeepsReply(p: Params, s: Sys, c: Choice)
    requires ReceiverInv(p, s) && (s.rcv.RcvReply? || s.rcv == RcvEnded || s.rcv == RcvCrashed)
    ensures ReceiverInv(p, RcvNext(p, s, c))
  {
    hide RecordInv;
    if s.rcv.RcvReply? {
      assert Outcome(true) in RcvNext(p, s, c).down ==> Outcome(true) in s.down || s.rcv.ok;
    }
  }

  // ----- the wire, crashes, and whole runs --------------------------------------------------------------

  lemma NetworkKeeps(p: Params, s: Sys, act: Act)
    requires MigInv(p, s) && (act.ActDeliver? || act.ActLose?)
    ensures MigInv(p, MigNext(p, s, act))
  {
    hide SenderInv, ReceiverInv, Encode, EncodeAll, HelloBytes, HelloFor, EofFor, Flatten, ChunkFrames;
    var s' := MigNext(p, s, act);
    SenderUnmoved(p, s, s');
    ReceiverUnmoved(p, s, s');
  }

  lemma CrashKeeps(p: Params, s: Sys, act: Act)
    requires MigInv(p, s) && (act.ActCrashHere? || act.ActCrashThere?)
    ensures MigInv(p, MigNext(p, s, act))
  {
    hide WireInv, CkInv, Packed, RestoreInv, NotYetMigrated, Adopted, CkNext, SupNext, SndNext, RcvNext, PastCommit;
    WireUnmoved(p, s, MigNext(p, s, act));
  }

  lemma DriftThereKeeps(p: Params, s: Sys, e: Event)
    requires MigInv(p, s)
    ensures MigInv(p, MigNext(p, s, ActDriftThere(e)))
  {
    hide WireInv, SenderInv, RecordInv, Drift;
    var s' := MigNext(p, s, ActDriftThere(e));
    SenderUnmoved(p, s, s');
    WireUnmoved(p, s, s');
    if s.rcv == RcvRestore {
      RecordDriftKept(p.rs, s.b, e);
    }
  }

  lemma MigInvKept(p: Params, s: Sys, act: Act)
    requires Sound(p, s.a.st) && MigInv(p, s)
    ensures MigInv(p, MigNext(p, s, act)) && MigNext(p, s, act).a.st == s.a.st
  {
    hide Sound, MigInv, MigNext;
    SoundInbox(p, s.a.st);
    RecordFixed(p, s, act);
    match act
    case ActCheckpoint(ok, n) => CheckpointKeeps(p, s, ok, n);
    case ActSupervise(ok, code) => SuperviseKeeps(p, s, ok, code);
    case ActDriftHere(e) => DriftHereKeeps(p, s, e);
    case ActSend(ok, n) => SendKeeps(p, s, ok, n);
    case ActReceive(c) => ReceiveKeeps(p, s, c);
    case ActDriftThere(e) => DriftThereKeeps(p, s, e);
    case ActDeliver(_, _) => NetworkKeeps(p, s, act);
    case ActLose => NetworkKeeps(p, s, act);
    case ActCrashHere => CrashKeeps(p, s, act);
    case ActCrashThere => CrashKeeps(p, s, act);
  }

  lemma RecordFixed(p: Params, s: Sys, act: Act)
    requires MigInv(p, s)
    ensures MigNext(p, s, act).a.st == s.a.st
  {
    hide CkNext, SupNext, SndNext, RcvNext, CkInv, WireInv, ReceiverInv, Packed, NotYetMigrated;
    match act
    case ActCheckpoint(ok, n) =>
      if s.snd == SndFreeze {
        LoadedRecordFixed(p.ck, p.pid, s.a, ok, n);
      }
    case ActSupervise(ok, code) => SupLeaves(s.a, p.pid, ok, code);
    case ActSend(ok, n) => SendMoves(p, s, ok, n);
    case ActReceive(c) => ReceiveMoves(p, s, c);
    case _ =>
  }

  lemma {:induction false} RunKeeps(p: Params, s: Sys, acts: seq<Act>)
    requires Sound(p, s.a.st) && MigInv(p, s)
    ensures MigInv(p, MigRun(p, s, acts)) && MigRun(p, s, acts).a.st == s.a.st
    decreases |acts|
  {
    hide Sound, MigInv, MigNext;
    if acts == [] {
    } else {
      MigInvKept(p, s, acts[0]);
      RunKeeps(p, MigNext(p, s, acts[0]), acts[1..]);
    }
  }

  // ----- main results --------------------------------------------------------------------------------------

  /** At no point of any run, whatever is lost and whoever crashes, do both nodes hold live processes. */
  lemma NeverLiveTwice(p: Params, s0: Sys, acts: seq<Act>)
    requires Sound(p, s0.a.st) && MigBegin(p, s0)
    ensures var s := MigRun(p, s0, acts); s.a.h.live == {} || s.b.h.live == {}
  {
    hide Sound, MigRun, CkInv, Packed, RestoreInv, WireInv;
    BeginInv(p, s0);
    RunKeeps(p, s0, acts);
  }

  /**
   The sender's record says migrated only after the receiver's restore was committed, from a file
   equal byte for byte to the sender's snapshot, with the generation advanced by one.
   */
  lemma ReleaseIsJustified(p: Params, s0: Sys, acts: seq<Act>)
    requires Sound(p, s0.a.st) && MigBegin(p, s0)
    ensures var s := MigRun(p, s0, acts);
            s.a.h.state.Whole? && s.a.h.state.record.status == Migrated ==>
              && s.committed.Some? && p.ck.dest in s.a.h.snapshots
              && s.committed.value == (s.a.h.snapshots[p.ck.dest], (s.a.st.generation + 1) % U32_LIMIT)
  {
    hide Sound, MigRun, CkInv, RestoreInv, WireInv;
    BeginInv(p, s0);
    RunKeeps(p, s0, acts);
  }

  /** What the receiver commits is a file that loads, as the manifest and images that were frozen. */
  lemma CommittedLoads(p: Params, s0: Sys, acts: seq<Act>)
    requires Sound(p, s0.a.st) && MigBegin(p, s0)
    ensures var s := MigRun(p, s0, acts);
            s.committed.Some? ==>
              Load(p.codec, s.committed.value.0) == Ok((ManifestFor(p, Lifecycle(s0.a.st)), p.images))
  {
    hide Sound, MigRun, CkInv, RestoreInv, WireInv, Load;
    BeginInv(p, s0);
    RunKeeps(p, s0, acts);
    ShippedLoads(p, s0.a.st);
  }

  /** No failed call of the sender is passed over: it gives up there, its own node as it was. */
  lemma SenderFaultsStop(p: Params, s: Sys, n: nat)
    requires s.snd != SndFreeze && s.snd != SndDone && s.snd != SndCrashed
    ensures var s' := SndNext(p, s, false, n); s'.snd == SndFailed && s'.a == s.a && s'.released == s.released
  {
    hide SndNext;
    match s.snd
    case SndStream(_) => StreamFaults(p, s, n);
    case SndHello => HelloFaults(p, s, n);
    case _ => WaitFaults(p, s, n);
  }

  lemma StreamFaults(p: Params, s: Sys, n: nat)
    requires s.snd.SndStream?
    ensures var s' := SndNext(p, s, false, n); s'.snd == SndFailed && s'.a == s.a && s'.released == s.released
  {
    hide SendHello, Release, Encode, EofFor, Clamp, Take, OnDisk;
  }

  lemma HelloFaults(p: Params, s: Sys, n: nat)
    requires s.snd == SndHello
    ensures var s' := SndNext(p, s, false, n); s'.snd == SndFailed && s'.a == s.a && s'.released == s.released
  {
    hide SendMore, Release, HelloBytes, HelloFor, OnDisk, Take;
  }

  lemma WaitFaults(p: Params, s: Sys, n: nat)
    requires s.snd == SndHash || s.snd == SndAwaitAck || s.snd == SndAwaitResult || s.snd.SndRelease?
             || s.snd == SndFailed
    ensures var s' := SndNext(p, s, false, n); s'.snd == SndFailed && s'.a == s.a && s'.released == s.released
  {
    hide SendMore, SendHello, Apply;
  }

  /** A receiver that refuses or fails says so, if it still can, and never that it accepts or succeeded. */
  lemma ReceiverFaultsStop(p: Params, s: Sys, c: Choice)
    requires !c.ok && (s.rcv == RcvListen || s.rcv == RcvOpen || s.rcv.RcvAdopt? || s.rcv.RcvReply?)
    ensures var s' := RcvNext(p, s, c);
            && (s.rcv == RcvListen ==>
                  s' == s || (s'.rcv == RcvEnded && s'.down == s.down + [Ack(false)] && s'.b == s.b))
            && (s.rcv == RcvOpen || s.rcv.RcvAdopt? ==> s'.rcv == RcvReply(false) && s'.down == s.down && s'.b == s.b)
            && (s.rcv.RcvReply? ==> s'.rcv == RcvEnded && s'.down == s.down && s'.b == s.b)
  {
    hide ReadHello, Take, ReceiveFile, RestoreReceived, Open;
  }

  /**
   The receiver adopts nothing that does not open and verify; what it adopts is the manifest's record,
   checkpointed, with no pid, under the path it was received at, from the host that packed it.
   */
  lemma AdoptsOnlyAccepted(p: Params, s: Sys, c: Choice)
    requires s.rcv == RcvOpen && RcvNext(p, s, c).rcv.RcvAdopt?
    ensures p.inbox in s.b.h.snapshots && Accepted(p.codec, s.b.h.snapshots[p.inbox])
    ensures var info := Open(p.codec, s.b.h.snapshots[p.inbox]).value.manifest.info;
            RcvNext(p, s, c).rcv.save == Truncating(info.lifecycle.(
              status := Checkpointed, pid := None, snapshot := Some(p.inbox), origin := Some(info.host)))
  {
    hide Open, Answer, ReceiveFile, Adopt, RestoreReceived;
  }

  /**
   What the sender announces: protocol 1, its own id, architecture and token, and the length and
   checksum of the very file it ships.
   */
  lemma HelloSaysWhat(p: Params, s0: Sys, acts: seq<Act>)
    requires Sound(p, s0.a.st) && MigBegin(p, s0)
    requires |p.msgs.encodeHello(HelloFor(p, FileShipped(p, s0)))| <= MAX_CONTROL_FRAME
    requires var s := MigRun(p, s0, acts); s.snd == SndAwaitAck || s.snd.SndStream? || s.snd == SndAwaitResult
    ensures var s := MigRun(p, s0, acts);
            && p.ck.dest in s.a.h.snapshots && ReadHello(p.msgs, s.up).Some?
            && var file, hello := s.a.h.snapshots[p.ck.dest], ReadHello(p.msgs, s.up).value.0;
               && hello.proto == 1 && hello.id == p.id && hello.arch == p.arch && hello.token == p.token
               && hello.size == |file| && hello.crc == Checksum(file)
  {
    hide Sound, MigRun, CkInv, RestoreInv, Checksum, ReadHello, Encode, EncodeAll, HelloBytes, ChunkFrames, Flatten,
         NotYetMigrated, HelloFor, EofFor;
    BeginInv(p, s0);
    RunKeeps(p, s0, acts);
    var s := MigRun(p, s0, acts);
    var file := FileShipped(p, s);
    var h := HelloFor(p, file);
    SoundMessages(p, s0.a.st);
    var tail := if s.eofSent then Transfer.Body(p.msgs, s.chunks, EofFor(file)) else EncodeAll(ChunkFrames(s.chunks));
    DeliveredHello(p.msgs, h, tail, s.up);
    HelloFields(p, s0.a.st, file);
  }

  lemma HelloFields(p: Params, st: Record, file: bytes)
    requires Sound(p, st) && file == p.ck.pack(Lifecycle(st))
    ensures HelloFor(p, file) == Hello(1, p.id, p.arch, |file|, Checksum(file), p.token)
  {
    hide Checksum, ReadsWith, Format.Lawful, Transfer.Lawful;
  }

  /**
   Never lost: from the end of the checkpoint on, the snapshot on the sender's disk is the file it packed,
   the reader accepts it and gives back the images, and until the sender acts on a reported success the
   record is the one the checkpoint wrote, unless there is a supervisor whose look at it failed; even then, unless
   its read met an I/O error, a whole record names the snapshot.
   */
  lemma NeverLost(p: Params, s0: Sys, acts: seq<Act>)
    requires Sound(p, s0.a.st) && MigBegin(p, s0)
    ensures var s := MigRun(p, s0, acts);
            s.shipped ==>
              && p.ck.dest in s.a.h.snapshots && s.a.h.snapshots[p.ck.dest] == FileShipped(p, s)
              && Load(p.codec, FileShipped(p, s)) == Ok((ManifestFor(p, Lifecycle(s.a.st)), p.images))
              && (!s.released && (!Blind(s.a) || s.a.st.supervisor.None?) ==>
                    && s.a.h.state == Whole(Frozen(p.ck, s.a.st)) && s.a.h.state.record.status == Checkpointed
                    && s.a.h.state.record.snapshot == Some(p.ck.dest))
              && (!s.released && s.a.look != Unreadable && s.a.h.state.Whole? ==>
                    s.a.h.state.record.snapshot == Some(p.ck.dest))
  {
    hide Sound, MigRun, CkInv, RestoreInv, WireInv, Load, Frozen, NotYetMigrated;
    BeginInv(p, s0);
    RunKeeps(p, s0, acts);
    SoundInbox(p, s0.a.st);
    var s := MigRun(p, s0, acts);
    if s.shipped {
      ShippedLoads(p, s.a.st);
      if !s.released {
        FrozenFact(p.ck, p.pid, s.a);
      }
    }
  }

  lemma FrozenFact(env: CkEnv, pid: Pid, a: Ck)
    requires CkInv(env, pid, a) && a.pc == CkOk && !env.leaveRunning
    ensures !Blind(a) || a.st.supervisor.None? ==>
              && a.h.state == Whole(Frozen(env, a.st)) && a.h.state.record.status == Checkpointed
              && a.h.state.record.snapshot == Some(env.dest)
    ensures a.look != Unreadable && a.h.state.Whole? ==> a.h.state.record.snapshot == Some(env.dest)
  {
  }

  lemma ShippedLoads(p: Params, st: Record)
    requires Sound(p, st)
    ensures Load(p.codec, p.ck.pack(Lifecycle(st))) == Ok((ManifestFor(p, Lifecycle(st)), p.images))
  {
    hide Load, FileOf, Payload, ReadsWith, Transfer.Lawful;
    var m := ManifestFor(p, Lifecycle(st));
    RoundTrip(p.codec, m, p.images);
  }

  lemma {:induction false} RunConcat(p: Params, s: Sys, first: seq<Act>, second: seq<Act>)
    ensures MigRun(p, s, first + second) == MigRun(p, MigRun(p, s, first), second)
    decreases |first|
  {
    hide MigNext;
    if first == [] {
      assert first + second == second;
    } else {
      assert (first + second)[1..] == first[1..] + second;
      RunConcat(p, MigNext(p, s, first[0]), first[1..], second);
    }
  }

  /**
   If the sender gives up before it began to send the end-of-file message, the container never comes
   to life on the other node, whatever still happens there: restoring it here is safe.
   */
  lemma GivingUpEarlyIsSafe(p: Params, s0: Sys, acts: seq<Act>, later: seq<Act>)
    requires Sound(p, s0.a.st) && MigBegin(p, s0)
    requires var s := MigRun(p, s0, acts); (s.snd == SndFailed || s.snd == SndCrashed) && !s.eofSent
    ensures MigRun(p, s0, acts + later).b.h.live == {}
  {
    hide Sound, MigRun, CkInv, Packed, RestoreInv, WireInv;
    BeginInv(p, s0);
    RunKeeps(p, s0, acts + later);
    RunConcat(p, s0, acts, later);
    StaysSilent(p, MigRun(p, s0, acts), later);
  }

  lemma {:induction false} StaysSilent(p: Params, s: Sys, acts: seq<Act>)
    requires (s.snd == SndFailed || s.snd == SndCrashed) && !s.eofSent
    ensures !MigRun(p, s, acts).eofSent
    decreases |acts|
  {
    hide MigNext;
    if acts == [] {
    } else {
      SilentStep(p, s, acts[0]);
      StaysSilent(p, MigNext(p, s, acts[0]), acts[1..]);
    }
  }

  lemma SilentStep(p: Params, s: Sys, act: Act)
    requires (s.snd == SndFailed || s.snd == SndCrashed) && !s.eofSent
    ensures var s' := MigNext(p, s, act); (s'.snd == SndFailed || s'.snd == SndCrashed) && !s'.eofSent
  {
    hide CkNext, SupNext, RcvNext, SndNext;
    match act
    case ActSend(ok, n) => SendMoves(p, s, ok, n);
    case ActReceive(c) => ReceiveMoves(p, s, c);
    case _ =>
  }

  // ----- what the sender cannot know ------------------------------------------------------------------------

  function Receives(p: Params, s: Sys, c: Choice, n: nat): Sys
    decreases n, s
  {
    if n == 0 then s else RcvNext(p, Receives(p, s, c, n - 1), c)
  }

  function Again(act: Act, n: nat): (acts: seq<Act>)
    ensures |acts| == n
  {
    if n == 0 then [] else Again(act, n - 1) + [act]
  }

  lemma {:induction false} ReceivesIsRun(p: Params, s: Sys, c: Choice, n: nat)
    ensures MigRun(p, s, Again(ActReceive(c), n)) == Receives(p, s, c, n)
    decreases n
  {
    hide RcvNext, CkNext, SupNext, SndNext;
    if n == 0 {
    } else {
      var init := Again(ActReceive(c), n - 1);
      ReceivesIsRun(p, s, c, n - 1);
      RunConcat(p, s, init, [ActReceive(c)]);
      OneAct(p, MigRun(p, s, init), ActReceive(c));
    }
  }

  lemma OneAct(p: Params, s: Sys, act: Act)
    ensures MigRun(p, s, [act]) == MigNext(p, s, act)
  {
    hide MigNext;
    assert [act][1..] == [];
    assert MigRun(p, MigNext(p, s, act), []) == MigNext(p, s, act);
  }

  lemma {:induction false} ReceivesOn(p: Params, s: Sys, c: Choice, m: nat, n: nat)
    ensures Receives(p, s, c, m + n) == Receives(p, Receives(p, s, c, m), c, n)
    decreases n
  {
    hide RcvNext;
    if n == 0 {
    } else {
      ReceivesOn(p, s, c, m, n - 1);
    }
  }

  /** While the receiver restores, its steps are the steps of a restore. */
  lemma {:induction false} ReceivesRestore(p: Params, s: Sys, c: Choice, n: nat)
    requires s.rcv == RcvRestore && !RsRun(p.rs, s.b, c, n).pc.RsOk? && !RsRun(p.rs, s.b, c, n).pc.RsErr?
    ensures var s' := Receives(p, s, c, n); s' == s.(b := RsRun(p.rs, s.b, c, n), committed := s'.committed)
    decreases n
  {
    hide RsNext, RcvNext;
    if n == 0 {
    } else {
      EndsStay(p.rs, RsRun(p.rs, s.b, c, n - 1), c);
      ReceivesRestore(p, s, c, n - 1);
      RestoreOnce(p, Receives(p, s, c, n - 1), c);
    }
  }

  lemma EndsStay(env: RsEnv, b: Rs, c: Choice)
    ensures b.pc.RsOk? || b.pc.RsErr? ==> RsNext(env, b, c) == b
  {
  }

  lemma RestoreOnce(p: Params, s: Sys, c: Choice)
    requires s.rcv == RcvRestore && !s.b.pc.RsOk? && !s.b.pc.RsErr?
    ensures var s' := RcvNext(p, s, c); s' == s.(b := RsNext(p.rs, s.b, c), committed := s'.committed)
  {
    hide RsNext, Committing, Commits, Answer, ReceiveFile, OpenReceived, Adopt;
  }

  /** With the whole stream delivered, three steps take the file in, open it and adopt its record. */
  lemma TakesFileIn(p: Params, s: Sys, c: Choice)
    requires Sound(p, s.a.st) && MigInv(p, s) && s.snd == SndAwaitResult && s.rcv == RcvReceive
    requires s.seen == |s.up| && c.ok
    requires |p.msgs.encodeHello(HelloFor(p, FileShipped(p, s)))| <= MAX_CONTROL_FRAME
    ensures Receives(p, s, c, 4) ==
              s.(rcv := RcvRestore, b := Begin(s.b.h.(snapshots := s.b.h.snapshots[p.inbox := FileShipped(p, s)],
                                                      state := Whole(AdoptedHere(p, s)))))
  {
    hide Sound, RcvNext, MigInv;
    ReceiveWhole(p, s, c);
    var s1 := RcvNext(p, s, c);
    OpenAndAdopt(p, s, s1, c);
    assert Receives(p, s, c, 1) == RcvNext(p, Receives(p, s, c, 0), c) == s1;
    assert Receives(p, s, c, 2) == RcvNext(p, Receives(p, s, c, 1), c);
    assert Receives(p, s, c, 3) == RcvNext(p, Receives(p, s, c, 2), c);
    assert Receives(p, s, c, 4) == RcvNext(p, Receives(p, s, c, 3), c);
  }

  lemma ReceiveWhole(p: Params, s: Sys, c: Choice)
    requires Sound(p, s.a.st) && MigInv(p, s) && s.snd == SndAwaitResult && s.rcv == RcvReceive
    requires s.seen == |s.up| && c.ok
    requires |p.msgs.encodeHello(HelloFor(p, FileShipped(p, s)))| <= MAX_CONTROL_FRAME
    ensures RcvNext(p, s, c) ==
              s.(b := s.b.(h := s.b.h.(snapshots := s.b.h.snapshots[p.inbox := FileShipped(p, s)])), rcv := RcvOpen)
  {
    hide Sound, SenderInv, ReceiverInv, ReadHello, Receive, Encode, EncodeAll, Flatten, ChunkFrames,
         Answer, OpenReceived, Adopt, RestoreReceived, HelloBytes, Transfer.Body, HelloFor, EofFor;
    var file := FileShipped(p, s);
    var body := Transfer.Body(p.msgs, s.chunks, EofFor(file));
    SoundMessages(p, s.a.st);
    assert Take(s.up, s.seen) == s.up;
    var hello := HelloBytes(p.msgs, HelloFor(p, file));
    assert s.up == hello + body;
    DeliveredHello(p.msgs, HelloFor(p, file), body, s.up);
    var (h, rest) := ReadHello(p.msgs, s.up).value;
    assert rest == (hello + rest)[|hello|..] == body;
    WholeFileConfirmed(p, s, file);
    DeliveredBody(p.msgs, HelloFor(p, file), s.chunks, EofFor(file), [], body);
    assert [] + Flatten(s.chunks) == file;
    assert Receive(p.msgs, h, rest, []) == Committed(file, []);
  }

  lemma WholeFileConfirmed(p: Params, s: Sys, file: bytes)
    requires Sound(p, s.a.st) && file == FileShipped(p, s)
    ensures |file| <= HelloFor(p, file).size && Confirms(HelloFor(p, file), EofFor(file), file)
  {
    hide Checksum, ReadsWith, Format.Lawful, Transfer.Lawful;
  }

  lemma OpenAndAdopt(p: Params, s: Sys, s1: Sys, c: Choice)
    requires Sound(p, s.a.st) && c.ok
    requires s1 == s.(b := s.b.(h := s.b.h.(snapshots := s.b.h.snapshots[p.inbox := FileShipped(p, s)])),
                      rcv := RcvOpen)
    ensures var s4 := RcvNext(p, RcvNext(p, RcvNext(p, s1, c), c), c);
            s4 == s1.(rcv := RcvRestore, b := Begin(s1.b.h.(state := Whole(AdoptedHere(p, s)))))
  {
    hide Sound, Accepted, Open, Begin, Answer, ReceiveFile, RestoreReceived;
    OpenedInfo(p, s.a.st);
    ShippedAccepted(p, s.a.st);
    var s2 := RcvNext(p, s1, c);
    assert s2 == s1.(rcv := RcvAdopt(Truncating(AdoptedHere(p, s))));
  }

  lemma ShippedAccepted(p: Params, st: Record)
    requires Sound(p, st)
    ensures Accepted(p.codec, p.ck.pack(Lifecycle(st)))
  {
    hide Sound, Open, Verify, Extract;
    ShippedLoads(p, st);
  }

  /**
   Once the end-of-file message is out, a failed migration tells the sender nothing: from any state in
   which it waits for the outcome and the receiver for the bytes, the rest can go so that the sender
   ends in failure with its snapshot and record untouched while the container is alive on the other
   node; and the local restore that the failure message recommends then makes it live twice.
   */
  lemma LostOutcomeDuplicates(p: Params, s: Sys, here: RsEnv, q: Pid, r: Pid) returns (acts: seq<Act>, t: seq<Rs>)
    requires Sound(p, s.a.st) && MigInv(p, s) && s.snd == SndAwaitResult && s.rcv == RcvReceive
    requires !s.lost && s.downSeen < 2
    requires |p.msgs.encodeHello(HelloFor(p, FileShipped(p, s)))| <= MAX_CONTROL_FRAME
    requires Clean(s.b.h) && s.a.h.cgroup == None && ReadsWith(here, p.codec)
    requires s.a.h.state.Whole? && !Stale(s.a.h.state.record, s.a.h.live)
    requires ResolveSnapshot(here.from, s.a.h, s.a.h.state.record) == Some(p.ck.dest)
    ensures var s' := MigRun(p, s, acts);
            && s'.snd == SndFailed && s'.a.h == s.a.h && s'.b.h.live == {q}
            && RsTrace(here, s'.a.h, t) && t[|t| - 1].pc == RsOk(r) && t[|t| - 1].h.live == {r}
  {
    hide Sound, MigInv, MigRun, SndNext, RsTrace, Restorable, Clean, HelloFor, FileShipped, RcvNext, CkNext, SupNext,
         ReadsWith, ResolveSnapshot, Stale;
    LocallyRestorable(p, s, here);
    var first := ComesAliveThere(p, s, q);
    var s' := MigRun(p, s, first);
    GivesUp(p, s');
    OneAct(p, s', ActSend(false, 0));
    acts := first + [ActSend(false, 0)];
    RunConcat(p, s, first, [ActSend(false, 0)]);
    t := RestoreSucceeds(here, s.a.h, p.ck.dest, r);
    assert s.a.h.live + {r} == {r};
  }

  lemma LocallyRestorable(p: Params, s: Sys, here: RsEnv)
    requires Sound(p, s.a.st) && MigInv(p, s) && s.snd == SndAwaitResult
    requires s.a.h.cgroup == None && ReadsWith(here, p.codec)
    requires s.a.h.state.Whole? && !Stale(s.a.h.state.record, s.a.h.live)
    requires ResolveSnapshot(here.from, s.a.h, s.a.h.state.record) == Some(p.ck.dest)
    ensures Restorable(here, s.a.h, p.ck.dest) && s.a.h.live == {}
  {
    hide Sound, WireInv, ReceiverInv, CkInv, Accepted, Load, NotYetMigrated;
    ShippedAccepted(p, s.a.st);
    ShippedLoads(p, s.a.st);
  }

  lemma ShippedReads(p: Params, st: Record)
    requires Sound(p, st)
    ensures p.rs.verifies(p.ck.pack(Lifecycle(st))) && p.rs.unpacks(p.ck.pack(Lifecycle(st)))
  {
    ShippedAccepted(p, st);
    ShippedLoads(p, st);
    hide Accepted, Load;
  }

  /** Deliver everything and let the receiver work: the container comes to life there, unknown to the sender. */
  lemma ComesAliveThere(p: Params, s: Sys, q: Pid) returns (acts: seq<Act>)
    requires Sound(p, s.a.st) && MigInv(p, s) && s.snd == SndAwaitResult && s.rcv == RcvReceive
    requires !s.lost && s.downSeen < 2
    requires |p.msgs.encodeHello(HelloFor(p, FileShipped(p, s)))| <= MAX_CONTROL_FRAME
    requires Clean(s.b.h)
    ensures var s' := MigRun(p, s, acts);
            s'.snd == s.snd && s'.a == s.a && s'.downSeen == s.downSeen && s'.b.h.live == {q}
  {
    hide Sound, MigInv, MigNext, MigRun, Receives, RsRun, HelloFor, FileShipped, Clean, AdoptedHere;
    var c := Choice(true, q);
    var deliver := ActDeliver(|s.up|, s.downSeen);
    var s1 := MigNext(p, s, deliver);
    MigInvKept(p, s, deliver);
    DeliversAll(p, s);
    SoundInbox(p, s.a.st);
    TakesFileIn(p, s1, c);
    var s5 := Receives(p, s1, c, 4);
    FileReads(p, s1);
    AdoptedIsRestorable(p, s1, s5.b.h, c);
    ReceivesRestore(p, s5, c, 14);
    ReceivesOn(p, s1, c, 4, 14);
    ReceivesIsRun(p, s1, c, 18);
    OneAct(p, s, deliver);
    acts := [deliver] + Again(ActReceive(c), 18);
    RunConcat(p, s, [deliver], Again(ActReceive(c), 18));
  }

  lemma FileReads(p: Params, s: Sys)
    requires Sound(p, s.a.st)
    ensures p.rs.verifies(FileShipped(p, s)) && p.rs.unpacks(FileShipped(p, s))
  {
    hide Sound;
    ShippedReads(p, s.a.st);
  }

  lemma DeliversAll(p: Params, s: Sys)
    requires MigInv(p, s) && !s.lost
    ensures MigNext(p, s, ActDeliver(|s.up|, s.downSeen)) == s.(seen := |s.up|)
    ensures FileShipped(p, s.(seen := |s.up|)) == FileShipped(p, s)
  {
    hide SenderInv, ReceiverInv, HelloBytes, Encode, EncodeAll;
  }

  lemma GivesUp(p: Params, s: Sys)
    requires s.snd == SndAwaitResult && s.downSeen < 2
    ensures SndNext(p, s, false, 0) == s.(snd := SndFailed)
  {
    hide SendHello, SendMore, Release;
  }

  lemma AdoptedIsRestorable(p: Params, s: Sys, h: Host, c: Choice)
    requires Clean(s.b.h) && c.ok && p.rs.from == Some(p.inbox)
    requires p.rs.verifies(FileShipped(p, s)) && p.rs.unpacks(FileShipped(p, s))
    requires h == s.b.h.(snapshots := s.b.h.snapshots[p.inbox := FileShipped(p, s)], state := Whole(AdoptedHere(p, s)))
    ensures RsRun(p.rs, Begin(h), c, 14).h.live == {c.pid} && RsRun(p.rs, Begin(h), c, 14).pc.RsAlive?
  {
    hide RsNext, RsRun;
    ReachAlive(p.rs, h, p.inbox, c);
  }
}
