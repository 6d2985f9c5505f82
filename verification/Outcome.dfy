/** What the receiver's report is worth: which records and which processes stand behind it. */
module Outcomes {
  import opened Bytes
  import Frames
  import opened Transfer
  import Format
  import FormatLaws
  import opened Hosts
  import opened Reconciling
  import opened Checkpointing
  import opened Restoring
  import opened Migrating

  /** The record of a container restored on the receiver, from the record it was frozen under. */
  function Arrived(p: Params, st: Record, q: Pid): Record {
    WithOrigin(p.rs, Apply(ToRestored(q), Marked(Adopted(Lifecycle(st), p.inbox, p.host))))
  }

  predicate FailedCommit(pc: RsPc) {
    pc.RsErr? && pc.stage.Commit?
  }

  predicate OverThere(rcv: RcvPc) {
    rcv.RcvEnded? || rcv.RcvCrashed?
  }

  predicate Reported(s: Sys, ok: bool) {
    s.rcv == RcvReply(ok) || Outcome(ok) in s.down
  }

  /** The receiver's reports, sent or about to be, and what is alive meanwhile. */
  ghost predicate ReplyInv(p: Params, s: Sys) {
    && (Outcome(true) in s.down || Outcome(false) in s.down ==> OverThere(s.rcv))
    && (s.rcv.RcvListen? || s.rcv.RcvReceive? || s.rcv.RcvOpen? || s.rcv.RcvAdopt? ==> s.b.h.live == {})
    && (s.rcv.RcvRestore? ==> s.b.base.live == {} && LiveInv(s.b))
    && (Reported(s, true) ==> SuccessHolds(p, s.b, s.a.st))
    && (Reported(s, false) ==> FailureHolds(s.b))
  }

  predicate SuccessHolds(p: Params, b: Rs, st: Record) {
    b.pc.RsOk? && b.h.state == Whole(Arrived(p, st, b.pc.pid))
  }

  predicate FailureHolds(b: Rs) {
    b.h.live == {} || (FailedCommit(b.pc) && b.h.live == {b.pc.stage.pid})
  }

  lemma ReplyBegins(p: Params, s: Sys)
    requires MigBegin(p, s)
    ensures ReplyInv(p, s)
  {
  }

  lemma ReplyKept(p: Params, s: Sys, act: Act)
    requires Sound(p, s.a.st) && MigInv(p, s) && ReplyInv(p, s)
    ensures ReplyInv(p, MigNext(p, s, act))
  {
    hide Sound, MigInv, ReplyInv, MigNext;
    RecordFixed(p, s, act);
    match act
    case ActReceive(c) =>
      ReplyKeptReceiving(p, s, c);
      ReceiveIs(p, s, c);
    case ActDriftThere(e) => ReplyKeptDrifting(p, s, e);
    case ActCrashThere => ReplyKeptCrash(p, s);
    case _ =>
      LeavesReceiver(p, s, act);
      ReplyUnmoved(p, s, MigNext(p, s, act));
  }

  lemma ReceiveIs(p: Params, s: Sys, c: Choice)
    ensures MigNext(p, s, ActReceive(c)) == RcvNext(p, s, c)
  {
    hide RcvNext;
  }

  lemma LeavesReceiver(p: Params, s: Sys, act: Act)
    requires !act.ActReceive? && !act.ActDriftThere? && !act.ActCrashThere?
    ensures var s' := MigNext(p, s, act); s'.b == s.b && s'.rcv == s.rcv && s'.down == s.down
  {
    hide CkNext, SupNext, SndNext, RcvNext;
    if act.ActSend? {
      SendMoves(p, s, act.ok, act.n);
    }
  }

  lemma ReplyUnmoved(p: Params, s: Sys, s': Sys)
    requires ReplyInv(p, s) && s'.b == s.b && s'.rcv == s.rcv && s'.down == s.down && s'.a.st == s.a.st
    ensures ReplyInv(p, s')
  {
    hide LiveInv, SuccessHolds, FailureHolds;
  }

  lemma ReplyKeptDrifting(p: Params, s: Sys, e: Event)
    requires ReplyInv(p, s)
    ensures ReplyInv(p, MigNext(p, s, ActDriftThere(e)))
  {
    hide LiveInv, Arrived, CkNext, SupNext, SndNext, RcvNext, Drift;
    var s' := MigNext(p, s, ActDriftThere(e));
    assert s'.b == s.b.(h := Drift(s.b.h, e));
    assert s.b.h.live == {} ==> s'.b.h.live == {};
    if s.rcv.RcvRestore? {
      LiveDriftKept(s.b, e);
    }
    assert FailureHolds(s.b) ==> FailureHolds(s'.b);
  }

  lemma ReplyKeptCrash(p: Params, s: Sys)
    requires ReplyInv(p, s)
    ensures ReplyInv(p, MigNext(p, s, ActCrashThere))
  {
    hide LiveInv, Arrived, SuccessHolds, FailureHolds, CkNext, SupNext, SndNext, RcvNext;
  }

  lemma ReplyKeptReceiving(p: Params, s: Sys, c: Choice)
    requires Sound(p, s.a.st) && MigInv(p, s) && ReplyInv(p, s)
    ensures ReplyInv(p, RcvNext(p, s, c))
  {
    hide Sound, MigInv, ReplyInv, RcvNext;
    match s.rcv
    case RcvListen => ReplyKeptListening(p, s, c);
    case RcvReceive => ReplyKeptTaking(p, s, c);
    case RcvOpen => ReplyKeptOpening(p, s, c);
    case RcvAdopt(_) => ReplyKeptAdopting(p, s, c);
    case RcvRestore =>
      RestoreHolds(p, s);
      ReplyKeptRestoring(p, s, c);
    case _ => ReplyKeptReplying(p, s, c);
  }

  lemma ReplyKeptListening(p: Params, s: Sys, c: Choice)
    requires ReplyInv(p, s) && s.rcv.RcvListen?
    ensures ReplyInv(p, RcvNext(p, s, c))
  {
    hide LiveInv, Arrived, ReadHello, Take, ReceiveFile, OpenReceived, Adopt, RestoreReceived, SuccessHolds,
         FailureHolds;
    var s' := RcvNext(p, s, c);
    assert Outcome(true) in s'.down <==> Outcome(true) in s.down;
    assert Outcome(false) in s'.down <==> Outcome(false) in s.down;
  }

  lemma ReplyKeptTaking(p: Params, s: Sys, c: Choice)
    requires ReplyInv(p, s) && s.rcv.RcvReceive?
    ensures ReplyInv(p, RcvNext(p, s, c))
  {
    hide LiveInv, Arrived, ReadHello, Receive, Take, Answer, OpenReceived, Adopt, RestoreReceived;
    var s' := RcvNext(p, s, c);
    assert Outcome(true) in s'.down <==> Outcome(true) in s.down;
    assert !s'.rcv.RcvEnded? ==> (Outcome(false) in s'.down <==> Outcome(false) in s.down);
  }

  lemma ReplyKeptOpening(p: Params, s: Sys, c: Choice)
    requires ReplyInv(p, s) && s.rcv.RcvOpen?
    ensures ReplyInv(p, RcvNext(p, s, c))
  {
    hide LiveInv, Arrived, FormatLaws.Accepted, Format.Open, Adopted, Answer, ReceiveFile, Adopt, RestoreReceived;
  }

  lemma ReplyKeptAdopting(p: Params, s: Sys, c: Choice)
    requires ReplyInv(p, s) && s.rcv.RcvAdopt?
    ensures ReplyInv(p, RcvNext(p, s, c))
  {
    hide Arrived, LiveInv, Begin, Answer, ReceiveFile, OpenReceived, RestoreReceived;
    if !s.rcv.save.Loading? {
      NobodyAtFirst(s.b.h.(state := Whole(s.rcv.save.r)));
    }
  }

  lemma NobodyAtFirst(h: Host)
    ensures h.live == {} ==> Begin(h).base.live == {} && LiveInv(Begin(h))
  {
  }

  /** What the migration invariant says of the record while the receiver restores. */
  lemma RestoreHolds(p: Params, s: Sys)
    requires MigInv(p, s) && s.rcv.RcvRestore?
    ensures s.b.pc.RsOk? ==> SuccessHolds(p, s.b, s.a.st)
  {
    hide SenderInv, WireInv, Apply, Marked, Lifecycle, Adopted, WithOrigin;
  }

  lemma ReplyKeptRestoring(p: Params, s: Sys, c: Choice)
    requires ReplyInv(p, s) && s.rcv.RcvRestore? && (s.b.pc.RsOk? ==> SuccessHolds(p, s.b, s.a.st))
    ensures ReplyInv(p, RcvNext(p, s, c))
  {
    hide Arrived, LiveInv, RsNext, Answer, ReceiveFile, OpenReceived, Adopt, Commits, Committing;
    if s.b.pc.RsErr? {
      FailedLive(s.b);
    } else if !s.b.pc.RsOk? {
      LiveInvKept(p.rs, s.b, c);
      BaseStaysEmpty(p.rs, s.b, c);
    }
  }

  lemma FailedLive(b: Rs)
    requires LiveInv(b) && b.base.live == {} && b.pc.RsErr?
    ensures FailureHolds(b)
  {
    if b.pc.stage.Commit? && b.h.live != {} {
      assert b.h.live == {b.pc.stage.pid};
    }
  }

  lemma BaseStaysEmpty(env: RsEnv, b: Rs, c: Choice)
    requires LiveInv(b) && b.base.live == {}
    ensures RsNext(env, b, c).base.live == {}
  {
    hide RcNext, SaveStep, RemoveCgroup, ResolveSnapshot;
    if b.pc.RsReconcile? {
      RcKeepsSnapshots(b.h, b.pc.rc, env.cfg, c.ok);
    }
  }

  lemma ReplyKeptReplying(p: Params, s: Sys, c: Choice)
    requires ReplyInv(p, s) && (s.rcv.RcvReply? || OverThere(s.rcv))
    ensures ReplyInv(p, RcvNext(p, s, c))
  {
    hide LiveInv, SuccessHolds, FailureHolds, Answer, ReceiveFile, OpenReceived, Adopt, RestoreReceived;
    if s.rcv.RcvReply? {
      var s' := RcvNext(p, s, c);
      assert Outcome(true) in s'.down ==> Reported(s, true);
      assert Outcome(false) in s'.down ==> Reported(s, false);
    }
  }

  lemma {:induction false} RunReplies(p: Params, s: Sys, acts: seq<Act>)
    requires Sound(p, s.a.st) && MigInv(p, s) && ReplyInv(p, s)
    ensures ReplyInv(p, MigRun(p, s, acts)) && MigRun(p, s, acts).a.st == s.a.st
    decreases |acts|
  {
    hide Sound, MigInv, ReplyInv, MigNext;
    if acts == [] {
    } else {
      MigInvKept(p, s, acts[0]);
      ReplyKept(p, s, acts[0]);
      RunReplies(p, MigNext(p, s, acts[0]), acts[1..]);
    }
  }

  // ----- the sender's record while it is released ------------------------------------------------------

  /** The supervisor has not looked at the record, or found it frozen and left. */
  predicate Quiet(a: Ck) {
    a.look == NotYet || a.look == SawFrozen
  }

  /** The record of a container given away. */
  function Gone(p: Params, st: Record): Record {
    Apply(ToMigrated, Frozen(p.ck, st))
  }

  ghost predicate ReleaseInv(p: Params, s: Sys) {
    && (s.a.look == NotYet <==> !s.a.sup.SupStopping? && s.a.sup != SupExited)
    && (s.a.look == SawFrozen ==> s.a.sup == SupExited)
    && (s.a.st.supervisor.None? ==> s.a.look == NotYet)
    && (s.released ==> EndsRelease(s.snd))
    && (s.shipped && Quiet(s.a) ==> ReleaseAt(s.a.h.state, s.snd, s.released, Gone(p, s.a.st)))
    && (s.shipped && s.a.look == SawOther ==> LateLook(s, Gone(p, s.a.st)))
  }

  /** A supervisor that finds anything but a frozen record has looked after the release, and loads what was released. */
  predicate LateLook(s: Sys, gone: Record) {
    s.released && (s.snd == SndDone || s.snd == SndCrashed) && Overwriting(s.a.h.state, s.a.sup, gone)
  }

  predicate EndsRelease(snd: SndPc) {
    (snd.SndRelease? && snd.save.Writing?) || snd == SndDone || snd == SndFailed || snd == SndCrashed
  }

  predicate ReleaseAt(file: StateFile, snd: SndPc, released: bool, gone: Record) {
    match snd
    case SndRelease(Truncating(r)) => r == gone
    case SndRelease(Writing(r)) => r == gone && file == Torn
    case SndDone => released && file == Whole(gone)
    case SndFailed => released ==> file == Torn
    case SndCrashed => released ==> file == Torn || file == Whole(gone)
    case _ => true
  }

  lemma ReleaseKept(p: Params, s: Sys, act: Act)
    requires Sound(p, s.a.st) && MigInv(p, s) && ReleaseInv(p, s)
    ensures ReleaseInv(p, MigNext(p, s, act))
  {
    hide Sound, MigInv, ReleaseInv, MigNext;
    RecordFixed(p, s, act);
    match act
    case ActCheckpoint(ok, n) =>
      StillFreezing(p, s);
      ReleaseKeptFreezing(p, s, ok, n);
    case ActSupervise(ok, code) =>
      NotReleasedFrozen(p, s);
      OpenOnceShipped(p, s);
      ReleaseKeptSupervising(p, s, ok, code);
    case ActSend(ok, n) =>
      NotReleasedFrozen(p, s);
      ShipsUnlooked(p, s);
      ReleaseKeptSending(p, s, ok, n);
    case ActReceive(c) =>
      ReceiveIs(p, s, c);
      ReceiveMoves(p, s, c);
      ReleaseUnmoved(p, s, MigNext(p, s, act));
    case _ => ReleaseKeptPlain(p, s, act);
  }

  lemma StillFreezing(p: Params, s: Sys)
    requires MigInv(p, s)
    ensures s.snd == SndFreeze ==> !s.shipped
  {
    hide WireInv, ReceiverInv, CkInv;
  }

  lemma NotReleasedFrozen(p: Params, s: Sys)
    requires Sound(p, s.a.st) && MigInv(p, s)
    ensures s.shipped && !s.released && Quiet(s.a) ==> s.a.h.state == Whole(Frozen(p.ck, s.a.st))
  {
    hide Sound, WireInv, ReceiverInv, CkInv, Frozen;
    SoundInbox(p, s.a.st);
    if s.shipped && !s.released {
      FrozenFact(p.ck, p.pid, s.a);
    }
  }

  /** By the time the checkpoint is done, a supervisor that looked cannot have found a record that was not frozen. */
  lemma ShipsUnlooked(p: Params, s: Sys)
    requires Sound(p, s.a.st) && MigInv(p, s)
    ensures s.snd == SndFreeze && s.a.pc == CkOk ==> s.a.look != SawOther
  {
    hide Sound, WireInv, ReceiverInv, Lineage, TornLook, FrozenRecord, QuietRecord;
    SoundInbox(p, s.a.st);
  }

  lemma ReleaseUnmoved(p: Params, s: Sys, s': Sys)
    requires ReleaseInv(p, s) && s'.a == s.a && s'.snd == s.snd && s'.released == s.released && s'.shipped == s.shipped
    ensures ReleaseInv(p, s')
  {
    hide Gone;
  }

  lemma ReleaseKeptPlain(p: Params, s: Sys, act: Act)
    requires ReleaseInv(p, s)
    requires !act.ActCheckpoint? && !act.ActSupervise? && !act.ActSend? && !act.ActReceive?
    ensures ReleaseInv(p, MigNext(p, s, act))
  {
    hide Gone, CkNext, SupNext, SndNext, RcvNext, Drift;
  }

  lemma ReleaseKeptFreezing(p: Params, s: Sys, ok: bool, n: nat)
    requires ReleaseInv(p, s) && (s.snd == SndFreeze ==> !s.shipped)
    requires MigNext(p, s, ActCheckpoint(ok, n)).a.st == s.a.st
    ensures ReleaseInv(p, MigNext(p, s, ActCheckpoint(ok, n)))
  {
    hide Gone, CkNext, SupNext, SndNext, RcvNext;
    if s.snd == SndFreeze {
      CkLeavesSupervisor(p.ck, s.a, ok, n);
    }
  }

  /** Once shipped and until released, the record is the committed one or the supervisor looked blindly. */
  lemma OpenOnceShipped(p: Params, s: Sys)
    requires Sound(p, s.a.st) && MigInv(p, s) && ReleaseInv(p, s)
    ensures s.shipped && s.a.look == NotYet && s.a.h.state.Whole? && !Frozenish(s.a.h.state.record.status) ==>
              s.released && (s.snd == SndDone || s.snd == SndCrashed) && s.a.h.state == Whole(Gone(p, s.a.st))
  {
    hide Sound, MigInv;
    NotReleasedFrozen(p, s);
  }

  predicate Frozenish(s: Status) {
    s == Status.Checkpointing || s == Checkpointed
  }

  lemma ReleaseKeptSupervising(p: Params, s: Sys, ok: bool, code: int)
    requires ReleaseInv(p, s)
    requires s.shipped && s.a.look == NotYet && s.a.h.state.Whole? && !Frozenish(s.a.h.state.record.status) ==>
               s.released && (s.snd == SndDone || s.snd == SndCrashed) && s.a.h.state == Whole(Gone(p, s.a.st))
    ensures ReleaseInv(p, MigNext(p, s, ActSupervise(ok, code)))
  {
    hide Gone, CkNext, SndNext, RcvNext, RemoveCgroup;
  }

  lemma ReleaseKeptSending(p: Params, s: Sys, ok: bool, n: nat)
    requires ReleaseInv(p, s)
    requires s.shipped && !s.released && Quiet(s.a) ==> s.a.h.state == Whole(Frozen(p.ck, s.a.st))
    requires s.snd == SndFreeze && s.a.pc == CkOk ==> s.a.look != SawOther
    ensures ReleaseInv(p, MigNext(p, s, ActSend(ok, n)))
  {
    hide Frozen, CkNext, SupNext, RcvNext, SndNext, ReleaseInv;
    assert MigNext(p, s, ActSend(ok, n)) == SndNext(p, s, ok, n);
    if s.snd.SndRelease? {
      ReleaseKeptReleasing(p, s, ok, n);
    } else {
      SendLeavesNode(p, s, ok, n);
      ReleaseNotBegun(p, s, SndNext(p, s, ok, n));
    }
  }

  lemma ReleaseKeptReleasing(p: Params, s: Sys, ok: bool, n: nat)
    requires ReleaseInv(p, s) && s.snd.SndRelease?
    requires s.shipped && !s.released && Quiet(s.a) ==> s.a.h.state == Whole(Frozen(p.ck, s.a.st))
    ensures ReleaseInv(p, SndNext(p, s, ok, n))
  {
    hide Frozen, Apply, SendHello, SendMore;
  }

  lemma ReleaseNotBegun(p: Params, s: Sys, s': Sys)
    requires ReleaseInv(p, s) && s'.a == s.a && s'.released == s.released
    requires s'.snd.SndRelease? ==> s'.snd.save == Loading && s.snd == SndAwaitResult
    requires EndsRelease(s.snd) || s'.snd == SndDone ==> s' == s
    requires s'.shipped && !s.shipped ==> s.a.look != SawOther
    ensures ReleaseInv(p, s')
  {
    hide Gone;
  }

  /** Outside the release the sender only sends. */
  lemma SendLeavesNode(p: Params, s: Sys, ok: bool, n: nat)
    requires !s.snd.SndRelease?
    ensures var s' := SndNext(p, s, ok, n);
            && s'.a == s.a && s'.released == s.released
            && (s'.snd.SndRelease? ==> s'.snd.save == Loading && s.snd == SndAwaitResult)
            && (EndsRelease(s.snd) || s'.snd == SndDone ==> s' == s)
            && (s'.shipped ==> s.shipped || (s.snd == SndFreeze && s.a.pc == CkOk))
  {
    hide SndNext;
    if s.snd.SndStream? {
      StreamLeavesNode(p, s, ok, n);
    } else if s.snd == SndHello {
      HelloLeavesNode(p, s, ok, n);
    } else if s.snd == SndDone || s.snd == SndFailed || s.snd == SndCrashed {
      SendMoves(p, s, ok, n);
    } else {
      WaitLeavesNode(p, s, ok, n);
    }
  }

  lemma StreamLeavesNode(p: Params, s: Sys, ok: bool, n: nat)
    requires s.snd.SndStream?
    ensures var s' := SndNext(p, s, ok, n);
            && s'.a == s.a && s'.released == s.released && !s'.snd.SndRelease? && s'.snd != SndDone
            && s'.shipped == s.shipped
  {
    hide SendHello, Release, EofFor, OnDisk, Take, Clamp, Frames.Encode;
  }

  lemma HelloLeavesNode(p: Params, s: Sys, ok: bool, n: nat)
    requires s.snd == SndHello
    ensures var s' := SndNext(p, s, ok, n);
            && s'.a == s.a && s'.released == s.released && !s'.snd.SndRelease? && s'.snd != SndDone
            && s'.shipped == s.shipped
  {
    hide SendMore, Release, HelloBytes, HelloFor, OnDisk, Take;
  }

  lemma WaitLeavesNode(p: Params, s: Sys, ok: bool, n: nat)
    requires s.snd == SndFreeze || s.snd == SndHash || s.snd == SndAwaitAck || s.snd == SndAwaitResult
    ensures var s' := SndNext(p, s, ok, n);
            && s'.a == s.a && s'.released == s.released && s'.snd != SndDone
            && (s'.shipped ==> s.shipped || (s.snd == SndFreeze && s.a.pc == CkOk))
            && (s'.snd.SndRelease? ==> s'.snd.save == Loading && s.snd == SndAwaitResult)
  {
    hide SendMore, Release, SendHello;
  }

  lemma {:induction false} RunReleases(p: Params, s: Sys, acts: seq<Act>)
    requires Sound(p, s.a.st) && MigInv(p, s) && ReleaseInv(p, s)
    ensures ReleaseInv(p, MigRun(p, s, acts)) && MigRun(p, s, acts).a.st == s.a.st
    decreases |acts|
  {
    hide Sound, MigInv, ReleaseInv, MigNext;
    if acts == [] {
    } else {
      MigInvKept(p, s, acts[0]);
      ReleaseKept(p, s, acts[0]);
      RunReleases(p, MigNext(p, s, acts[0]), acts[1..]);
    }
  }

  // ----- main results --------------------------------------------------------------------------------

  /**
   At any point of any run: behind a reported success stands the restored record; behind a reported
   failure nobody alive, unless the restore failed to save its record after the engine call, and then
   at most the one tree it had raised.
   */
  lemma ReportsAreTrue(p: Params, s0: Sys, acts: seq<Act>)
    requires Sound(p, s0.a.st) && MigBegin(p, s0)
    ensures var s := MigRun(p, s0, acts);
            && (Outcome(true) in s.down ==> SuccessHolds(p, s.b, s0.a.st))
            && (Outcome(false) in s.down && s.b.h.live != {} ==>
                  FailedCommit(s.b.pc) && s.b.h.live == {s.b.pc.stage.pid} && OverThere(s.rcv))
  {
    hide Sound, MigRun, MigInv, LiveInv, SuccessHolds;
    BeginInv(p, s0);
    ReplyBegins(p, s0);
    RunReplies(p, s0, acts);
  }

  /**
   If the failure reported was any other, the container never comes to life on the receiver, whatever
   still happens: restoring it on the sender is safe.
   */
  lemma ReportedFailureIsSafe(p: Params, s0: Sys, acts: seq<Act>, later: seq<Act>)
    requires Sound(p, s0.a.st) && MigBegin(p, s0)
    requires var s := MigRun(p, s0, acts); Outcome(false) in s.down && !FailedCommit(s.b.pc)
    ensures MigRun(p, s0, acts + later).b.h.live == {}
  {
    hide Sound, MigRun, MigInv, MigBegin;
    ReportsAreTrue(p, s0, acts);
    OverOnceReported(p, s0, acts);
    RunConcat(p, s0, acts, later);
    StaysOver(p, MigRun(p, s0, acts), later);
  }

  lemma OverOnceReported(p: Params, s0: Sys, acts: seq<Act>)
    requires Sound(p, s0.a.st) && MigBegin(p, s0) && Outcome(false) in MigRun(p, s0, acts).down
    ensures OverThere(MigRun(p, s0, acts).rcv)
  {
    hide Sound, MigRun, MigInv, LiveInv, SuccessHolds;
    BeginInv(p, s0);
    ReplyBegins(p, s0);
    RunReplies(p, s0, acts);
  }

  lemma {:induction false} StaysOver(p: Params, s: Sys, acts: seq<Act>)
    requires OverThere(s.rcv)
    ensures OverThere(MigRun(p, s, acts).rcv) && MigRun(p, s, acts).b.h.live <= s.b.h.live
    decreases |acts|
  {
    hide MigNext;
    if acts == [] {
    } else {
      StaysOverOnce(p, s, acts[0]);
      StaysOver(p, MigNext(p, s, acts[0]), acts[1..]);
    }
  }

  lemma StaysOverOnce(p: Params, s: Sys, act: Act)
    requires OverThere(s.rcv)
    ensures var s' := MigNext(p, s, act); OverThere(s'.rcv) && s'.b.h.live <= s.b.h.live
  {
    hide CkNext, SupNext, SndNext, Answer, ReceiveFile, OpenReceived, Adopt, RestoreReceived;
    if !act.ActReceive? && !act.ActDriftThere? && !act.ActCrashThere? {
      LeavesReceiver(p, s, act);
    }
  }

  /** The record on the receiver, field by field. */
  function ThereAs(p: Params, st: Record, q: Pid): Record {
    st.(status := Running, pid := Some(q), supervisor := None, exitCode := None, snapshot := Some(p.inbox),
        generation := (st.generation + 1) % 0x1_0000_0000,
        origin := if p.rs.foreign.Some? then p.rs.foreign else Some(p.host))
  }

  /** The record on the sender, field by field. */
  function HereAs(p: Params, st: Record): Record {
    st.(status := Migrated, pid := None, supervisor := None, snapshot := Some(p.ck.dest))
  }

  /**
   The two records of a completed migration: restored on the receiver; on the sender the committed one
   marked migrated, if the container has no supervisor, or it has not looked, or it found the record
   frozen. A supervisor that looks only now finds neither, and can only stop that record.
   */
  lemma CompletedRecords(p: Params, s0: Sys, acts: seq<Act>)
    requires Sound(p, s0.a.st) && MigBegin(p, s0) && MigRun(p, s0, acts).snd == SndDone
    ensures var s := MigRun(p, s0, acts);
            && SuccessHolds(p, s.b, s0.a.st) && s.committed.Some?
            && s.b.h.state == Whole(ThereAs(p, s0.a.st, s.b.pc.pid))
            && (Quiet(s.a) || s0.a.st.supervisor.None? ==> s.a.h.state == Whole(HereAs(p, s0.a.st)))
            && (s.a.look == SawOther && s.a.h.state.Whole? ==>
                  s.a.h.state.record == HereAs(p, s0.a.st) || StoppedFrom(HereAs(p, s0.a.st), s.a.h.state.record))
  {
    hide Sound, MigRun, CkInv, Packed, RestoreInv, WireInv, Gone, Arrived, HereAs, ThereAs;
    BeginInv(p, s0);
    RunKeeps(p, s0, acts);
    ReportsAreTrue(p, s0, acts);
    RunReleases(p, s0, acts);
    ArrivedSpelt(p, s0.a.st, MigRun(p, s0, acts).b.pc);
    GoneSpelt(p, s0.a.st);
  }

  lemma ArrivedSpelt(p: Params, st: Record, pc: RsPc)
    requires pc.RsOk?
    ensures Arrived(p, st, pc.pid) == ThereAs(p, st, pc.pid)
  {
  }

  lemma GoneSpelt(p: Params, st: Record)
    ensures Gone(p, st) == HereAs(p, st)
  {
  }

  // ----- what the sender waits for ----------------------------------------------------------------------

  /** Nothing of the file is sent before the receiver has accepted, and nothing is released before it has succeeded. */
  predicate Answered(s: Sys) {
    && (s.snd.SndStream? || s.snd == SndAwaitResult || s.chunks != [] || s.eofSent ==>
          |s.down| >= 1 && s.down[0] == Ack(true))
    && (s.snd.SndRelease? || s.snd == SndDone || s.released ==>
          |s.down| >= 2 && s.down[0] == Ack(true) && s.down[1] == Outcome(true))
  }

  lemma AnsweredKept(p: Params, s: Sys, act: Act)
    requires Answered(s)
    ensures Answered(MigNext(p, s, act))
  {
    hide CkNext, SupNext, SndNext, RcvNext, Drift;
    match act
    case ActSend(ok, n) => AnsweredSending(p, s, ok, n);
    case ActReceive(c) => ReceiveMoves(p, s, c);
    case _ =>
  }

  lemma AnsweredSending(p: Params, s: Sys, ok: bool, n: nat)
    requires Answered(s)
    ensures Answered(SndNext(p, s, ok, n))
  {
    hide SndNext;
    match s.snd
    case SndStream(_) => AnsweredStreaming(p, s, ok, n);
    case SndHello => AnsweredGreeting(p, s, ok, n);
    case SndRelease(_) => AnsweredReleasing(p, s, ok, n);
    case _ => AnsweredWaiting(p, s, ok, n);
  }

  lemma AnsweredStreaming(p: Params, s: Sys, ok: bool, n: nat)
    requires Answered(s) && s.snd.SndStream?
    ensures Answered(SndNext(p, s, ok, n))
  {
    hide SendHello, Release, EofFor, OnDisk, Take, Clamp, Frames.Encode;
  }

  lemma AnsweredGreeting(p: Params, s: Sys, ok: bool, n: nat)
    requires Answered(s) && s.snd == SndHello
    ensures Answered(SndNext(p, s, ok, n))
  {
    hide SendMore, Release, HelloBytes, HelloFor, OnDisk, Take;
  }

  lemma AnsweredReleasing(p: Params, s: Sys, ok: bool, n: nat)
    requires Answered(s) && s.snd.SndRelease?
    ensures Answered(SndNext(p, s, ok, n))
  {
    hide SendMore, SendHello, SaveStep;
  }

  lemma AnsweredWaiting(p: Params, s: Sys, ok: bool, n: nat)
    requires Answered(s) && !s.snd.SndStream? && s.snd != SndHello && !s.snd.SndRelease?
    requires s.snd == SndAwaitResult ==> |s.down| >= 1
    ensures Answered(SndNext(p, s, ok, n))
  {
    hide SendMore, SendHello, Release;
  }

  lemma {:induction false} RunAnswered(p: Params, s: Sys, acts: seq<Act>)
    requires Answered(s)
    ensures Answered(MigRun(p, s, acts))
    decreases |acts|
  {
    hide MigNext, Answered;
    if acts == [] {
    } else {
      AnsweredKept(p, s, acts[0]);
      RunAnswered(p, MigNext(p, s, acts[0]), acts[1..]);
    }
  }

  /** Over every run: no byte of the file before an acceptance, no release before a success. */
  lemma SendsOnlyIfAccepted(p: Params, s0: Sys, acts: seq<Act>)
    requires MigBegin(p, s0)
    ensures Answered(MigRun(p, s0, acts))
  {
    hide MigRun;
    RunAnswered(p, s0, acts);
  }
}
