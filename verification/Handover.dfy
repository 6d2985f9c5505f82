/** Migrations that do happen: one in which nothing fails, and one whose outcome is lost. */
module Handover {
  import opened Bytes
  import opened Format
  import opened Frames
  import opened Transfer
  import opened Hosts
  import opened Reconciling
  import opened Checkpointing
  import opened Restoring
  import opened Migrating
  import opened Outcomes

  ghost predicate Reaches(p: Params, s: Sys, s': Sys) {
    exists acts :: MigRun(p, s, acts) == s'
  }

  /** One more action. */
  lemma Then(p: Params, s0: Sys, s: Sys, act: Act) returns (s': Sys)
    requires Reaches(p, s0, s)
    ensures s' == MigNext(p, s, act) && Reaches(p, s0, s')
  {
    hide MigNext, MigRun;
    s' := MigNext(p, s, act);
    var acts :| MigRun(p, s0, acts) == s;
    RunConcat(p, s0, acts, [act]);
    OneAct(p, s, act);
    assert MigRun(p, s0, acts + [act]) == s';
  }

  lemma ThenReceives(p: Params, s0: Sys, s: Sys, c: Choice, n: nat) returns (s': Sys)
    requires Reaches(p, s0, s)
    ensures s' == Receives(p, s, c, n) && Reaches(p, s0, s')
  {
    hide MigNext, MigRun, Receives;
    s' := Receives(p, s, c, n);
    var acts :| MigRun(p, s0, acts) == s;
    RunConcat(p, s0, acts, Again(ActReceive(c), n));
    ReceivesIsRun(p, s, c, n);
    assert MigRun(p, s0, acts + Again(ActReceive(c), n)) == s';
  }

  lemma ReachedKeeps(p: Params, s0: Sys, s: Sys)
    requires Sound(p, s0.a.st) && MigInv(p, s0) && Reaches(p, s0, s)
    ensures MigInv(p, s) && s.a.st == s0.a.st
  {
    hide MigRun, MigInv, Sound;
    var acts :| MigRun(p, s0, acts) == s;
    RunKeeps(p, s0, acts);
  }

  // ----- freezing ------------------------------------------------------------------------------

  lemma ThenCheckpoint(p: Params, s0: Sys, s: Sys, n: nat) returns (s': Sys)
    requires Reaches(p, s0, s) && s.snd == SndFreeze
    ensures s' == s.(a := CkNext(p.ck, s.a, true, n)) && Reaches(p, s0, s')
  {
    hide Reaches, CkNext;
    s' := Then(p, s0, s, ActCheckpoint(true, n));
  }

  lemma ThenSupervise(p: Params, s0: Sys, s: Sys) returns (s': Sys)
    requires Reaches(p, s0, s)
    ensures s' == s.(a := SupNext(s.a, p.pid, true, 0)) && Reaches(p, s0, s')
  {
    hide Reaches, SupNext;
    s' := Then(p, s0, s, ActSupervise(true, 0));
  }

  lemma Dumps(p: Params, s0: Sys) returns (s: Sys)
    requires MigBegin(p, s0) && !p.ck.leaveRunning && s0.a.h.live == {p.pid}
    ensures Reaches(p, s0, s) && s == s0.(a := s.a)
    ensures s.a.pc == CkAwait && s.a.sup == SupWaiting && s.a.look == NotYet && s.a.st == s0.a.st
    ensures s.a.h == s0.a.h.(live := {}, staging := true, state := Whole(MarkedFor(s0.a.st)))
  {
    hide Reaches;
    assert Reaches(p, s0, s0) by { Here(p, s0); }
    s := ThenCheckpoint(p, s0, s0, 0);
    s := ThenCheckpoint(p, s0, s, 0);
    s := ThenCheckpoint(p, s0, s, 0);
    s := ThenCheckpoint(p, s0, s, 0);
    s := ThenCheckpoint(p, s0, s, 0);
    s := ThenCheckpoint(p, s0, s, 0);
  }

  lemma Here(p: Params, s: Sys)
    ensures Reaches(p, s, s)
  {
    hide MigNext;
    assert MigRun(p, s, []) == s;
  }

  /** The supervisor tears down, looks at a record that says checkpointing, and leaves it alone. */
  lemma SupervisorLeaves(p: Params, s0: Sys, s: Sys) returns (s': Sys)
    requires Reaches(p, s0, s) && s.a.sup == SupWaiting && s.a.h.live == {} && s.a.st.supervisor.Some?
    requires s.a.h.state.Whole? && s.a.h.state.record.status == Status.Checkpointing
    ensures Reaches(p, s0, s') && s' == s.(a := s'.a)
    ensures s'.a.sup == SupExited && s'.a.look == SawFrozen && s'.a.pc == s.a.pc && s'.a.st == s.a.st
    ensures s'.a.h == s.a.h.(veth := false, cgroup := None)
  {
    hide Reaches;
    s' := ThenSupervise(p, s0, s);
    s' := ThenSupervise(p, s0, s');
    s' := ThenSupervise(p, s0, s');
    s' := ThenSupervise(p, s0, s');
  }

  /** With nobody left in its network namespace, the kernel takes the veth down. */
  lemma VethFollows(p: Params, s0: Sys, s: Sys) returns (s': Sys)
    requires Reaches(p, s0, s) && s.a.h.live == {}
    ensures s' == s.(a := s.a.(h := s.a.h.(veth := false))) && Reaches(p, s0, s')
  {
    hide Reaches;
    s' := Then(p, s0, s, ActDriftHere(VethGoes));
  }

  /** The wait ends: there is nobody to wait for, or the supervisor is gone, or the time is up. */
  lemma WaitEnds(p: Params, s0: Sys, s: Sys) returns (s': Sys)
    requires Reaches(p, s0, s) && s.snd == SndFreeze && s.a.pc == CkAwait
    ensures Reaches(p, s0, s') && s' == s.(a := s.a.(pc := CkCgroup, sawExit := s'.a.sawExit))
  {
    hide Reaches, RemoveCgroup, SaveStep;
    s' := Then(p, s0, s, ActCheckpoint(false, 0));
  }

  lemma Creates(p: Params, s0: Sys, s: Sys) returns (s': Sys)
    requires Reaches(p, s0, s) && s.snd == SndFreeze && s.a.pc == CkAwait && s.a.h.live == {}
    ensures Reaches(p, s0, s') && s' == s.(a := s'.a)
    ensures s'.a.pc == CkPack && s'.a.st == s.a.st && s'.a.sup == s.a.sup && s'.a.look == s.a.look
    ensures s'.a.h == s.a.h.(cgroup := None, snapshots := s.a.h.snapshots[p.ck.dest := []])
  {
    hide Reaches, Lifecycle, SaveStep, Apply, Kill;
    s' := WaitEnds(p, s0, s);
    s' := ThenCheckpoint(p, s0, s', 0);
    s' := ThenCheckpoint(p, s0, s', 0);
  }

  lemma Packs(p: Params, s0: Sys, s: Sys) returns (s': Sys)
    requires Reaches(p, s0, s) && s.snd == SndFreeze && s.a.pc == CkPack
    ensures Reaches(p, s0, s') && s' == s.(a := s'.a)
    ensures s'.a.pc == CkCommit(Loading) && s'.a.st == s.a.st && s'.a.sup == s.a.sup && s'.a.look == s.a.look
    ensures s'.a.h == s.a.h.(staging := false, snapshots := s.a.h.snapshots[p.ck.dest := FileShipped(p, s)])
  {
    hide Reaches, Lifecycle, SaveStep, Apply, Kill, RemoveCgroup;
    s' := ThenCheckpoint(p, s0, s, |FileShipped(p, s)|);
    s' := ThenCheckpoint(p, s0, s', 0);
  }

  lemma Closes(p: Params, s0: Sys, s: Sys) returns (s': Sys)
    requires Reaches(p, s0, s) && s.snd == SndFreeze && s.a.pc == CkCommit(Loading)
    requires !p.ck.leaveRunning && s.a.h.state == Whole(MarkedFor(s.a.st))
    ensures Reaches(p, s0, s') && s' == s.(a := s'.a)
    ensures s'.a.pc == CkOk && s'.a.st == s.a.st && s'.a.sup == s.a.sup && s'.a.look == s.a.look
    ensures s'.a.h == s.a.h.(state := Whole(Frozen(p.ck, s.a.st)))
  {
    hide Reaches, Lifecycle, RemoveCgroup, Apply;
    s' := ThenCheckpoint(p, s0, s, 0);
    s' := ThenCheckpoint(p, s0, s', 0);
    s' := ThenCheckpoint(p, s0, s', 0);
  }

  /** The supervisor is still waiting, having looked at nothing. */
  predicate Asleep(a: Ck) {
    a.sup == SupWaiting && a.look == NotYet
  }

  /**
   A checkpoint and, if the container has one, its supervisor, each step succeeding; `late` if the wait
   for the supervisor times out before it stirs.
   */
  lemma Freezes(p: Params, s0: Sys, late: bool) returns (s: Sys)
    requires MigBegin(p, s0) && !p.ck.leaveRunning && s0.a.h.live == {p.pid}
    ensures Reaches(p, s0, s) && s == s0.(a := s.a)
    ensures s.a.pc == CkOk && s.a.st == s0.a.st
    ensures Clean(s.a.h) && s.a.h.state == Whole(Frozen(p.ck, s0.a.st))
    ensures p.ck.dest in s.a.h.snapshots && s.a.h.snapshots[p.ck.dest] == FileShipped(p, s0)
    ensures late ==> Asleep(s.a)
  {
    hide Reaches, Frozen, Lifecycle;
    s := Dumps(p, s0);
    if s0.a.st.supervisor.Some? && !late {
      s := SupervisorLeaves(p, s0, s);
    }
    s := VethFollows(p, s0, s);
    s := Creates(p, s0, s);
    s := Packs(p, s0, s);
    s := Closes(p, s0, s);
  }

  // ----- shipping ----------------------------------------------------------------------------------

  lemma ThenSend(p: Params, s0: Sys, s: Sys, n: nat) returns (s': Sys)
    requires Reaches(p, s0, s)
    ensures s' == SndNext(p, s, true, n) && Reaches(p, s0, s')
  {
    hide Reaches, SndNext;
    s' := Then(p, s0, s, ActSend(true, n));
  }

  lemma ThenDeliver(p: Params, s0: Sys, s: Sys) returns (s': Sys)
    requires Reaches(p, s0, s) && !s.lost && s.seen <= |s.up| && s.downSeen <= |s.down|
    ensures s' == s.(seen := |s.up|, downSeen := |s.down|) && Reaches(p, s0, s')
  {
    hide Reaches;
    s' := Then(p, s0, s, ActDeliver(|s.up|, |s.down|));
  }

  /** The freshly packed file is announced. */
  lemma Announces(p: Params, s0: Sys, s: Sys) returns (s': Sys)
    requires Reaches(p, s0, s) && s.snd == SndFreeze && s.a.pc == CkOk
    requires p.ck.dest in s.a.h.snapshots && s.a.h.snapshots[p.ck.dest] == FileShipped(p, s)
    ensures Reaches(p, s0, s')
    ensures s' == s.(snd := SndAwaitAck, shipped := true, up := HelloBytes(p.msgs, HelloFor(p, FileShipped(p, s))))
  {
    hide Reaches, HelloBytes, HelloFor, SendMore, Release;
    s' := ThenSend(p, s0, s, 0);
    s' := ThenSend(p, s0, s', 0);
    s' := ThenSend(p, s0, s', 0);
  }

  /** The receiver reads the announcement, accepts, and the sender starts to stream. */
  lemma Handshakes(p: Params, s0: Sys, s: Sys, q: Pid) returns (s': Sys)
    requires Reaches(p, s0, s) && s.snd == SndAwaitAck && s.rcv == RcvListen && !s.lost
    requires s.seen == 0 && s.down == [] && s.downSeen == 0
    requires Transfer.Lawful(p.msgs) && s.up == HelloBytes(p.msgs, HelloFor(p, FileShipped(p, s)))
    requires |p.msgs.encodeHello(HelloFor(p, FileShipped(p, s)))| <= MAX_CONTROL_FRAME
    ensures Reaches(p, s0, s')
    ensures s' == s.(snd := SndStream(0), rcv := RcvReceive, down := [Ack(true)], seen := |s.up|, downSeen := 1)
  {
    hide Reaches, HelloBytes, HelloFor, ReadHello, RcvNext, SndNext;
    s' := ThenDeliver(p, s0, s);
    HelloArrives(p, s');
    s' := ThenAnswer(p, s0, s', q);
    s' := ThenDeliver(p, s0, s');
    assert s'.down[0] == Ack(true);
    Acknowledged(p, s');
    s' := ThenSend(p, s0, s', 0);
  }

  lemma HelloArrives(p: Params, s: Sys)
    requires Transfer.Lawful(p.msgs) && s.up == HelloBytes(p.msgs, HelloFor(p, FileShipped(p, s))) && s.seen == |s.up|
    requires |p.msgs.encodeHello(HelloFor(p, FileShipped(p, s)))| <= MAX_CONTROL_FRAME
    ensures ReadHello(p.msgs, Take(s.up, s.seen)).Some?
  {
    hide HelloBytes, HelloFor, ReadHello;
    assert Take(s.up, s.seen) == s.up == s.up + [];
    DeliveredHello(p.msgs, HelloFor(p, FileShipped(p, s)), [], s.up);
  }

  lemma ThenAnswer(p: Params, s0: Sys, s: Sys, q: Pid) returns (s': Sys)
    requires Reaches(p, s0, s) && s.rcv == RcvListen && ReadHello(p.msgs, Take(s.up, s.seen)).Some?
    ensures s' == s.(down := s.down + [Ack(true)], rcv := RcvReceive) && Reaches(p, s0, s')
  {
    hide Reaches, ReadHello, Take, ReceiveFile, OpenReceived, Adopt, RestoreReceived;
    s' := Then(p, s0, s, ActReceive(Choice(true, q)));
  }

  lemma Acknowledged(p: Params, s: Sys)
    requires s.snd == SndAwaitAck && s.downSeen >= 1 && |s.down| >= 1 && s.down[0] == Ack(true)
    ensures SndNext(p, s, true, 0) == s.(snd := SndStream(0))
  {
    hide SendHello, SendMore, Release;
  }

  /** Chunk after chunk until the file is through. */
  lemma {:induction false} Streams(p: Params, s0: Sys, s: Sys, sent: nat) returns (s': Sys)
    requires Reaches(p, s0, s) && s.snd == SndStream(sent) && sent <= |OnDisk(p, s)|
    ensures Reaches(p, s0, s') && s' == s.(snd := SndStream(|OnDisk(p, s)|), up := s'.up, chunks := s'.chunks)
    ensures |s'.up| >= |s.up|
    decreases |OnDisk(p, s)| - sent
  {
    hide Reaches, SndNext, OnDisk;
    if sent == |OnDisk(p, s)| {
      s' := s;
    } else {
      var next := ThenSend(p, s0, s, 0);
      var k := OneChunk(p, s, sent);
      DiskStays(p, s, next);
      s' := Streams(p, s0, next, sent + k);
    }
  }

  lemma OneChunk(p: Params, s: Sys, sent: nat) returns (k: nat)
    requires s.snd == SndStream(sent) && sent < |OnDisk(p, s)|
    ensures var s' := SndNext(p, s, true, 0);
            && 0 < k && sent + k <= |OnDisk(p, s)| && |s'.up| >= |s.up|
            && s' == s.(snd := SndStream(sent + k), up := s'.up, chunks := s'.chunks)
  {
    hide OnDisk, Encode, SendHello, Release, SendEof;
    var left := |OnDisk(p, s)| - sent;
    k := Clamp(0, if left < Frames.CHUNK then left else Frames.CHUNK);
  }

  lemma DiskStays(p: Params, s: Sys, s': Sys)
    requires s'.a == s.a
    ensures OnDisk(p, s') == OnDisk(p, s)
  {
  }

  lemma ThenEof(p: Params, s0: Sys, s: Sys) returns (s': Sys)
    requires Reaches(p, s0, s) && s.snd == SndStream(|OnDisk(p, s)|)
    ensures Reaches(p, s0, s') && |s'.up| >= |s.up|
    ensures s' == s.(snd := SndAwaitResult, up := s'.up, eofSent := true)
  {
    hide Reaches, OnDisk, Encode, EofFor, SendHello, Release, SendChunk;
    s' := ThenSend(p, s0, s, 0);
  }

  /** From the start to the point where everything has been sent and nothing reported. */
  lemma Ships(p: Params, s0: Sys, q: Pid, late: bool) returns (s: Sys)
    requires Sound(p, s0.a.st) && MigBegin(p, s0) && s0.a.h.live == {p.pid} && !s0.lost
    requires |p.msgs.encodeHello(HelloFor(p, FileShipped(p, s0)))| <= MAX_CONTROL_FRAME
    ensures Reaches(p, s0, s) && s.snd == SndAwaitResult && s.rcv == RcvReceive && !s.lost
    ensures s.b == s0.b && s.a.st == s0.a.st && s.down == [Ack(true)] && s.downSeen == 1
    ensures Clean(s.a.h) && s.a.h.state == Whole(Frozen(p.ck, s0.a.st))
    ensures p.ck.dest in s.a.h.snapshots && s.a.h.snapshots[p.ck.dest] == FileShipped(p, s0)
    ensures late ==> Asleep(s.a)
  {
    hide Reaches, Sound, OnDisk, HelloFor, HelloBytes, Frozen, Clean, Lifecycle, Asleep;
    SoundInbox(p, s0.a.st);
    SoundMessages(p, s0.a.st);
    s := Freezes(p, s0, late);
    s := Announces(p, s0, s);
    s := Handshakes(p, s0, s, q);
    var begun := s;
    s := Streams(p, s0, begun, 0);
    DiskStays(p, begun, s);
    s := ThenEof(p, s0, s);
  }

  // ----- taking over ---------------------------------------------------------------------------------

  /** The node with the file in its inbox and the adopted record. */
  function Landed(p: Params, s: Sys): Host {
    s.b.h.(snapshots := s.b.h.snapshots[p.inbox := FileShipped(p, s)], state := Whole(AdoptedHere(p, s)))
  }

  lemma LandedRestorable(p: Params, s: Sys)
    requires Clean(s.b.h) && Sound(p, s.a.st)
    ensures Restorable(p.rs, Landed(p, s), p.inbox) && Landed(p, s).live == {}
  {
    hide Sound;
    SoundInbox(p, s.a.st);
    FileReads(p, s);
  }

  /** Everything has been sent, and all of it has arrived at a clean node. */
  ghost predicate AllArrived(p: Params, s: Sys) {
    && Sound(p, s.a.st) && MigInv(p, s) && s.snd == SndAwaitResult && s.rcv == RcvReceive && s.seen == |s.up|
    && Clean(s.b.h) && |p.msgs.encodeHello(HelloFor(p, FileShipped(p, s)))| <= MAX_CONTROL_FRAME
  }

  /** The receiver takes the file in, adopts it, and takes the first `n` steps of its restore. */
  lemma RestoresOn(p: Params, s0: Sys, s: Sys, q: Pid, n: nat) returns (s': Sys)
    requires Reaches(p, s0, s) && AllArrived(p, s)
    requires var b := RsRun(p.rs, Begin(Landed(p, s)), Choice(true, q), n); !b.pc.RsOk? && !b.pc.RsErr?
    ensures Reaches(p, s0, s')
    ensures s' == s.(b := RsRun(p.rs, Begin(Landed(p, s)), Choice(true, q), n), rcv := RcvRestore,
                     committed := s'.committed)
  {
    hide Reaches, Sound, MigInv, Receives, RsRun, HelloFor, Clean;
    var c := Choice(true, q);
    TakesFileIn(p, s, c);
    var s4 := ThenReceives(p, s0, s, c, 4);
    ReceivesRestore(p, s4, c, n);
    s' := ThenReceives(p, s0, s4, c, n);
  }

  lemma TakesOver(p: Params, s0: Sys, s: Sys, q: Pid) returns (s': Sys)
    requires Reaches(p, s0, s) && AllArrived(p, s)
    ensures Reaches(p, s0, s')
    ensures s' == s.(b := s'.b, rcv := RcvRestore, committed := s'.committed)
    ensures s'.b.pc == RsSweep(q) && s'.b.h.live == {q} && s'.b.h.state == Whole(Arrived(p, s.a.st, q))
  {
    hide Reaches, Sound, MigInv, RsRun, HelloFor, Clean, Restorable, Apply, Marked, Adopted, Lifecycle, WithOrigin;
    LandedRestorable(p, s);
    RestoreRuns(p.rs, Landed(p, s), p.inbox, Choice(true, q));
    assert {} + {q} == {q};
    s' := RestoresOn(p, s0, s, q, StepsToSweep(p.rs));
  }

  lemma ThenReceive(p: Params, s0: Sys, s: Sys, c: Choice) returns (s': Sys)
    requires Reaches(p, s0, s)
    ensures s' == RcvNext(p, s, c) && Reaches(p, s0, s')
  {
    hide Reaches, RcvNext;
    s' := Then(p, s0, s, ActReceive(c));
  }

  /** The last step of the restore, and the success reported. */
  lemma Reports(p: Params, s0: Sys, s: Sys, q: Pid) returns (s': Sys)
    requires Reaches(p, s0, s) && s.rcv == RcvRestore && s.b.pc == RsSweep(q)
    ensures Reaches(p, s0, s')
    ensures s' == s.(b := s'.b, rcv := RcvEnded, down := s.down + [Outcome(true)], committed := s'.committed)
    ensures s'.b.h == s.b.h.(staging := false)
  {
    hide Reaches, RcvNext;
    var c := Choice(true, q);
    RestoreOnce(p, s, c);
    Sweeps(p.rs, s.b, c);
    s' := ThenReceive(p, s0, s, c);
    ReplyFollows(p, s', c);
    s' := ThenReceive(p, s0, s', c);
    s' := ThenReceive(p, s0, s', c);
  }

  lemma ReplyFollows(p: Params, s: Sys, c: Choice)
    requires s.rcv == RcvRestore && s.b.pc.RsOk? && c.ok
    ensures var s1 := RcvNext(p, s, c);
            && s1 == s.(rcv := RcvReply(true))
            && RcvNext(p, s1, c) == s1.(down := s.down + [Outcome(true)], rcv := RcvEnded)
  {
    hide RsNext, Answer, ReceiveFile, OpenReceived, Adopt;
  }

  /** The sender hears of the success and gives the container up. */
  lemma Releases(p: Params, s0: Sys, s: Sys, r: Record) returns (s': Sys)
    requires Reaches(p, s0, s) && s.snd == SndAwaitResult
    requires s.downSeen >= 2 && |s.down| >= 2 && s.down[1] == Outcome(true)
    requires s.a.h.state == Whole(r)
    ensures Reaches(p, s0, s')
    ensures s' == s.(snd := SndDone, released := true, a := s.a.(h := s.a.h.(state := Whole(Apply(ToMigrated, r)))))
  {
    hide Reaches, Apply, SendHello, SendMore;
    s' := ThenSend(p, s0, s, 0);
    s' := ThenSend(p, s0, s', 0);
    s' := ThenSend(p, s0, s', 0);
    s' := ThenSend(p, s0, s', 0);
  }

  /** The restored record, or its origin, cannot be saved; the failure is reported while the tree lives. */
  lemma FailsToSave(p: Params, s0: Sys, s: Sys, q: Pid) returns (s': Sys)
    requires Reaches(p, s0, s) && s.rcv == RcvRestore
    requires s.b.pc == RsCommit(q, Loading) || (s.b.pc == RsOrigin(q, Loading) && p.rs.foreign.Some?)
    ensures Reaches(p, s0, s')
    ensures s' == s.(b := s'.b, rcv := RcvEnded, down := s.down + [Outcome(false)], committed := s'.committed)
    ensures s'.b == s.b.(pc := RsErr(Commit(q))) && (s.committed.Some? ==> s'.committed == s.committed)
  {
    hide Reaches, RcvNext;
    var fault := Choice(false, q);
    RestoreOnce(p, s, fault);
    SaveFails(p.rs, s.b, q);
    FaultCommitsNothing(p, s, fault);
    s' := ThenReceive(p, s0, s, fault);
    var c := Choice(true, q);
    FailureFollows(p, s', c);
    s' := ThenReceive(p, s0, s', c);
    s' := ThenReceive(p, s0, s', c);
  }

  lemma FaultCommitsNothing(p: Params, s: Sys, c: Choice)
    requires s.rcv == RcvRestore && !c.ok
    ensures RcvNext(p, s, c).committed == s.committed
  {
    hide RsNext, Committing, Answer, ReceiveFile, OpenReceived, Adopt;
  }

  lemma FailureFollows(p: Params, s: Sys, c: Choice)
    requires s.rcv == RcvRestore && s.b.pc.RsErr? && c.ok
    ensures var s1 := RcvNext(p, s, c);
            && s1 == s.(rcv := RcvReply(false))
            && RcvNext(p, s1, c) == s1.(down := s.down + [Outcome(false)], rcv := RcvEnded)
  {
    hide RsNext, Answer, ReceiveFile, OpenReceived, Adopt;
  }

  /** The sender hears of the failure. */
  lemma HearsFailure(p: Params, s0: Sys, s: Sys) returns (s': Sys)
    requires Reaches(p, s0, s) && s.snd == SndAwaitResult && s.down == [Ack(true), Outcome(false)] && s.downSeen == 2
    ensures s' == s.(snd := SndFailed) && Reaches(p, s0, s')
  {
    hide Reaches, SendHello, SendMore, Release;
    s' := ThenSend(p, s0, s, 0);
  }

  // ----- main results ------------------------------------------------------------------------------------

  /** A live container, a clean target, a working connection. */
  ghost predicate Ready(p: Params, s0: Sys) {
    && Sound(p, s0.a.st) && MigBegin(p, s0) && s0.a.h.live == {p.pid} && !s0.lost && Clean(s0.b.h)
    && |p.msgs.encodeHello(HelloFor(p, FileShipped(p, s0)))| <= MAX_CONTROL_FRAME
  }

  /** From every ready start, everything can be sent and delivered. */
  lemma Arrives(p: Params, s0: Sys, q: Pid, late: bool) returns (s: Sys)
    requires Ready(p, s0)
    ensures Reaches(p, s0, s) && AllArrived(p, s) && !s.lost && s.a.st == s0.a.st
    ensures s.down == [Ack(true)] && s.downSeen == 1
    ensures Clean(s.a.h) && s.a.h.state == Whole(Frozen(p.ck, s0.a.st))
    ensures p.ck.dest in s.a.h.snapshots && s.a.h.snapshots[p.ck.dest] == FileShipped(p, s0)
    ensures late ==> Asleep(s.a)
  {
    hide Reaches, Sound, MigInv, MigBegin, MigNext, HelloFor, FileShipped, Frozen, Clean, Asleep;
    s := Ships(p, s0, q, late);
    BeginInv(p, s0);
    ReachedKeeps(p, s0, s);
    DeliversAll(p, s);
    s := Then(p, s0, s, ActDeliver(|s.up|, s.downSeen));
    ReachedKeeps(p, s0, s);
    SameFile(p, s0, s);
  }

  lemma SameFile(p: Params, s: Sys, s': Sys)
    requires s'.a.st == s.a.st
    ensures FileShipped(p, s') == FileShipped(p, s)
  {
  }

  /**
   When nothing fails the container changes hands: from every ready start there is a run that ends with
   no process and a migrated record here, and the container live there under a record that says so,
   names its pid, and counts one restore more.
   */
  lemma HandsOver(p: Params, s0: Sys, q: Pid) returns (s: Sys)
    requires Ready(p, s0)
    ensures Reaches(p, s0, s) && s.snd == SndDone
    ensures s.a.h.live == {} && s.a.h.state == Whole(Gone(p, s0.a.st)) && s.a.h.state.record.status == Migrated
    ensures s.b.h.live == {q} && s.b.h.state.Whole?
    ensures var r := s.b.h.state.record;
            && r.status == Running && r.pid == Some(q) && r.snapshot == Some(p.inbox)
            && r.generation == (s0.a.st.generation + 1) % U32_LIMIT
  {
    hide Reaches, Ready;
    s := Completes(p, s0, q, false);
  }

  lemma Completes(p: Params, s0: Sys, q: Pid, late: bool) returns (s: Sys)
    requires Ready(p, s0)
    ensures Reaches(p, s0, s) && s.snd == SndDone && s.a.st == s0.a.st
    ensures s.a.h.live == {} && s.a.h.state == Whole(Gone(p, s0.a.st))
    ensures s.b.h.live == {q} && s.b.h.state.Whole?
    ensures var r := s.b.h.state.record;
            && r.status == Running && r.pid == Some(q) && r.snapshot == Some(p.inbox)
            && r.generation == (s0.a.st.generation + 1) % U32_LIMIT
    ensures late ==> Asleep(s.a)
  {
    hide Reaches, Ready, AllArrived, Frozen, Arrived, FileShipped;
    s := Arrives(p, s0, q, late);
    ArrivedOnWire(p, s);
    s := TakesOver(p, s0, s, q);
    s := Reports(p, s0, s, q);
    s := ThenDeliver(p, s0, s);
    s := Releases(p, s0, s, Frozen(p.ck, s0.a.st));
    ArrivedIs(p, s0.a.st, q);
  }

  /**
   But the sender's record need not stay migrated: if the wait for the supervisor times out and it looks
   only after the release, it finds a record that is not frozen and calls the container stopped. Nothing
   has to fail for this: from every ready start with a supervisor there is such a run.
   */
  lemma StoppedThoughMigrated(p: Params, s0: Sys, q: Pid) returns (s: Sys)
    requires Ready(p, s0) && s0.a.st.supervisor.Some?
    ensures Reaches(p, s0, s) && s.snd == SndDone && s.b.h.live == {q} && s.a.look == SawOther
    ensures s.a.h.state == Whole(Gone(p, s0.a.st).(status := Status.Stopped, exitCode := Some(0)))
  {
    hide Reaches, Ready;
    s := Completes(p, s0, q, true);
    s := LooksLate(p, s0, s, Gone(p, s0.a.st));
  }

  lemma LooksLate(p: Params, s0: Sys, s: Sys, gone: Record) returns (s': Sys)
    requires Reaches(p, s0, s) && Asleep(s.a) && s.a.h.live == {} && s.a.st.supervisor.Some?
    requires s.a.h.state == Whole(gone) && gone.status == Migrated
    ensures Reaches(p, s0, s') && s' == s.(a := s'.a) && s'.a.look == SawOther
    ensures s'.a.h.state == Whole(gone.(status := Status.Stopped, exitCode := Some(0)))
  {
    hide Reaches, RemoveCgroup;
    s' := ThenSupervise(p, s0, s);
    s' := ThenSupervise(p, s0, s');
    s' := ThenSupervise(p, s0, s');
    s' := ThenSupervise(p, s0, s');
    assert s'.a.sup == SupStopping(Loading) && s'.a.h.state == Whole(gone);
    s' := ThenSupervise(p, s0, s');
    s' := ThenSupervise(p, s0, s');
    s' := ThenSupervise(p, s0, s');
  }

  lemma ArrivedOnWire(p: Params, s: Sys)
    requires AllArrived(p, s)
    ensures s.seen == |s.up| && s.snd == SndAwaitResult
  {
    hide Sound, MigInv, HelloFor;
  }

  lemma ArrivedIs(p: Params, st: Record, q: Pid)
    ensures var r := Arrived(p, st, q);
            && r.status == Running && r.pid == Some(q) && r.snapshot == Some(p.inbox)
            && r.generation == (st.generation + 1) % U32_LIMIT
  {
  }

  /**
   From the same starts, the connection dying at the wrong moment: the migration fails here, the
   container is live there, and the local restore the failure message recommends succeeds.
   */
  lemma LivesTwice(p: Params, s0: Sys, here: RsEnv, q: Pid, r: Pid) returns (s: Sys, t: seq<Rs>)
    requires Ready(p, s0) && here.from == None && ReadsWith(here, p.codec)
    ensures Reaches(p, s0, s) && s.snd == SndFailed && s.b.h.live == {q}
    ensures RsTrace(here, s.a.h, t) && t[|t| - 1].pc == RsOk(r) && t[|t| - 1].h.live == {r}
  {
    hide Reaches, Ready, Frozen, FileShipped, HelloFor, Sound, MigInv, RsTrace, ReadsWith, Stale, ResolveSnapshot;
    var waiting := Arrives(p, s0, q, false);
    FrozenResolves(p, here, waiting.a.h, s0);
    var acts;
    acts, t := LostOutcomeDuplicates(p, waiting, here, q, r);
    s := ThenRun(p, s0, waiting, acts);
  }

  lemma ThenRun(p: Params, s0: Sys, s: Sys, acts: seq<Act>) returns (s': Sys)
    requires Reaches(p, s0, s)
    ensures s' == MigRun(p, s, acts) && Reaches(p, s0, s')
  {
    hide MigRun;
    s' := MigRun(p, s, acts);
    var before :| MigRun(p, s0, before) == s;
    RunConcat(p, s0, before, acts);
    assert MigRun(p, s0, before + acts) == s';
  }

  lemma FrozenResolves(p: Params, here: RsEnv, h: Host, s0: Sys)
    requires h.live == {} && h.state == Whole(Frozen(p.ck, s0.a.st)) && here.from == None && p.ck.dest in h.snapshots
    ensures !Stale(h.state.record, h.live) && ResolveSnapshot(here.from, h, h.state.record) == Some(p.ck.dest)
  {
  }

  /**
   Nothing need be lost for that: from the same starts there is a run in which the receiver cannot save
   the restored record, reports the failure with the container alive, the report is delivered, and the
   local restore it leads to succeeds.
   */
  lemma LivesTwiceThoughReported(p: Params, s0: Sys, here: RsEnv, q: Pid, r: Pid) returns (s: Sys, t: seq<Rs>)
    requires Ready(p, s0) && here.from == None && ReadsWith(here, p.codec)
    ensures Reaches(p, s0, s) && s.snd == SndFailed && s.b.h.live == {q}
    ensures s.down == [Ack(true), Outcome(false)] && s.downSeen == 2
    ensures RsTrace(here, s.a.h, t) && t[|t| - 1].pc == RsOk(r) && t[|t| - 1].h.live == {r}
  {
    hide Reaches, Ready, AllArrived, Frozen, FileShipped, RsTrace, ReadsWith, Stale, ResolveSnapshot, Restorable, RsRun;
    var waiting := Arrives(p, s0, q, false);
    FrozenResolves(p, here, waiting.a.h, s0);
    ArrivedRestorable(p, waiting, here);
    ArrivedOnWire(p, waiting);
    ReachCommit(p.rs, Landed(p, waiting), p.inbox, Choice(true, q));
    assert {} + {q} == {q} && {} + {r} == {r};
    s := RestoresOn(p, s0, waiting, q, 18);
    s := FailsToSave(p, s0, s, q);
    s := ThenDeliver(p, s0, s);
    s := HearsFailure(p, s0, s);
    t := RestoreSucceeds(here, s.a.h, p.ck.dest, r);
  }

  lemma ArrivedRestorable(p: Params, s: Sys, here: RsEnv)
    requires AllArrived(p, s) && s.a.h.cgroup == None && ReadsWith(here, p.codec)
    requires s.a.h.state.Whole? && !Stale(s.a.h.state.record, s.a.h.live)
    requires ResolveSnapshot(here.from, s.a.h, s.a.h.state.record) == Some(p.ck.dest)
    ensures Restorable(here, s.a.h, p.ck.dest) && Restorable(p.rs, Landed(p, s), p.inbox) && s.b.h.live == {}
  {
    hide Sound, MigInv, HelloFor, Restorable, Stale, ResolveSnapshot;
    LocallyRestorable(p, s, here);
    LandedRestorable(p, s);
  }

  /**
   If it is only the origin that cannot be saved, the receiver has committed its restore and counted it,
   and still reports a failure: the sender keeps a container whose generation does not count it.
   */
  lemma CommittedThoughFailed(p: Params, s0: Sys, q: Pid) returns (s: Sys)
    requires Ready(p, s0) && p.rs.foreign.Some?
    ensures Reaches(p, s0, s) && s.snd == SndFailed && s.down == [Ack(true), Outcome(false)] && s.downSeen == 2
    ensures s.committed.Some? && s.b.h.live == {q} && s.b.h.state.Whole? && Recorded(s.b.h, q)
    ensures s.b.h.state.record.generation == (s0.a.st.generation + 1) % U32_LIMIT
    ensures s.a.h.state.Whole? && s.a.h.state.record.status == Checkpointed
    ensures s.a.h.state.record.generation == s0.a.st.generation
  {
    hide Reaches, AllArrived, FileShipped, RsRun, Sound, MigInv, MigBegin, HelloFor, Clean;
    s := Arrives(p, s0, q, false);
    ArrivedOnWire(p, s);
    OriginNext(p, s, q);
    s := RestoresOn(p, s0, s, q, 21);
    BeginInv(p, s0);
    ReachedKeeps(p, s0, s);
    CommittedByNow(p, s);
    s := FailsToSave(p, s0, s, q);
    s := ThenDeliver(p, s0, s);
    s := HearsFailure(p, s0, s);
  }

  lemma OriginNext(p: Params, s: Sys, q: Pid)
    requires AllArrived(p, s) && p.rs.foreign.Some?
    ensures var b := RsRun(p.rs, Begin(Landed(p, s)), Choice(true, q), 21);
            && b.pc == RsOrigin(q, Loading) && b.h.live == {q} && b.h.state.Whole? && Recorded(b.h, q)
            && b.h.state.record.generation == (s.a.st.generation + 1) % U32_LIMIT
  {
    hide Sound, MigInv, HelloFor, Clean, Restorable, RsRun, RsNext;
    var c, h := Choice(true, q), Landed(p, s);
    LandedRestorable(p, s);
    ReachCommit(p.rs, h, p.inbox, c);
    assert {} + {q} == {q};
    Rewrites(p.rs, RsRun(p.rs, Begin(h), c, 18), c, Marked(h.state.record));
    RunOn(p.rs, Begin(h), c, 18, 3);
  }

  lemma CommittedByNow(p: Params, s: Sys)
    requires MigInv(p, s) && s.rcv == RcvRestore && s.b.pc.RsOrigin?
    ensures s.committed.Some?
  {
    hide SenderInv, WireInv, RestoreInv;
  }
}
