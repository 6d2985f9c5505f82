/**
 The hop counter: along any run of checkpoints, restores and migrations, killed ones included, the
 owner's generation counts the restores whose record was written, on all nodes.
 */
module Generations {
  import opened Bytes
  import opened Hosts
  import opened Reconciling
  import opened Checkpointing
  import opened Restoring
  import opened Migrating
  import opened Outcomes

  type Node = nat

  function Plus(g: u32, n: nat): u32 {
    (g + n) % U32_LIMIT
  }

  lemma PlusOne(g: u32, n: nat)
    ensures Plus(Plus(g, n), 1) == Plus(g, n + 1)
  {
    var q, r := (g + n) / U32_LIMIT, (g + n) % U32_LIMIT;
    if r + 1 < U32_LIMIT {
      DivModUnique(g + n + 1, U32_LIMIT, q, r + 1);
    } else {
      DivModUnique(g + n + 1, U32_LIMIT, q + 1, 0);
    }
  }

  /** A record that can be read has generation `g`. */
  predicate Has(h: Host, g: u32) {
    h.state.Whole? ==> h.state.record.generation == g
  }

  predicate Holds(save: Save, g: u32) {
    !save.Loading? ==> save.r.generation == g
  }

  // ----- restores ----------------------------------------------------------------------------------

  /** The record in the file and the one about to be written, at generation `g`. */
  predicate Tracks(s: Rs, g: u32) {
    && Has(s.h, g)
    && match s.pc
       case RsReconcile(RcLabel(_, save)) => Holds(save, g)
       case RsMark(save) => Holds(save, g)
       case RsCommit(_, save) => Holds(save, Plus(g, 1))
       case RsOrigin(_, save) => Holds(save, g)
       case RsUnmark(save) => Holds(save, g)
       case _ => true
  }

  /** The step that writes the restored record. */
  predicate CommitStep(s: Rs, s': Rs) {
    s.pc.RsCommit? && s.pc.save.Writing? && (s'.pc.RsOrigin? || s'.pc.RsSweep?)
  }

  function CommitsIn(t: seq<Rs>): nat {
    if |t| < 2 then 0 else CommitsIn(t[..|t| - 1]) + (if CommitStep(t[|t| - 2], t[|t| - 1]) then 1 else 0)
  }

  function Counting(g: u32, s: Rs, s': Rs): u32 {
    if CommitStep(s, s') then Plus(g, 1) else g
  }

  lemma TracksKept(env: RsEnv, s: Rs, c: Choice, g: u32)
    requires Tracks(s, g)
    ensures var s' := RsNext(env, s, c); Tracks(s', Counting(g, s, s'))
  {
    hide Tracks, RsNext, Counting;
    if s.pc.RsReconcile? {
      TracksReconciling(env, s, c, g);
    } else if s.pc.RsCommit? || s.pc.RsOrigin? {
      TracksCommitting(env, s, c, g);
    } else if s.pc.RsMark? || s.pc.RsUnmark? {
      TracksMarking(env, s, c, g);
    } else if EarlyPc(s.pc) || s.pc.RsUndo? {
      TracksEarly(env, s, c, g);
    } else {
      TracksBuilding(env, s, c, g);
    }
  }

  lemma TracksReconciling(env: RsEnv, s: Rs, c: Choice, g: u32)
    requires Tracks(s, g) && s.pc.RsReconcile?
    ensures var s' := RsNext(env, s, c); Tracks(s', Counting(g, s, s'))
  {
    hide RemoveCgroup, Plus, Stale, HasSnapshot;
  }

  lemma TracksCommitting(env: RsEnv, s: Rs, c: Choice, g: u32)
    requires Tracks(s, g) && (s.pc.RsCommit? || s.pc.RsOrigin?)
    ensures var s' := RsNext(env, s, c); Tracks(s', Counting(g, s, s'))
  {
  }

  lemma TracksMarking(env: RsEnv, s: Rs, c: Choice, g: u32)
    requires Tracks(s, g) && (s.pc.RsMark? || s.pc.RsUnmark?)
    ensures var s' := RsNext(env, s, c); Tracks(s', Counting(g, s, s'))
  {
    hide Plus;
  }

  lemma TracksEarly(env: RsEnv, s: Rs, c: Choice, g: u32)
    requires Tracks(s, g) && !s.pc.RsReconcile? && (EarlyPc(s.pc) || s.pc.RsUndo?)
    ensures var s' := RsNext(env, s, c); Tracks(s', Counting(g, s, s'))
  {
    hide Plus, SaveStep, RcNext, RemoveCgroup, ResolveSnapshot;
  }

  lemma TracksBuilding(env: RsEnv, s: Rs, c: Choice, g: u32)
    requires Tracks(s, g) && (BuildingPc(s.pc) || RisingPc(s.pc) || SettledPc(s.pc))
    ensures var s' := RsNext(env, s, c); Tracks(s', Counting(g, s, s'))
  {
    hide Plus, SaveStep;
  }

  /** Whatever becomes of a restore, a record that can be read counts the commits made. */
  lemma {:induction false} RestoreCounts(env: RsEnv, h: Host, t: seq<Rs>, g: u32)
    requires RsTrace(env, h, t) && Has(h, g)
    ensures Tracks(t[|t| - 1], Plus(g, CommitsIn(t)))
    decreases |t|
  {
    hide RsNext, CommitStep, Plus;
    if |t| == 1 {
      PlusNothing(g);
    } else {
      var init, s, s' := t[..|t| - 1], t[|t| - 2], t[|t| - 1];
      RestoreCounts(env, h, init, g);
      PlusOne(g, CommitsIn(init));
      assert RsStep(env, t[|t| - 2], t[|t| - 2 + 1]);
      if exists c :: s' == RsNext(env, s, c) {
        var c :| s' == RsNext(env, s, c);
        TracksKept(env, s, c, Plus(g, CommitsIn(init)));
      } else {
        NoCommit(s, s');
      }
    }
  }

  lemma PlusNothing(g: u32)
    ensures Plus(g, 0) == g
  {
  }

  lemma NoCommit(s: Rs, s': Rs)
    requires s'.pc == s.pc
    ensures !CommitStep(s, s')
  {
  }

  /** A restore that succeeds commits once; one that fails commits only if it failed in the saving of its record. */
  lemma {:induction false} CommitsOnce(env: RsEnv, h: Host, t: seq<Rs>)
    requires RsTrace(env, h, t)
    ensures var s := t[|t| - 1];
            if PastCommit(s.pc) then CommitsIn(t) == 1
            else if FailedCommit(s.pc) then CommitsIn(t) <= 1
            else CommitsIn(t) == 0
    decreases |t|
  {
    hide RsNext;
    if |t| == 1 {
    } else {
      var s, s' := t[|t| - 2], t[|t| - 1];
      CommitsOnce(env, h, t[..|t| - 1]);
      assert RsStep(env, t[|t| - 2], t[|t| - 2 + 1]);
      if exists c :: s' == RsNext(env, s, c) {
        var c :| s' == RsNext(env, s, c);
        CommitOrder(env, s, c);
      }
    }
  }

  lemma CommitOrder(env: RsEnv, s: Rs, c: Choice)
    ensures var s' := RsNext(env, s, c);
            && (PastCommit(s.pc) ==> PastCommit(s'.pc) || FailedCommit(s'.pc))
            && (PastCommit(s'.pc) ==> PastCommit(s.pc) || CommitStep(s, s'))
            && (FailedCommit(s'.pc) ==> PastCommit(s.pc) || FailedCommit(s.pc) || s.pc.RsCommit?)
            && (FailedCommit(s.pc) ==> FailedCommit(s'.pc))
            && (CommitStep(s, s') ==> PastCommit(s'.pc))
  {
    hide RsNext;
    if s.pc.RsCommit? || s.pc.RsOrigin? {
      CommitOrderSaving(env, s, c);
    } else if EarlyPc(s.pc) || s.pc.RsMark? || s.pc.RsUnmark? || s.pc.RsUndo? {
      CommitOrderElsewhere(env, s, c);
    } else {
      CommitOrderBuilding(env, s, c);
    }
  }

  lemma CommitOrderSaving(env: RsEnv, s: Rs, c: Choice)
    requires s.pc.RsCommit? || s.pc.RsOrigin?
    ensures var s' := RsNext(env, s, c);
            && (s.pc.RsOrigin? ==> PastCommit(s'.pc) || FailedCommit(s'.pc))
            && (s.pc.RsCommit? && PastCommit(s'.pc) ==> CommitStep(s, s'))
  {
    hide Apply;
  }

  lemma CommitOrderElsewhere(env: RsEnv, s: Rs, c: Choice)
    requires EarlyPc(s.pc) || s.pc.RsMark? || s.pc.RsUnmark? || s.pc.RsUndo?
    ensures !PastCommit(RsNext(env, s, c).pc) && !FailedCommit(RsNext(env, s, c).pc)
  {
    hide RcNext, SaveStep, RemoveCgroup, ResolveSnapshot;
  }

  lemma CommitOrderBuilding(env: RsEnv, s: Rs, c: Choice)
    requires BuildingPc(s.pc) || RisingPc(s.pc) || SettledPc(s.pc)
    ensures var s' := RsNext(env, s, c);
            && (PastCommit(s'.pc) <==> PastCommit(s.pc)) && (FailedCommit(s'.pc) <==> FailedCommit(s.pc))
  {
    hide SaveStep;
  }

  // ----- what a restore leaves of the record, stale or not ---------------------------------------------

  /** How an attempt to restore can end. */
  datatype Attempt =
    | Refused
    | TakenBack
    | SweptUp(hasSnapshot: bool)
    | Committed(pid: Pid, foreign: Option<string>)

  /** What it leaves of the record it started from. */
  function After(r: Record, a: Attempt): Record {
    match a
    case Refused => r
    case TakenBack => Apply(ToStatus(Checkpointed), Marked(r))
    case SweptUp(has) => Apply(ToReconciled(has), Marked(r))
    case Committed(pid, foreign) =>
      var restored := Apply(ToRestored(pid), Marked(r));
      if foreign.Some? then Apply(FromHost(foreign.value), restored) else restored
  }

  /** The record as the sweep that begins a restore relabels it. */
  function Relabelled(h: Host, r: Record): Record {
    Apply(ToReconciled(HasSnapshot(h, r)), r)
  }

  /** From record `r` on host `h0`: what the opening sweep has made of it, and what the restore works from. */
  ghost predicate Opening(h0: Host, r: Record, s: Rs) {
    && s.h.snapshots == h0.snapshots
    && match s.pc
       case RsReconcile(rc) => OpeningSweep(h0, r, s.h.state, rc)
       case RsLoad => StartsFrom(h0, r, s.h.state)
       case RsErr(Early) => StartsFrom(h0, r, s.base.state) || s.base.state == Torn
       case _ => StartsFrom(h0, r, s.base.state)
  }

  predicate StartsFrom(h0: Host, r: Record, file: StateFile) {
    file == Whole(r) || file == Whole(Relabelled(h0, r))
  }

  predicate OpeningSweep(h0: Host, r: Record, file: StateFile, rc: RcPc) {
    match rc
    case RcLoad => file == Whole(r)
    case RcKill(st) => file == Whole(r) && st == r
    case RcCgroup(st) => file == Whole(r) && st == r
    case RcVeth(st) => file == Whole(r) && st == r
    case RcStaging(st) => file == Whole(r) && st == r
    case RcProbe(st) => file == Whole(r) && st == r
    case RcLabel(has, Loading) => file == Whole(r) && has == HasSnapshot(h0, r)
    case RcLabel(_, Truncating(x)) => file == Whole(r) && x == Relabelled(h0, r)
    case RcLabel(_, Writing(x)) => file == Torn && x == Relabelled(h0, r)
    case RcDone => StartsFrom(h0, r, file)
    case RcFailed => file == Whole(r) || file == Torn
  }

  lemma OpeningKept(env: RsEnv, h0: Host, r: Record, s: Rs, c: Choice)
    requires Opening(h0, r, s)
    ensures Opening(h0, r, RsNext(env, s, c))
  {
    hide RsNext, Opening;
    if s.pc.RsReconcile? {
      OpeningSweeps(env, h0, r, s, c);
    } else if EarlyPc(s.pc) {
      OpeningLoads(env, h0, r, s, c);
    } else {
      LaterMoves(env, s, c);
      EarlyErrStays(env, s, c);
      OpeningOver(h0, r, s, RsNext(env, s, c));
    }
  }

  lemma OpeningSweeps(env: RsEnv, h0: Host, r: Record, s: Rs, c: Choice)
    requires Opening(h0, r, s) && s.pc.RsReconcile?
    ensures Opening(h0, r, RsNext(env, s, c))
  {
    hide RemoveCgroup, Apply, Stale;
  }

  lemma OpeningLoads(env: RsEnv, h0: Host, r: Record, s: Rs, c: Choice)
    requires Opening(h0, r, s) && EarlyPc(s.pc) && !s.pc.RsReconcile?
    ensures Opening(h0, r, RsNext(env, s, c))
  {
    hide Relabelled, ResolveSnapshot, RcNext, SaveStep;
  }

  lemma OpeningOver(h0: Host, r: Record, s: Rs, s': Rs)
    requires Opening(h0, r, s) && !EarlyPc(s.pc) && s'.base == s.base && s'.h.snapshots == s.h.snapshots
    requires !s'.pc.RsReconcile? && !s'.pc.RsLoad? && (s.pc == RsErr(Early) ==> s' == s)
    ensures Opening(h0, r, s')
  {
    hide Relabelled;
  }

  lemma EarlyErrStays(env: RsEnv, s: Rs, c: Choice)
    ensures s.pc.RsErr? ==> RsNext(env, s, c) == s
  {
  }

  lemma {:induction false} OpeningHolds(env: RsEnv, h: Host, t: seq<Rs>, r: Record)
    requires RsTrace(env, h, t) && h.state == Whole(r)
    ensures Opening(h, r, t[|t| - 1])
    decreases |t|
  {
    hide RsNext, Relabelled;
    if |t| == 1 {
    } else {
      var s, s' := t[|t| - 2], t[|t| - 1];
      OpeningHolds(env, h, t[..|t| - 1], r);
      assert RsStep(env, t[|t| - 2], t[|t| - 2 + 1]);
      if exists c :: s' == RsNext(env, s, c) {
        var c :| s' == RsNext(env, s, c);
        OpeningKept(env, h, r, s, c);
      }
    }
  }

  /**
   Every run of a restore, on any record, stale or not, that ends with a report ends as one of the
   attempts above, on the record it found or the one its opening sweep made of it; so does a failed
   build, once swept. Only a sweep that could not finish leaves the record torn without an attempt.
   */
  lemma RestoreIsAttempt(env: RsEnv, h: Host, t: seq<Rs>, r: Record)
    requires RsTrace(env, h, t) && h.state == Whole(r)
    requires t[|t| - 1].pc.RsErr? || t[|t| - 1].pc.RsOk?
    ensures var s := t[|t| - 1];
            && (s.base.state.Whole? ==>
                  var r' := s.base.state.record;
                  && (r' == r || r' == Relabelled(h, r))
                  && (s.pc == RsErr(Early) ==> s.h.state == Whole(After(r', Refused)))
                  && (s.pc == RsErr(RolledBack(true)) ==> s.h.state == Whole(After(r', TakenBack)))
                  && (s.pc == RsErr(Build) ==>
                        Reconcile(s.h, env.cfg).state == Whole(After(r', SweptUp(HasSnapshot(s.h, r')))))
                  && (s.pc.RsOk? ==> s.h.state == Whole(After(r', Committed(s.pc.pid, env.foreign)))))
            && (!s.base.state.Whole? ==> s.pc == RsErr(Early) && s.h.state == Torn)
  {
    RestoreInvariant(env, h, t);
    OpeningHolds(env, h, t, r);
    hide RsTrace, ResourceInv, LiveInv, BuiltInv, TornInv, Relabelled;
  }

  // ----- checkpoints --------------------------------------------------------------------------------------

  /** No interleaving of a checkpoint and a supervisor, finished, failed or killed, changes the generation. */
  lemma CheckpointCounts(env: CkEnv, pid: Pid, t: seq<Ck>, g: u32)
    requires CkTrace(env, pid, t) && Has(t[0].h, g)
    ensures Has(t[|t| - 1].h, g)
  {
    CheckpointInvariant(env, pid, t);
    LoadedAlong(env, pid, t);
    hide CkStep, Joint, TornLook, Unwatched;
  }

  // ----- migrations -------------------------------------------------------------------------------------------

  /** On the sender's node, the record in the file and every one about to be written. */
  predicate TracksHere(a: Ck, snd: SndPc, g: u32) {
    && Has(a.h, g) && (SavingPc(a.pc) ==> Holds(a.pc.save, g)) && (a.sup.SupStopping? ==> Holds(a.sup.save, g))
    && (snd.SndRelease? ==> Holds(snd.save, g))
  }

  lemma TracksHereKept(p: Params, s: Sys, act: Act, g: u32)
    requires TracksHere(s.a, s.snd, g)
    ensures var s' := MigNext(p, s, act); TracksHere(s'.a, s'.snd, g)
  {
    hide TracksHere, CkNext, SupNext, SndNext, RcvNext;
    match act
    case ActCheckpoint(ok, n) => CheckpointTracks(p.ck, s.a, s.snd, ok, n, g);
    case ActSupervise(ok, code) => SuperviseTracks(s.a, s.snd, p.pid, ok, code, g);
    case ActSend(ok, n) => SendTracks(p, s, ok, n, g);
    case ActReceive(c) => ReceiveMoves(p, s, c);
    case ActDriftHere(e) => DriftTracks(s.a, s.snd, e, g);
    case ActCrashHere => CrashTracks(s.a, s.snd, g);
    case _ =>
  }

  lemma DriftTracks(a: Ck, snd: SndPc, e: Event, g: u32)
    requires TracksHere(a, snd, g)
    ensures TracksHere(a.(h := Drift(a.h, e)), snd, g)
  {
    hide Drift;
  }

  lemma CrashTracks(a: Ck, snd: SndPc, g: u32)
    requires TracksHere(a, snd, g)
    ensures TracksHere(a, SndCrashed, g)
  {
  }

  lemma CheckpointTracks(env: CkEnv, a: Ck, snd: SndPc, ok: bool, n: nat, g: u32)
    requires TracksHere(a, snd, g)
    ensures TracksHere(CkNext(env, a, ok, n), snd, g)
  {
    hide CkNext, TracksHere;
    if SavingPc(a.pc) {
      CheckpointTracksSaving(env, a, snd, ok, n, g);
    } else {
      CheckpointTracksElsewhere(env, a, snd, ok, n, g);
    }
  }

  lemma CheckpointTracksSaving(env: CkEnv, a: Ck, snd: SndPc, ok: bool, n: nat, g: u32)
    requires TracksHere(a, snd, g) && SavingPc(a.pc)
    ensures TracksHere(CkNext(env, a, ok, n), snd, g)
  {
    hide RemoveCgroup, Kill, Lifecycle;
  }

  lemma CheckpointTracksElsewhere(env: CkEnv, a: Ck, snd: SndPc, ok: bool, n: nat, g: u32)
    requires TracksHere(a, snd, g) && !SavingPc(a.pc)
    ensures TracksHere(CkNext(env, a, ok, n), snd, g)
  {
    hide RemoveCgroup, Lifecycle, SaveStep, Apply;
  }

  lemma SuperviseTracks(a: Ck, snd: SndPc, pid: Pid, ok: bool, code: int, g: u32)
    requires TracksHere(a, snd, g)
    ensures TracksHere(SupNext(a, pid, ok, code), snd, g)
  {
    hide RemoveCgroup;
  }

  lemma SendTracks(p: Params, s: Sys, ok: bool, n: nat, g: u32)
    requires TracksHere(s.a, s.snd, g)
    ensures var s' := SndNext(p, s, ok, n); TracksHere(s'.a, s'.snd, g)
  {
    hide TracksHere, SndNext;
    if s.snd.SndRelease? {
      ReleaseTracks(p, s, ok, n, g);
    } else {
      SendLeavesNode(p, s, ok, n);
      NotReleasing(s.a, s.snd, SndNext(p, s, ok, n).snd, g);
    }
  }

  lemma NotReleasing(a: Ck, snd: SndPc, snd': SndPc, g: u32)
    requires TracksHere(a, snd, g) && (snd'.SndRelease? ==> snd'.save == Loading)
    ensures TracksHere(a, snd', g)
  {
  }

  lemma ReleaseTracks(p: Params, s: Sys, ok: bool, n: nat, g: u32)
    requires TracksHere(s.a, s.snd, g) && s.snd.SndRelease?
    ensures var s' := SndNext(p, s, ok, n); TracksHere(s'.a, s'.snd, g)
  {
    hide SendHello, SendMore;
  }

  lemma {:induction false} RunTracksHere(p: Params, s: Sys, acts: seq<Act>, g: u32)
    requires TracksHere(s.a, s.snd, g)
    ensures var s' := MigRun(p, s, acts); TracksHere(s'.a, s'.snd, g)
    decreases |acts|
  {
    hide TracksHere, MigNext;
    if acts == [] {
    } else {
      TracksHereKept(p, s, acts[0], g);
      RunTracksHere(p, MigNext(p, s, acts[0]), acts[1..], g);
    }
  }

  /**
   A migration never changes the generation of the record it leaves on the sender; one that the sender
   completes has committed exactly one restore, and the receiver's record counts it.
   */
  lemma MigrationCounts(p: Params, s0: Sys, acts: seq<Act>)
    requires Sound(p, s0.a.st) && MigBegin(p, s0)
    ensures var s, g := MigRun(p, s0, acts), s0.a.st.generation;
            && Has(s.a.h, g)
            && (s.snd == SndDone ==> s.committed.Some? && s.b.h.state.Whole? && Has(s.b.h, Plus(g, 1)))
  {
    hide Sound, MigRun, CkInv, Packed, RestoreInv, WireInv;
    BeginInv(p, s0);
    RunKeeps(p, s0, acts);
    ReportsAreTrue(p, s0, acts);
    RunTracksHere(p, s0, acts, s0.a.st.generation);
    var s := MigRun(p, s0, acts);
    if s.snd == SndDone {
      ArrivedCounts(p, s0.a.st, s.b.pc.pid);
      hide Arrived;
    }
  }

  lemma ArrivedCounts(p: Params, st: Record, q: Pid)
    ensures Arrived(p, st, q).generation == Plus(st.generation, 1)
  {
  }

  // ----- nodes ------------------------------------------------------------------------------------------------

  /** The nodes, the one that owns the container, and the restores committed anywhere so far. */
  datatype Cluster = Cluster(hosts: map<Node, Host>, owner: Node, commits: nat)

  /** A checkpoint on the owner, with its supervisor, as far as it got. */
  ghost predicate FreezesBy(c: Cluster, c': Cluster, env: CkEnv, pid: Pid, t: seq<Ck>) {
    && c.owner in c.hosts && CkTrace(env, pid, t) && t[0].h == c.hosts[c.owner]
    && c' == c.(hosts := c.hosts[c.owner := t[|t| - 1].h])
  }

  ghost predicate Freezes(c: Cluster, c': Cluster) {
    exists env, pid, t :: FreezesBy(c, c', env, pid, t)
  }

  /** A restore on the owner, reconciling first, as far as it got. */
  ghost predicate ThawsBy(c: Cluster, c': Cluster, env: RsEnv, t: seq<Rs>) {
    && c.owner in c.hosts && RsTrace(env, c.hosts[c.owner], t)
    && c' == Cluster(c.hosts[c.owner := t[|t| - 1].h], c.owner, c.commits + CommitsIn(t))
  }

  ghost predicate Thaws(c: Cluster, c': Cluster) {
    exists env, t :: ThawsBy(c, c', env, t)
  }

  /**
   A migration from the owner whose outcome was delivered: completed, or given up with nothing
   committed and nothing under way on the other side.
   */
  ghost predicate Moves(c: Cluster, c': Cluster) {
    exists p, s0, acts, to: Node :: MovesTo(c, c', p, s0, acts, to)
  }

  ghost predicate MovesTo(c: Cluster, c': Cluster, p: Params, s0: Sys, acts: seq<Act>, to: Node) {
    && c.owner in c.hosts && to in c.hosts && to != c.owner
    && Sound(p, s0.a.st) && MigBegin(p, s0) && s0.a.h == c.hosts[c.owner] && s0.b.h == c.hosts[to]
    && var s := MigRun(p, s0, acts);
       && c'.hosts == c.hosts[c.owner := s.a.h][to := s.b.h]
       && c'.commits == c.commits + (if s.committed.Some? then 1 else 0)
       && (if s.snd == SndDone then c'.owner == to
           else c'.owner == c.owner && s.committed == None && (OverThere(s.rcv) || !s.eofSent))
  }

  ghost predicate Step(c: Cluster, c': Cluster) {
    Freezes(c, c') || Thaws(c, c') || Moves(c, c')
  }

  ghost predicate Counted(c: Cluster, start: u32) {
    c.owner in c.hosts && Has(c.hosts[c.owner], Plus(start, c.commits))
  }

  /** Each command, whatever becomes of it, adds to the owner's generation exactly the restores it committed. */
  lemma StepCounts(c: Cluster, c': Cluster, start: u32)
    requires Counted(c, start) && Step(c, c')
    ensures Counted(c', start)
  {
    hide CkTrace, RsTrace, MovesTo, Plus, Has, CommitsIn;
    var h, g := c.hosts[c.owner], Plus(start, c.commits);
    if Freezes(c, c') {
      var env, pid, t :| FreezesBy(c, c', env, pid, t);
      CheckpointCounts(env, pid, t, g);
    } else if Thaws(c, c') {
      var env, t :| ThawsBy(c, c', env, t);
      RestoreCounts(env, h, t, g);
      PlusPlus(start, c.commits, CommitsIn(t));
    } else {
      var p, s0, acts, to: Node :| MovesTo(c, c', p, s0, acts, to);
      MoveCounts(c, c', p, s0, acts, to, start);
    }
  }

  lemma PlusPlus(g: u32, m: nat, n: nat)
    ensures Plus(Plus(g, m), n) == Plus(g, m + n)
  {
    var q, r := (g + m) / U32_LIMIT, (g + m) % U32_LIMIT;
    var q', r' := (r + n) / U32_LIMIT, (r + n) % U32_LIMIT;
    DivModUnique(g + m + n, U32_LIMIT, q + q', r');
  }

  lemma MoveCounts(c: Cluster, c': Cluster, p: Params, s0: Sys, acts: seq<Act>, to: Node, start: u32)
    requires Counted(c, start) && MovesTo(c, c', p, s0, acts, to)
    ensures Counted(c', start)
  {
    hide Sound, MigRun, Plus;
    MigrationCounts(p, s0, acts);
    BeginRecord(p, s0);
    PlusPlus(start, c.commits, 1);
    PlusNothing(Plus(start, c.commits));
  }

  lemma BeginRecord(p: Params, s0: Sys)
    requires MigBegin(p, s0)
    ensures s0.a.h.state == Whole(s0.a.st)
  {
  }

  /** The owner's generation is the number of restores committed on all nodes since the container was new. */
  lemma {:induction false} GenerationCountsRestores(cs: seq<Cluster>)
    requires cs != [] && forall i :: 0 <= i < |cs| - 1 ==> Step(cs[i], cs[i + 1])
    requires cs[0].commits == 0 && Counted(cs[0], 0)
    ensures Counted(cs[|cs| - 1], 0)
    decreases |cs|
  {
    hide Step, Counted;
    if |cs| == 1 {
    } else {
      GenerationCountsRestores(cs[..|cs| - 1]);
      assert Step(cs[|cs| - 2], cs[|cs| - 2 + 1]);
      StepCounts(cs[|cs| - 2], cs[|cs| - 1], 0);
    }
  }
}
