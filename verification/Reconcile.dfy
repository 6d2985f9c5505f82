/** Sweeping up after a command that was killed: `reconcile`, step by step and as a whole. */
module Reconciling {
  import opened Bytes
  import opened Hosts

  /** `snapshots/latest.mcsnap`. */
  const LATEST: Path := "latest"

  /** The container's configuration as the sweep sees it: unreadable, or whether it has a network. */
  type Config = Option<bool>

  predicate Transient(s: Status) {
    s == Restoring || s == Checkpointing
  }

  predicate Stale(st: Record, live: set<Pid>) {
    || Transient(st.status)
    || (st.status == Running && (st.pid.None? || st.pid.value !in live))
  }

  predicate HasSnapshot(h: Host, st: Record) {
    (st.snapshot.Some? && st.snapshot.value in h.snapshots) || LATEST in h.snapshots
  }

  // ----- step by step -----------------------------------------------------------------

  datatype RcPc =
    | RcLoad
    | RcKill(st: Record)
    | RcCgroup(st: Record)
    | RcVeth(st: Record)
    | RcStaging(st: Record)
    | RcProbe(st: Record)
    | RcLabel(hasSnapshot: bool, save: Save)
    | RcDone
    | RcFailed

  function KillRecorded(h: Host, st: Record): Host {
    if st.pid.Some? && st.pid.value in h.live then Kill(h, st.pid.value) else h
  }

  function SweepCgroup(h: Host, cfg: Config): Host {
    if cfg.Some? then RemoveCgroup(h) else h
  }

  function SweepVeth(h: Host, cfg: Config): Host {
    if cfg == Some(true) then h.(veth := false) else h
  }

  function RcNext(h: Host, pc: RcPc, cfg: Config, ok: bool): (Host, RcPc) {
    match pc
    case RcLoad =>
      (match h.state
       case Missing => (h, RcDone)
       case Torn => (h, RcFailed)
       case Whole(st) => (h, if !ok then RcFailed else if Stale(st, h.live) then RcKill(st) else RcDone))
    case RcKill(st) => (KillRecorded(h, st), RcCgroup(st))
    case RcCgroup(st) => (SweepCgroup(h, cfg), RcVeth(st))
    case RcVeth(st) => (SweepVeth(h, cfg), RcStaging(st))
    case RcStaging(st) => (h.(staging := false), RcProbe(st))
    case RcProbe(st) => (h, RcLabel(HasSnapshot(h, st), Loading))
    case RcLabel(has, save) =>
      var (h', p) := SaveStep(h, save, ToReconciled(has), ok);
      (h', match p
           case Continue(save') => RcLabel(has, save')
           case Saved => RcDone
           case SaveFailed => RcFailed)
    case RcDone => (h, RcDone)
    case RcFailed => (h, RcFailed)
  }

  // ----- as a whole ----------------------------------------------------------------------

  function Swept(h: Host, st: Record, cfg: Config): Host {
    SweepVeth(SweepCgroup(KillRecorded(h, st), cfg), cfg).(staging := false)
  }

  /** What a `reconcile` that runs to its end leaves; a torn record is left alone, with an error. */
  function Reconcile(h: Host, cfg: Config): Host {
    if h.state.Whole? && Stale(h.state.record, h.live) then
      var st := h.state.record;
      Swept(h, st, cfg).(state := Whole(Apply(ToReconciled(HasSnapshot(h, st)), st)))
    else h
  }

  /** What is left of the container's claim on this host, beyond a recorded live process. */
  predicate Recorded(h: Host, p: Pid) {
    h.state.Whole? && h.state.record.status == Running && h.state.record.pid == Some(p)
  }

  /** Everything the source promises of a completed reconcile, for every host state. */
  lemma ReconcileSettles(h: Host, cfg: Config)
    ensures var r := Reconcile(h, cfg);
            && r.snapshots == h.snapshots && r.live <= h.live
            && (r.state.Whole? ==> !Stale(r.state.record, r.live))
            && (h.state.Whole? && Stale(h.state.record, h.live) ==>
                  && r.state.Whole? && r.state.record.pid == None
                  && r.state.record.status == (if HasSnapshot(h, h.state.record) then Checkpointed else Failed)
                  && r.state.record.generation == h.state.record.generation
                  && !r.staging && (cfg == Some(true) ==> !r.veth)
                  && (h.state.record.pid.Some? ==> h.state.record.pid.value !in r.live)
                  && (cfg.Some? ==> r.cgroup == None || !(r.cgroup.value !! r.live)))
            && (!(h.state.Whole? && Stale(h.state.record, h.live)) ==> r == h)
            && Reconcile(r, cfg) == r
  {
  }

  /** Whether the sweep has something to do, in so many words. */
  ghost predicate Interrupted(st: Record, live: set<Pid>) {
    || st.status == Status.Restoring || st.status == Status.Checkpointing
    || (st.status == Running && !NamesOneOf(st, live))
  }

  ghost predicate NamesOneOf(st: Record, live: set<Pid>) {
    exists p :: p in live && st.pid == Some(p)
  }

  /**
   The labels, in so many words: an interrupted record ends checkpointed if the file it names or
   `latest` is there, and failed otherwise, with no pid and nothing else changed; any other record,
   and its host, is left alone; and what remains is never transient, nor running without its tree.
   */
  lemma ReconcileLabels(h: Host, cfg: Config)
    requires h.state.Whole?
    ensures var st, r := h.state.record, Reconcile(h, cfg);
            && r.state.Whole?
            && (Interrupted(st, h.live) ==>
                  && r.state.record == st.(pid := None, status := r.state.record.status)
                  && (r.state.record.status == Checkpointed <==>
                        (exists p :: st.snapshot == Some(p) && p in h.snapshots) || "latest" in h.snapshots)
                  && (r.state.record.status == Checkpointed || r.state.record.status == Failed))
            && (!Interrupted(st, h.live) ==> r == h)
            && !Interrupted(r.state.record, r.live)
  {
    var st := h.state.record;
    StaleMeans(st, h.live);
    StaleMeans(Reconcile(h, cfg).state.record, Reconcile(h, cfg).live);
    ReconcileSettles(h, cfg);
    HasSnapshotMeans(h, st);
    hide Stale, HasSnapshot, Interrupted;
  }

  lemma StaleMeans(st: Record, live: set<Pid>)
    ensures Stale(st, live) <==> Interrupted(st, live)
  {
    assert NamesOneOf(st, live) <==> st.pid.Some? && st.pid.value in live by {
      if st.pid.Some? && st.pid.value in live {
        var p := st.pid.value;
        assert p in live && st.pid == Some(p);
      }
    }
    hide NamesOneOf;
  }

  lemma HasSnapshotMeans(h: Host, st: Record)
    ensures HasSnapshot(h, st) <==> (exists p :: st.snapshot == Some(p) && p in h.snapshots) || "latest" in h.snapshots
  {
    if st.snapshot.Some? && st.snapshot.value in h.snapshots {
      assert st.snapshot == Some(st.snapshot.value) && st.snapshot.value in h.snapshots;
    }
  }

  /** Where an interrupted or finished sweep of `h0` stands. */
  ghost predicate RcInv(h0: Host, h: Host, pc: RcPc, cfg: Config) {
    match pc
    case RcLoad => h == h0
    case RcKill(st) => Started(h0, st) && h == h0
    case RcCgroup(st) => Started(h0, st) && h == KillRecorded(h0, st)
    case RcVeth(st) => Started(h0, st) && h == SweepCgroup(KillRecorded(h0, st), cfg)
    case RcStaging(st) => Started(h0, st) && h == SweepVeth(SweepCgroup(KillRecorded(h0, st), cfg), cfg)
    case RcProbe(st) => Started(h0, st) && h == Swept(h0, st, cfg)
    case RcLabel(has, save) => h0.state.Whole? && Labelling(h0, h, has, save, cfg)
    case RcDone => h == Reconcile(h0, cfg)
    case RcFailed =>
      h == h0 || (h0.state.Whole? && Started(h0, h0.state.record)
                  && h.(state := h0.state) == Swept(h0, h0.state.record, cfg)
                  && (h.state == h0.state || h.state == Torn))
  }

  ghost predicate Started(h0: Host, st: Record) {
    h0.state == Whole(st) && Stale(st, h0.live)
  }

  ghost predicate Labelling(h0: Host, h: Host, has: bool, save: Save, cfg: Config)
    requires h0.state.Whole?
  {
    var st := h0.state.record;
    && Started(h0, st) && has == HasSnapshot(h0, st)
    && match save
       case Loading => h == Swept(h0, st, cfg)
       case Truncating(r) => h == Swept(h0, st, cfg) && r == Apply(ToReconciled(has), st)
       case Writing(r) => h == Swept(h0, st, cfg).(state := Torn) && r == Apply(ToReconciled(has), st)
  }

  /** Every step keeps the account of what has been swept so far. */
  lemma RcInvKept(h0: Host, h: Host, pc: RcPc, cfg: Config, ok: bool)
    requires RcInv(h0, h, pc, cfg)
    ensures var (h', pc') := RcNext(h, pc, cfg, ok); RcInv(h0, h', pc', cfg)
  {
    hide RemoveCgroup, KillRecorded, SweepCgroup, SweepVeth, HasSnapshot, Stale, Apply;
    match pc
    case RcProbe(st) => SweptKeeps(h0, st, cfg);
    case RcLabel(has, save) => SweptKeeps(h0, h0.state.record, cfg);
    case _ =>
  }

  lemma SweptKeeps(h: Host, st: Record, cfg: Config)
    ensures var s := Swept(h, st, cfg);
            && s.state == h.state && s.snapshots == h.snapshots && s.live <= h.live
            && HasSnapshot(s, st) == HasSnapshot(h, st)
  {
  }

  /** A run of the sweep, given the outcomes of its calls. */
  function RcRun(h: Host, pc: RcPc, cfg: Config, oks: seq<bool>): (Host, RcPc)
    decreases |oks|
  {
    if oks == [] then (h, pc)
    else
      var (h', pc') := RcNext(h, pc, cfg, oks[0]);
      RcRun(h', pc', cfg, oks[1..])
  }

  lemma {:induction false} RunAccounted(h0: Host, h: Host, pc: RcPc, cfg: Config, oks: seq<bool>)
    requires RcInv(h0, h, pc, cfg)
    ensures var (h', pc') := RcRun(h, pc, cfg, oks); RcInv(h0, h', pc', cfg)
    decreases |oks|
  {
    hide RcInv, RcNext;
    if oks == [] {
    } else {
      var (h', pc') := RcNext(h, pc, cfg, oks[0]);
      RcInvKept(h0, h, pc, cfg, oks[0]);
      RunAccounted(h0, h', pc', cfg, oks[1..]);
    }
  }

  /**
   Killing `reconcile` itself at any step, on any host, is harmless: unless it fell between truncating
   and rewriting the record, the next reconcile ends exactly where the first would have.
   */
  lemma CrashedSweepResumes(h0: Host, cfg: Config, oks: seq<bool>)
    ensures var (h, pc) := RcRun(h0, RcLoad, cfg, oks);
            && (h.state.Torn? && !h0.state.Torn? ==> pc.RcFailed? || (pc.RcLabel? && pc.save.Writing?))
            && (h.state.Torn? <==> Reconcile(h, cfg).state.Torn?)
            && (!h.state.Torn? ==> Reconcile(h, cfg) == Reconcile(h0, cfg))
  {
    hide RcInv, RcRun, Reconcile;
    AtFirst(h0, cfg);
    RunAccounted(h0, h0, RcLoad, cfg, oks);
    var (h, pc) := RcRun(h0, RcLoad, cfg, oks);
    SweepResumes(h0, h, pc, cfg);
  }

  lemma AtFirst(h0: Host, cfg: Config)
    ensures RcInv(h0, h0, RcLoad, cfg)
  {
  }

  lemma SweepResumes(h0: Host, h: Host, pc: RcPc, cfg: Config)
    requires RcInv(h0, h, pc, cfg)
    ensures h.state.Torn? && !h0.state.Torn? ==> pc.RcFailed? || (pc.RcLabel? && pc.save.Writing?)
    ensures h.state.Torn? <==> Reconcile(h, cfg).state.Torn?
    ensures !h.state.Torn? ==> Reconcile(h, cfg) == Reconcile(h0, cfg)
  {
    if pc.RcDone? {
      ReconcileSettles(h0, cfg);
      SettledWhole(h0, cfg);
    } else if h0.state.Whole? && h != h0 {
      var st := h0.state.record;
      SweepRepeats(h0, st, cfg);
      SweptKeeps(h0, st, cfg);
      hide RemoveCgroup, HasSnapshot, Stale, Apply, Swept;
      if h.state == h0.state {
        ResumeFrom(h0, h, st, cfg);
      }
    }
  }

  lemma SettledWhole(h: Host, cfg: Config)
    ensures Reconcile(h, cfg).state.Torn? <==> h.state.Torn?
  {
  }

  lemma ResumeFrom(h0: Host, h: Host, st: Record, cfg: Config)
    requires Started(h0, st) && h.state == h0.state && h.live <= h0.live && h.snapshots == h0.snapshots
    requires Swept(h, st, cfg) == Swept(h0, st, cfg)
    ensures Reconcile(h, cfg) == Reconcile(h0, cfg)
  {
    hide Swept, Apply;
  }

  /** Sweeping what is partly or wholly swept gives what sweeping once gives. */
  lemma SweepRepeats(h: Host, st: Record, cfg: Config)
    ensures var killed := KillRecorded(h, st);
            && Swept(killed, st, cfg) == Swept(h, st, cfg)
            && Swept(SweepCgroup(killed, cfg), st, cfg) == Swept(h, st, cfg)
            && Swept(SweepVeth(SweepCgroup(killed, cfg), cfg), st, cfg) == Swept(h, st, cfg)
            && Swept(Swept(h, st, cfg), st, cfg) == Swept(h, st, cfg)
  {
  }

  // ----- while trees end and devices go ------------------------------------------------------------

  /** A sweep under way. */
  datatype Sweep = Sweep(h: Host, pc: RcPc)

  ghost predicate RcStep(cfg: Config, s: Sweep, s': Sweep) {
    || (exists ok :: (s'.h, s'.pc) == RcNext(s.h, s.pc, cfg, ok))
    || (exists e :: s' == s.(h := Drift(s.h, e)))
  }

  ghost predicate RcTrace(cfg: Config, h0: Host, t: seq<Sweep>) {
    t != [] && t[0] == Sweep(h0, RcLoad) && forall i :: 0 <= i < |t| - 1 ==> RcStep(cfg, t[i], t[i + 1])
  }

  /** `h0` without what has gone by itself since. */
  function Since(h0: Host, h: Host): Host {
    h0.(live := h.live, veth := h.veth)
  }

  /** What a sweep of `h0` has changed so far, while other things went by themselves. */
  ghost predicate Adrift(h0: Host, s: Sweep, cfg: Config) {
    && Remains(h0, s.h, cfg)
    && match s.pc
       case RcLoad => s.h == Since(h0, s.h)
       case RcKill(st) => Sweeping(h0, s.h, st)
       case RcCgroup(st) => Sweeping(h0, s.h, st) && Dead(s.h, st)
       case RcVeth(st) => Sweeping(h0, s.h, st) && Dead(s.h, st)
       case RcStaging(st) => Sweeping(h0, s.h, st) && Dead(s.h, st) && NoVeth(s.h, cfg)
       case RcProbe(st) => Sweeping(h0, s.h, st) && SweptAway(s.h, st, cfg)
       case RcLabel(has, save) => h0.state.Whole? && Relabelling(h0, s.h, has, save, cfg)
       case RcDone => s.h == Since(h0, s.h) || (h0.state.Whole? && RelabelDone(h0, s.h, cfg))
       case RcFailed =>
         s.h == Since(h0, s.h) || (h0.state.Whole? && Stale(h0.state.record, s.h.live)
                                   && SweptAway(s.h, h0.state.record, cfg)
                                   && (s.h.state == h0.state || s.h.state == Torn))
  }

  predicate Remains(h0: Host, h: Host, cfg: Config) {
    && h.snapshots == h0.snapshots && h.live <= h0.live && (h.veth ==> h0.veth)
    && (h.cgroup == h0.cgroup || (h.cgroup == None && cfg.Some? && h0.cgroup.value !! h.live))
  }

  predicate Sweeping(h0: Host, h: Host, st: Record) {
    h0.state == Whole(st) && h.state == h0.state && Stale(st, h.live)
  }

  predicate Dead(h: Host, st: Record) {
    st.pid.Some? ==> st.pid.value !in h.live
  }

  predicate NoVeth(h: Host, cfg: Config) {
    cfg == Some(true) ==> !h.veth
  }

  predicate SweptAway(h: Host, st: Record, cfg: Config) {
    Dead(h, st) && NoVeth(h, cfg) && !h.staging
  }

  ghost predicate Relabelling(h0: Host, h: Host, has: bool, save: Save, cfg: Config)
    requires h0.state.Whole?
  {
    var st := h0.state.record;
    && Stale(st, h.live) && SweptAway(h, st, cfg) && has == HasSnapshot(h0, st)
    && match save
       case Loading => h.state == h0.state
       case Truncating(r) => h.state == h0.state && r == Apply(ToReconciled(has), st)
       case Writing(r) => h.state == Torn && r == Apply(ToReconciled(has), st)
  }

  ghost predicate RelabelDone(h0: Host, h: Host, cfg: Config)
    requires h0.state.Whole?
  {
    var st := h0.state.record;
    && Stale(st, h.live) && SweptAway(h, st, cfg)
    && h.state == Whole(Apply(ToReconciled(HasSnapshot(h0, st)), st))
  }

  lemma AdriftKept(h0: Host, s: Sweep, cfg: Config, ok: bool)
    requires Adrift(h0, s, cfg)
    ensures var (h', pc') := RcNext(s.h, s.pc, cfg, ok); Adrift(h0, Sweep(h', pc'), cfg)
  {
    hide Adrift, RcNext;
    if s.pc.RcLabel? {
      AdriftLabels(h0, s, cfg, ok);
    } else {
      AdriftSweeps(h0, s, cfg, ok);
    }
  }

  lemma AdriftLabels(h0: Host, s: Sweep, cfg: Config, ok: bool)
    requires Adrift(h0, s, cfg) && s.pc.RcLabel?
    ensures var (h', pc') := RcNext(s.h, s.pc, cfg, ok); Adrift(h0, Sweep(h', pc'), cfg)
  {
    hide Apply, HasSnapshot, RemoveCgroup;
  }

  lemma AdriftSweeps(h0: Host, s: Sweep, cfg: Config, ok: bool)
    requires Adrift(h0, s, cfg) && !s.pc.RcLabel?
    ensures var (h', pc') := RcNext(s.h, s.pc, cfg, ok); Adrift(h0, Sweep(h', pc'), cfg)
  {
    hide Apply, HasSnapshot, SaveStep;
    SnapshotsDecide(h0, s.h);
  }

  lemma SnapshotsDecide(h0: Host, h: Host)
    ensures h.snapshots == h0.snapshots ==> forall st :: HasSnapshot(h, st) == HasSnapshot(h0, st)
  {
  }

  lemma AdriftDrifts(h0: Host, s: Sweep, cfg: Config, e: Event)
    requires Adrift(h0, s, cfg)
    ensures Adrift(h0, s.(h := Drift(s.h, e)), cfg)
  {
    hide Drift, Apply, HasSnapshot;
  }

  lemma {:induction false} AdriftHolds(cfg: Config, h0: Host, t: seq<Sweep>)
    requires RcTrace(cfg, h0, t)
    ensures Adrift(h0, t[|t| - 1], cfg)
    decreases |t|
  {
    hide RcNext, Drift;
    if |t| == 1 {
    } else {
      var s, s' := t[|t| - 2], t[|t| - 1];
      AdriftHolds(cfg, h0, t[..|t| - 1]);
      hide Adrift;
      assert RcStep(cfg, t[|t| - 2], t[|t| - 2 + 1]);
      if exists ok :: (s'.h, s'.pc) == RcNext(s.h, s.pc, cfg, ok) {
        var ok :| (s'.h, s'.pc) == RcNext(s.h, s.pc, cfg, ok);
        AdriftKept(h0, s, cfg, ok);
      } else {
        var e :| s' == s.(h := Drift(s.h, e));
        AdriftDrifts(h0, s, cfg, e);
      }
    }
  }

  /**
   The same while trees end and devices go during the sweep: killed at any step with the record still as
   it was, the next reconcile ends where a first one would on the host as it now is; with the record
   relabelled, the host is already there, but for a cgroup whose last member ended after its removal
   was tried.
   */
  lemma DriftingSweepResumes(cfg: Config, h0: Host, t: seq<Sweep>)
    requires RcTrace(cfg, h0, t)
    ensures var h, pc := t[|t| - 1].h, t[|t| - 1].pc;
            var goal := Reconcile(Since(h0, h), cfg);
            && h.snapshots == h0.snapshots && h.live <= h0.live
            && (h.state.Torn? && !h0.state.Torn? ==> pc.RcFailed? || (pc.RcLabel? && pc.save.Writing?))
            && (h.state == h0.state ==> Reconcile(h, cfg) == goal)
            && (h.state != h0.state && !h.state.Torn? ==> h == goal.(cgroup := h.cgroup) && Reconcile(h, cfg) == h)
  {
    hide RcStep;
    AdriftHolds(cfg, h0, t);
    var h, pc := t[|t| - 1].h, t[|t| - 1].pc;
    if h.state == h0.state && h != Since(h0, h) {
      ResumeAdrift(h0, h, h0.state.record, cfg);
    } else if h.state != h0.state && !h.state.Torn? {
      RelabelledIsGoal(h0, h, cfg);
    }
  }

  lemma ResumeAdrift(h0: Host, h: Host, st: Record, cfg: Config)
    requires Remains(h0, h, cfg) && Sweeping(h0, h, st)
    ensures Reconcile(h, cfg) == Reconcile(Since(h0, h), cfg)
  {
    hide Apply, HasSnapshot;
    SnapshotsDecide(h0, h);
    SnapshotsDecide(h0, Since(h0, h));
    SweptAdrift(h0, h, st, cfg);
    hide Swept, Stale;
  }

  lemma SweptAdrift(h0: Host, h: Host, st: Record, cfg: Config)
    requires Remains(h0, h, cfg) && h.state == h0.state
    ensures Swept(h, st, cfg) == Swept(Since(h0, h), st, cfg)
  {
  }

  lemma RelabelledIsGoal(h0: Host, h: Host, cfg: Config)
    requires h0.state.Whole? && Remains(h0, h, cfg) && RelabelDone(h0, h, cfg)
    ensures h == Reconcile(Since(h0, h), cfg).(cgroup := h.cgroup) && Reconcile(h, cfg) == h
  {
  }

  /** A node and the commands that run on it to completion. */
  class Machine {
    var host: Host

    constructor (host: Host)
      ensures this.host == host
    {
      this.host := host;
    }

    /** Kill what is recorded, then remove the cgroup it would have kept busy, the veth and the staging directory. */
    method SweepDebris(st: Record, cfg: Config)
      modifies this
      ensures host == Swept(old(host), st, cfg)
    {
      hide RemoveCgroup;
      if st.pid.Some? && st.pid.value in host.live {
        host := Kill(host, st.pid.value);
      }
      if cfg.Some? {
        host := RemoveCgroup(host);
        if cfg.value {
          host := host.(veth := false);
        }
      }
      host := host.(staging := false);
    }

    /** `reconcile`, uninterrupted, on storage that works. */
    method RunReconcile(cfg: Config) returns (ok: bool)
      modifies this
      ensures host == Reconcile(old(host), cfg)
      ensures ok <==> !old(host).state.Torn?
    {
      hide RemoveCgroup, Swept;
      if !host.state.Whole? {
        return host.state.Missing?;
      }
      var st := host.state.record;
      var stale := match st.status
        case Restoring => true
        case Checkpointing => true
        case Running => st.pid.None? || st.pid.value !in host.live
        case _ => false;
      if !stale {
        return true;
      }
      SweptKeeps(host, st, cfg);
      SweepDebris(st, cfg);
      var hasSnapshot := (st.snapshot.Some? && st.snapshot.value in host.snapshots) || LATEST in host.snapshots;
      var current := host.state.record;
      host := host.(state := Whole(current.(pid := None, status := if hasSnapshot then Checkpointed else Failed)));
      ok := true;
    }
  }
}
