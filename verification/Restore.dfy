/** Rebuilding a container: the steps of `restore`, its rollback, and what a failure or a crash leaves behind. */
module Restoring {
  import opened Bytes
  import opened Hosts
  import opened Reconciling

  /** What one run of `restore` is given: options, configuration, and what the snapshot reader says of a file. */
  datatype RsEnv = RsEnv(
    cfg: Config,
    from: Option<Path>,
    network: bool,
    foreign: Option<string>,
    verifies: bytes -> bool,
    unpacks: bytes -> bool)

  /** The undo list of a restore in progress. */
  datatype Undoing = Undoing(pid: Option<Pid>, cgroup: bool, network: bool, armed: bool)

  datatype UndoStep = UndoNetwork | UndoTree | UndoCgroup | UndoStaging

  /** Where a failed restore gave up. */
  datatype Stage = Early | Marking | Build | RolledBack(relabelled: bool) | Commit(pid: Pid)

  datatype RsPc =
    | RsReconcile(rc: RcPc)
    | RsLoad
    | RsResolve
    | RsVerify
    | RsUnpack
    | RsRootfs
    | RsMark(save: Save)
    | RsPrepare
    | RsCgroup
    | RsApply
    | RsEngine
    | RsAlive(pid: Pid)
    | RsJoin(pid: Pid)
    | RsIsolate(pid: Pid)
    | RsNetwork(pid: Pid)
    | RsCommit(pid: Pid, save: Save)
    | RsOrigin(pid: Pid, save: Save)
    | RsSweep(pid: Pid)
    | RsOk(pid: Pid)
    | RsUndo(step: UndoStep)
    | RsUnmark(save: Save)
    | RsErr(stage: Stage)

  /** `base` is the host as the command found it once reconciled; `src` the snapshot it restores from. */
  datatype Rs = Rs(h: Host, pc: RsPc, rb: Undoing, src: Path, base: Host)

  const NOTHING_TO_UNDO := Undoing(None, false, false, false)

  function Begin(h: Host): Rs {
    Rs(h, RsReconcile(RcLoad), NOTHING_TO_UNDO, "", h)
  }

  function ResolveSnapshot(from: Option<Path>, h: Host, st: Record): Option<Path> {
    if from.Some? then (if from.value in h.snapshots then from else None)
    else if st.snapshot.Some? && st.snapshot.value in h.snapshots then st.snapshot
    else if LATEST in h.snapshots then Some(LATEST)
    else None
  }

  /** One outcome of the outside world: whether the call succeeds, and the pid the engine would report. */
  datatype Choice = Choice(ok: bool, pid: Pid)

  function RsNext(env: RsEnv, s: Rs, c: Choice): Rs {
    match s.pc
    case RsReconcile(rc) => ReconcileFirst(env, s, rc, c)
    case RsLoad => LoadRecord(s, c)
    case RsResolve => PickSnapshot(env, s)
    case RsVerify =>
      if c.ok && s.src in s.h.snapshots && env.verifies(s.h.snapshots[s.src]) then s.(pc := RsUnpack)
      else s.(pc := RsErr(Early))
    case RsUnpack =>
      var unpacked := s.(h := s.h.(staging := true));
      if c.ok && s.src in s.h.snapshots && env.unpacks(s.h.snapshots[s.src]) then unpacked.(pc := RsRootfs)
      else unpacked.(pc := RsErr(Early))
    case RsRootfs => s.(pc := if c.ok then RsMark(Loading) else RsErr(Early))
    case RsMark(save) =>
      var (h', p) := SaveStep(s.h, save, ToStatus(Status.Restoring), c.ok);
      (match p
       case Continue(save') => s.(h := h', pc := RsMark(save'))
       case Saved => s.(h := h', pc := RsPrepare, rb := Undoing(None, false, false, true))
       case SaveFailed => s.(h := h', pc := RsErr(Marking)))
    case RsPrepare => s.(pc := if c.ok then RsCgroup else RsErr(Build))
    case RsCgroup =>
      if !c.ok then s.(pc := RsErr(Build))
      else s.(h := s.h.(cgroup := if s.h.cgroup.Some? then s.h.cgroup else Some({})), pc := RsApply)
    case RsApply =>
      if !c.ok then s.(pc := RsErr(Build)) else s.(rb := s.rb.(cgroup := true), pc := RsEngine)
    case RsEngine =>
      if !c.ok then s.(pc := RsUndo(UndoNetwork))
      else if c.pid in s.h.live then s
      else s.(h := s.h.(live := s.h.live + {c.pid}), rb := s.rb.(pid := Some(c.pid)), pc := RsAlive(c.pid))
    case RsAlive(pid) => s.(pc := if pid in s.h.live then RsJoin(pid) else RsUndo(UndoNetwork))
    case RsJoin(pid) =>
      if c.ok && s.h.cgroup.Some? then s.(h := s.h.(cgroup := Some(s.h.cgroup.value + {pid})), pc := RsIsolate(pid))
      else s.(pc := RsUndo(UndoNetwork))
    case RsIsolate(pid) => s.(pc := if c.ok then RsNetwork(pid) else RsUndo(UndoNetwork))
    case RsNetwork(pid) =>
      if !env.network then s.(pc := RsCommit(pid, Loading))
      else if c.ok then s.(h := s.h.(veth := true), rb := s.rb.(network := true), pc := RsCommit(pid, Loading))
      else s.(pc := RsUndo(UndoNetwork))
    case RsCommit(pid, save) =>
      var (h', p) := SaveStep(s.h, save, ToRestored(pid), c.ok);
      (match p
       case Continue(save') => s.(h := h', pc := RsCommit(pid, save'))
       case Saved => s.(h := h', pc := if env.foreign.Some? then RsOrigin(pid, Loading) else RsSweep(pid))
       case SaveFailed => s.(h := h', pc := RsErr(Commit(pid))))
    case RsOrigin(pid, save) =>
      if env.foreign.None? then s
      else
        var (h', p) := SaveStep(s.h, save, FromHost(env.foreign.value), c.ok);
        (match p
         case Continue(save') => s.(h := h', pc := RsOrigin(pid, save'))
         case Saved => s.(h := h', pc := RsSweep(pid))
         case SaveFailed => s.(h := h', pc := RsErr(Commit(pid))))
    case RsSweep(pid) => s.(h := s.h.(staging := false), rb := s.rb.(armed := false), pc := RsOk(pid))
    case RsUndo(step) => UndoNext(s, step)
    case RsUnmark(save) =>
      var (h', p) := SaveStep(s.h, save, ToStatus(Checkpointed), c.ok);
      (match p
       case Continue(save') => s.(h := h', pc := RsUnmark(save'))
       case Saved => s.(h := h', pc := RsErr(RolledBack(true)))
       case SaveFailed => s.(h := h', pc := RsErr(RolledBack(false))))
    case RsOk(_) => s
    case RsErr(_) => s
  }

  function ReconcileFirst(env: RsEnv, s: Rs, rc: RcPc, c: Choice): Rs {
    if rc == RcDone then s.(pc := RsLoad, base := s.h)
    else if rc == RcFailed then s.(pc := RsErr(Early), base := s.h)
    else
      var (h', rc') := RcNext(s.h, rc, env.cfg, c.ok);
      s.(h := h', pc := RsReconcile(rc'), base := h')
  }

  /** Refuse only a record that says running, with a recorded pid that is alive. */
  function LoadRecord(s: Rs, c: Choice): Rs {
    if !c.ok || !s.h.state.Whole? then s.(pc := RsErr(Early), base := s.h)
    else
      var st := s.h.state.record;
      s.(base := s.h,
         pc := if st.status == Running && st.pid.Some? && st.pid.value in s.h.live then RsErr(Early) else RsResolve)
  }

  function PickSnapshot(env: RsEnv, s: Rs): Rs {
    if !s.h.state.Whole? then s.(pc := RsErr(Early))
    else
      match ResolveSnapshot(env.from, s.h, s.h.state.record)
      case Some(p) => s.(src := p, pc := RsVerify)
      case None => s.(pc := RsErr(Early))
  }

  /** Rollback in reverse order of creation: network, then the tree, then the cgroup the tree emptied. */
  function UndoNext(s: Rs, step: UndoStep): Rs {
    match step
    case UndoNetwork =>
      s.(h := if s.rb.network then s.h.(veth := false) else s.h,
         rb := s.rb.(network := false, armed := false), pc := RsUndo(UndoTree))
    case UndoTree =>
      s.(h := if s.rb.pid.Some? then Kill(s.h, s.rb.pid.value) else s.h,
         rb := s.rb.(pid := None), pc := RsUndo(UndoCgroup))
    case UndoCgroup =>
      s.(h := if s.rb.cgroup then RemoveCgroup(s.h) else s.h, rb := s.rb.(cgroup := false), pc := RsUndo(UndoStaging))
    case UndoStaging => s.(h := s.h.(staging := false), pc := RsUnmark(Loading))
  }

  /** A step of the command, or something that happens unasked. */
  ghost predicate RsStep(env: RsEnv, s: Rs, s': Rs) {
    || (exists c :: s' == RsNext(env, s, c))
    || (exists e :: s' == s.(h := Drift(s.h, e)))
  }

  ghost predicate RsTrace(env: RsEnv, h: Host, t: seq<Rs>) {
    t != [] && t[0] == Begin(h) && forall i :: 0 <= i < |t| - 1 ==> RsStep(env, t[i], t[i + 1])
  }

  // ----- the record along the way -----------------------------------------------------------

  /** The record while the tree is being rebuilt, and once the rebuild is committed. */
  function Marked(st: Record): Record {
    st.(status := Status.Restoring)
  }

  predicate Saving(h: Host, save: Save, before: Record, after: Record) {
    match save
    case Loading => h.state == Whole(before)
    case Truncating(r) => h.state == Whole(before) && r == after
    case Writing(r) => h.state == Torn && r == after
  }

  function WithOrigin(env: RsEnv, r: Record): Record {
    if env.foreign.Some? then Apply(FromHost(env.foreign.value), r) else r
  }

  /** What the state file holds at each step, and that no snapshot is ever touched. */
  ghost predicate RecordInv(env: RsEnv, s: Rs) {
    && s.h.snapshots == s.base.snapshots
    && (s.pc.RsReconcile? || s.pc.RsLoad? || s.pc == RsErr(Early) ||
        (s.base.state.Whole? && RecordAt(env, s, s.base.state.record)))
    && (s.pc == RsErr(Early) ==> s.h.state == s.base.state)
  }

  ghost predicate RecordAt(env: RsEnv, s: Rs, st: Record) {
    var h := s.h;
    match s.pc
    case RsReconcile(_) => true
    case RsLoad => true
    case RsResolve => h.state == Whole(st)
    case RsVerify => h.state == Whole(st)
    case RsUnpack => h.state == Whole(st)
    case RsRootfs => h.state == Whole(st)
    case RsMark(save) => Saving(h, save, st, Marked(st))
    case RsCommit(pid, save) => Saving(h, save, Marked(st), Apply(ToRestored(pid), Marked(st)))
    case RsOrigin(pid, save) =>
      var restored := Apply(ToRestored(pid), Marked(st));
      env.foreign.Some? && Saving(h, save, restored, WithOrigin(env, restored))
    case RsSweep(pid) => h.state == Whole(WithOrigin(env, Apply(ToRestored(pid), Marked(st))))
    case RsOk(pid) => h.state == Whole(WithOrigin(env, Apply(ToRestored(pid), Marked(st))))
    case RsUnmark(save) => Saving(h, save, Marked(st), st.(status := Checkpointed))
    case RsErr(Early) => true
    case RsErr(Marking) => h.state == Whole(st) || h.state == Torn
    case RsErr(Build) => h.state == Whole(Marked(st))
    case RsErr(RolledBack(true)) => h.state == Whole(st.(status := Checkpointed))
    case RsErr(RolledBack(false)) => h.state == Whole(Marked(st)) || h.state == Torn
    case RsErr(Commit(pid)) =>
      h.state == Torn || h.state == Whole(Marked(st)) || h.state == Whole(Apply(ToRestored(pid), Marked(st)))
    case _ => h.state == Whole(Marked(st))
  }

  // The steps in groups, so that each invariant is kept group by group.

  predicate EarlyPc(pc: RsPc) {
    pc.RsReconcile? || pc.RsLoad? || pc.RsResolve? || pc.RsVerify? || pc.RsUnpack? || pc.RsRootfs?
  }

  predicate MarkingPc(pc: RsPc) {
    pc.RsMark?
  }

  predicate UnmarkingPc(pc: RsPc) {
    pc.RsUnmark?
  }

  predicate BuildingPc(pc: RsPc) {
    pc.RsPrepare? || pc.RsCgroup? || pc.RsApply? || pc.RsEngine?
  }

  predicate RisingPc(pc: RsPc) {
    pc.RsAlive? || pc.RsJoin? || pc.RsIsolate? || pc.RsNetwork?
  }

  predicate CommittingPc(pc: RsPc) {
    pc.RsCommit?
  }

  predicate OriginPc(pc: RsPc) {
    pc.RsOrigin?
  }

  predicate UndoingPc(pc: RsPc) {
    pc.RsUndo?
  }

  predicate SettledPc(pc: RsPc) {
    pc.RsSweep? || pc.RsOk? || pc.RsErr?
  }

  lemma RecordInvKept(env: RsEnv, s: Rs, c: Choice)
    requires RecordInv(env, s)
    ensures RecordInv(env, RsNext(env, s, c))
  {
    hide RecordInv, RsNext;
    if EarlyPc(s.pc) {
      RecordKeptEarly(env, s, c);
    } else if MarkingPc(s.pc) {
      RecordKeptMarking(env, s, c);
    } else if UnmarkingPc(s.pc) {
      RecordKeptUnmarking(env, s, c);
    } else if BuildingPc(s.pc) {
      RecordKeptBuilding(env, s, c);
    } else if RisingPc(s.pc) {
      RecordKeptRising(env, s, c);
    } else if CommittingPc(s.pc) {
      RecordKeptCommitting(env, s, c);
    } else if OriginPc(s.pc) {
      RecordKeptOrigin(env, s, c);
    } else if UndoingPc(s.pc) {
      RecordKeptUndoing(env, s, c);
    } else {
      RecordKeptSettled(env, s, c);
    }
  }

  lemma RecordKeptEarly(env: RsEnv, s: Rs, c: Choice)
    requires EarlyPc(s.pc) && RecordInv(env, s)
    ensures RecordInv(env, RsNext(env, s, c))
  {
    hide RcNext, ResolveSnapshot;
    if s.pc.RsReconcile? {
      RcKeepsSnapshots(s.h, s.pc.rc, env.cfg, c.ok);
    }
  }

  lemma RecordKeptMarking(env: RsEnv, s: Rs, c: Choice)
    requires MarkingPc(s.pc) && RecordInv(env, s)
    ensures RecordInv(env, RsNext(env, s, c))
  {
  }

  lemma RecordKeptUnmarking(env: RsEnv, s: Rs, c: Choice)
    requires UnmarkingPc(s.pc) && RecordInv(env, s)
    ensures RecordInv(env, RsNext(env, s, c))
  {
  }

  lemma RecordKeptBuilding(env: RsEnv, s: Rs, c: Choice)
    requires BuildingPc(s.pc) && RecordInv(env, s)
    ensures RecordInv(env, RsNext(env, s, c))
  {
    hide Apply, SaveStep, Marked, WithOrigin;
  }

  lemma RecordKeptRising(env: RsEnv, s: Rs, c: Choice)
    requires RisingPc(s.pc) && RecordInv(env, s)
    ensures RecordInv(env, RsNext(env, s, c))
  {
    hide Apply;
  }

  lemma RecordKeptCommitting(env: RsEnv, s: Rs, c: Choice)
    requires CommittingPc(s.pc) && RecordInv(env, s)
    ensures RecordInv(env, RsNext(env, s, c))
  {
  }

  lemma RecordKeptOrigin(env: RsEnv, s: Rs, c: Choice)
    requires OriginPc(s.pc) && RecordInv(env, s)
    ensures RecordInv(env, RsNext(env, s, c))
  {
  }

  lemma RecordKeptUndoing(env: RsEnv, s: Rs, c: Choice)
    requires UndoingPc(s.pc) && RecordInv(env, s)
    ensures RecordInv(env, RsNext(env, s, c))
  {
    hide RemoveCgroup, Apply, SaveStep, WithOrigin;
    UndoKeepsRecord(s, s.pc.step);
  }

  lemma UndoKeepsRecord(s: Rs, step: UndoStep)
    ensures var s' := UndoNext(s, step);
            s'.h.state == s.h.state && s'.h.snapshots == s.h.snapshots && s'.base == s.base
  {
  }

  lemma RecordKeptSettled(env: RsEnv, s: Rs, c: Choice)
    requires SettledPc(s.pc) && RecordInv(env, s)
    ensures RecordInv(env, RsNext(env, s, c))
  {
    hide Apply;
  }

  lemma RcKeepsSnapshots(h: Host, rc: RcPc, cfg: Config, ok: bool)
    ensures RcNext(h, rc, cfg, ok).0.snapshots == h.snapshots && RcNext(h, rc, cfg, ok).0.live <= h.live
  {
  }

  // ----- host resources along the way ---------------------------------------------------------

  /** Nothing of the container on the host but its record and snapshots. */
  predicate Clean(h: Host) {
    h.live == {} && h.cgroup == None && !h.veth
  }

  /** At most the tree `p`, in at most its own cgroup. */
  predicate AtMost(h: Host, p: Option<Pid>) {
    h.live <= Only(p) && (h.cgroup.Some? ==> h.cgroup.value <= Only(p))
  }

  function Only(p: Option<Pid>): set<Pid> {
    if p.Some? then {p.value} else {}
  }

  /** Which resources exist at each step, and that the undo list knows about each of them. */
  ghost predicate ResourceInv(s: Rs) {
    && (EarlyPc(s.pc) || s.pc == RsErr(Early) ==> Untouched(s.base, s.h))
    && (Clean(s.base) ==> ResourceAt(s.h, s.rb, s.pc))
  }

  /** As it was, but for the staging directory and what has gone by itself since. */
  predicate Untouched(base: Host, h: Host) {
    && h == base.(staging := h.staging, live := h.live, veth := h.veth, state := h.state)
    && h.live <= base.live && (h.veth ==> base.veth)
  }

  ghost predicate ResourceAt(h: Host, rb: Undoing, pc: RsPc) {
    match pc
    case RsReconcile(_) => true
    case RsLoad => true
    case RsApply => h.live == {} && h.cgroup == Some({}) && !h.veth && rb == Undoing(None, false, false, true)
    case RsEngine => h.live == {} && h.cgroup == Some({}) && !h.veth && rb == Undoing(None, true, false, true)
    case RsAlive(pid) => Raised(h, rb, pid) && !h.veth
    case RsJoin(pid) => Raised(h, rb, pid) && !h.veth
    case RsIsolate(pid) => Raised(h, rb, pid) && !h.veth
    case RsNetwork(pid) => Raised(h, rb, pid) && !h.veth
    case RsCommit(pid, _) => Raised(h, rb, pid)
    case RsOrigin(pid, _) => Raised(h, rb, pid)
    case RsSweep(pid) => Raised(h, rb, pid)
    case RsOk(pid) => AtMost(h, Some(pid)) && h.cgroup.Some? && !h.staging
    case RsUndo(UndoNetwork) => AtMost(h, rb.pid) && rb.cgroup && (h.veth ==> rb.network)
    case RsUndo(UndoTree) => AtMost(h, rb.pid) && rb.cgroup && !h.veth
    case RsUndo(UndoCgroup) => h.live == {} && rb.cgroup && !h.veth
    case RsUndo(UndoStaging) => Clean(h)
    case RsUnmark(_) => Clean(h) && !h.staging
    case RsErr(Build) => h.live == {} && !h.veth && (h.cgroup.Some? ==> h.cgroup.value == {})
    case RsErr(RolledBack(_)) => Clean(h) && !h.staging
    case RsErr(Commit(pid)) => AtMost(h, Some(pid))
    case _ => Clean(h) && (pc.RsPrepare? || pc.RsCgroup? ==> rb == Undoing(None, false, false, true))
  }

  predicate Raised(h: Host, rb: Undoing, pid: Pid) {
    && AtMost(h, Some(pid)) && h.cgroup.Some? && (h.veth ==> rb.network)
    && rb.pid == Some(pid) && rb.cgroup && rb.armed
  }

  lemma ResourceInvKept(env: RsEnv, s: Rs, c: Choice)
    requires ResourceInv(s)
    ensures ResourceInv(RsNext(env, s, c))
  {
    hide ResourceInv, RsNext;
    if EarlyPc(s.pc) {
      ResourceKeptEarly(env, s, c);
    } else if MarkingPc(s.pc) {
      ResourceKeptMarking(env, s, c);
    } else if UnmarkingPc(s.pc) {
      ResourceKeptUnmarking(env, s, c);
    } else if BuildingPc(s.pc) {
      ResourceKeptBuilding(env, s, c);
    } else if RisingPc(s.pc) {
      ResourceKeptRising(env, s, c);
    } else if CommittingPc(s.pc) {
      ResourceKeptCommitting(env, s, c);
    } else if OriginPc(s.pc) {
      ResourceKeptOrigin(env, s, c);
    } else if UndoingPc(s.pc) {
      ResourceKeptUndoing(env, s, c);
    } else {
      ResourceKeptSettled(env, s, c);
    }
  }

  lemma ResourceKeptEarly(env: RsEnv, s: Rs, c: Choice)
    requires EarlyPc(s.pc) && ResourceInv(s)
    ensures ResourceInv(RsNext(env, s, c))
  {
    hide RcNext, ResolveSnapshot;
  }

  lemma ResourceKeptMarking(env: RsEnv, s: Rs, c: Choice)
    requires MarkingPc(s.pc) && ResourceInv(s)
    ensures ResourceInv(RsNext(env, s, c))
  {
    hide Untouched;
  }

  lemma ResourceKeptUnmarking(env: RsEnv, s: Rs, c: Choice)
    requires UnmarkingPc(s.pc) && ResourceInv(s)
    ensures ResourceInv(RsNext(env, s, c))
  {
    hide Untouched;
  }

  lemma ResourceKeptBuilding(env: RsEnv, s: Rs, c: Choice)
    requires BuildingPc(s.pc) && ResourceInv(s)
    ensures ResourceInv(RsNext(env, s, c))
  {
    hide Untouched;
  }

  lemma ResourceKeptRising(env: RsEnv, s: Rs, c: Choice)
    requires RisingPc(s.pc) && ResourceInv(s)
    ensures ResourceInv(RsNext(env, s, c))
  {
    hide Untouched;
  }

  lemma ResourceKeptCommitting(env: RsEnv, s: Rs, c: Choice)
    requires CommittingPc(s.pc) && ResourceInv(s)
    ensures ResourceInv(RsNext(env, s, c))
  {
    hide Untouched;
  }

  lemma ResourceKeptOrigin(env: RsEnv, s: Rs, c: Choice)
    requires OriginPc(s.pc) && ResourceInv(s)
    ensures ResourceInv(RsNext(env, s, c))
  {
    hide Untouched;
  }

  lemma ResourceKeptUndoing(env: RsEnv, s: Rs, c: Choice)
    requires UndoingPc(s.pc) && ResourceInv(s)
    ensures ResourceInv(RsNext(env, s, c))
  {
    hide RemoveCgroup, Untouched;
    if Clean(s.base) && s.pc == RsUndo(UndoTree) {
      KillsAll(s.h, s.rb.pid);
    }
    if Clean(s.base) && s.pc == RsUndo(UndoCgroup) {
      assert s.h.cgroup.Some? ==> s.h.cgroup.value !! s.h.live;
    }
  }

  lemma ResourceKeptSettled(env: RsEnv, s: Rs, c: Choice)
    requires SettledPc(s.pc) && ResourceInv(s)
    ensures ResourceInv(RsNext(env, s, c))
  {
    hide Untouched;
  }

  lemma KillsAll(h: Host, p: Option<Pid>)
    requires AtMost(h, p)
    ensures (if p.Some? then Kill(h, p.value) else h).live == {}
  {
  }

  // ----- who is alive, from any start ---------------------------------------------------------------

  ghost predicate LiveInv(s: Rs) {
    LiveAt(s.base.live, s.h.live, s.rb.pid, s.pc)
  }

  /** Nobody but who was there before, and the one tree the restore raised. */
  predicate LiveAt(before: set<Pid>, live: set<Pid>, undo: Option<Pid>, pc: RsPc) {
    match pc
    case RsAlive(pid) => live <= before + {pid} && undo == Some(pid)
    case RsJoin(pid) => live <= before + {pid} && undo == Some(pid)
    case RsIsolate(pid) => live <= before + {pid} && undo == Some(pid)
    case RsNetwork(pid) => live <= before + {pid} && undo == Some(pid)
    case RsCommit(pid, _) => live <= before + {pid}
    case RsOrigin(pid, _) => live <= before + {pid}
    case RsSweep(pid) => live <= before + {pid}
    case RsOk(pid) => live <= before + {pid}
    case RsErr(Commit(pid)) => live <= before + {pid}
    case RsUndo(UndoNetwork) => live <= before + Only(undo)
    case RsUndo(UndoTree) => live <= before + Only(undo)
    case _ => live <= before
  }

  lemma LiveInvKept(env: RsEnv, s: Rs, c: Choice)
    requires LiveInv(s)
    ensures LiveInv(RsNext(env, s, c))
  {
    hide LiveInv, RsNext;
    if EarlyPc(s.pc) || MarkingPc(s.pc) || UnmarkingPc(s.pc) {
      LiveKeptQuiet(env, s, c);
    } else if UndoingPc(s.pc) {
      LiveKeptUndoing(env, s, c);
    } else if CommittingPc(s.pc) || OriginPc(s.pc) {
      LiveKeptCommitting(env, s, c);
    } else {
      LiveKeptBuilding(env, s, c);
    }
  }

  lemma LiveKeptQuiet(env: RsEnv, s: Rs, c: Choice)
    requires LiveInv(s) && (EarlyPc(s.pc) || MarkingPc(s.pc) || UnmarkingPc(s.pc))
    ensures LiveInv(RsNext(env, s, c))
  {
    hide RcNext, ResolveSnapshot, SaveStep;
  }

  lemma LiveKeptUndoing(env: RsEnv, s: Rs, c: Choice)
    requires LiveInv(s) && UndoingPc(s.pc)
    ensures LiveInv(RsNext(env, s, c))
  {
    UndoStepIs(env, s, c);
    UndoLive(s, s.pc.step);
    hide RsNext;
  }

  lemma UndoStepIs(env: RsEnv, s: Rs, c: Choice)
    requires s.pc.RsUndo?
    ensures RsNext(env, s, c) == UndoNext(s, s.pc.step)
  {
  }

  lemma UndoLive(s: Rs, step: UndoStep)
    requires LiveInv(s) && s.pc == RsUndo(step)
    ensures LiveInv(UndoNext(s, step))
  {
    hide RemoveCgroup;
  }

  lemma LiveKeptCommitting(env: RsEnv, s: Rs, c: Choice)
    requires LiveInv(s) && (CommittingPc(s.pc) || OriginPc(s.pc))
    ensures LiveInv(RsNext(env, s, c))
  {
    hide SaveStep;
  }

  lemma LiveKeptBuilding(env: RsEnv, s: Rs, c: Choice)
    requires LiveInv(s) && (BuildingPc(s.pc) || RisingPc(s.pc) || SettledPc(s.pc))
    ensures LiveInv(RsNext(env, s, c))
  {
    hide SaveStep;
  }

  // ----- what a tree that has been raised holds ----------------------------------------------------

  ghost predicate BuiltInv(env: RsEnv, s: Rs) {
    && (Staged(s.pc) ==> s.h.staging) && (s.pc.RsOk? ==> !s.rb.armed)
    && (Clean(s.base) ==>
          match s.pc
          case RsIsolate(pid) => s.h.cgroup == Some({pid})
          case RsNetwork(pid) => s.h.cgroup == Some({pid})
          case RsCommit(pid, _) => s.h.cgroup == Some({pid}) && Networked(env, s.h)
          case RsOrigin(pid, _) => s.h.cgroup == Some({pid}) && Networked(env, s.h)
          case RsErr(Commit(pid)) => s.h.cgroup == Some({pid}) && Networked(env, s.h)
          case _ => true)
  }

  /** The veth is there if one was asked for, until the tree has ended. */
  predicate Networked(env: RsEnv, h: Host) {
    (h.veth ==> env.network) && (h.live != {} ==> h.veth == env.network)
  }

  predicate Staged(pc: RsPc) {
    || pc.RsRootfs? || pc.RsMark? || BuildingPc(pc) || RisingPc(pc) || pc.RsCommit? || pc.RsOrigin?
    || pc == RsErr(Marking) || pc == RsErr(Build) || (pc.RsErr? && pc.stage.Commit?)
  }

  lemma BuiltInvKept(env: RsEnv, s: Rs, c: Choice)
    requires BuiltInv(env, s) && ResourceInv(s)
    ensures BuiltInv(env, RsNext(env, s, c))
  {
    hide BuiltInv, ResourceInv, RsNext;
    if EarlyPc(s.pc) || UndoingPc(s.pc) || UnmarkingPc(s.pc) || SettledPc(s.pc) {
      BuiltKeptElsewhere(env, s, c);
    } else if MarkingPc(s.pc) || CommittingPc(s.pc) || OriginPc(s.pc) {
      BuiltKeptSaving(env, s, c);
    } else {
      BuiltKeptRising(env, s, c);
    }
  }

  lemma BuiltKeptElsewhere(env: RsEnv, s: Rs, c: Choice)
    requires BuiltInv(env, s) && (EarlyPc(s.pc) || UndoingPc(s.pc) || UnmarkingPc(s.pc) || SettledPc(s.pc))
    ensures BuiltInv(env, RsNext(env, s, c))
  {
    hide RcNext, ResolveSnapshot, SaveStep, RemoveCgroup, Clean;
  }

  lemma BuiltKeptSaving(env: RsEnv, s: Rs, c: Choice)
    requires BuiltInv(env, s) && (MarkingPc(s.pc) || CommittingPc(s.pc) || OriginPc(s.pc))
    ensures BuiltInv(env, RsNext(env, s, c))
  {
    hide SaveStep, Clean;
  }

  lemma BuiltKeptRising(env: RsEnv, s: Rs, c: Choice)
    requires BuiltInv(env, s) && ResourceInv(s) && (BuildingPc(s.pc) || RisingPc(s.pc))
    ensures BuiltInv(env, RsNext(env, s, c))
  {
    hide Clean, Untouched;
    if s.pc.RsJoin? && Clean(s.base) {
      assert s.h.cgroup.value + {s.pc.pid} == {s.pc.pid};
    }
  }

  // ----- what has been checked before anything is built -----------------------------------------------

  /** Past everything that is checked before the host is touched. */
  predicate Building(pc: RsPc) {
    !EarlyPc(pc) && pc != RsErr(Early)
  }

  /** The record says running, and the tree it names is alive. */
  ghost predicate Alive(h: Host) {
    h.state.Whole? && h.state.record.status == Running && exists p :: h.state.record.pid == Some(p) && p in h.live
  }

  /** The snapshot to restore from: the one asked for, or else the recorded one if it is there, or else `latest`. */
  ghost predicate Selects(from: Option<Path>, h: Host, src: Path) {
    && h.state.Whole? && src in h.snapshots
    && (from.Some? ==> src == from.value)
    && (from.None? && (exists p :: h.state.record.snapshot == Some(p) && p in h.snapshots) ==>
          h.state.record.snapshot == Some(src))
    && (from.None? && !(exists p :: h.state.record.snapshot == Some(p) && p in h.snapshots) ==> src == "latest")
  }

  ghost predicate CheckedInv(env: RsEnv, s: Rs) {
    && (s.pc.RsResolve? || s.pc.RsVerify? || s.pc.RsUnpack? || s.pc.RsRootfs? || Building(s.pc) ==>
          s.base.state.Whole? && !Alive(s.base))
    && (s.pc.RsVerify? || s.pc.RsUnpack? || s.pc.RsRootfs? || Building(s.pc) ==> Selects(env.from, s.base, s.src))
    && (s.pc.RsUnpack? || s.pc.RsRootfs? || Building(s.pc) ==>
          s.src in s.base.snapshots && env.verifies(s.base.snapshots[s.src]))
    && (s.pc.RsRootfs? || Building(s.pc) ==> env.unpacks(s.base.snapshots[s.src]))
  }

  lemma CheckedKept(env: RsEnv, s: Rs, c: Choice)
    requires RecordInv(env, s) && CheckedInv(env, s)
    ensures CheckedInv(env, RsNext(env, s, c))
  {
    hide RsNext, CheckedInv, RecordInv;
    if EarlyPc(s.pc) {
      CheckedEarly(env, s, c);
    } else {
      BuildingStays(env, s, c);
      CheckedStays(env, s, RsNext(env, s, c));
    }
  }

  lemma CheckedEarly(env: RsEnv, s: Rs, c: Choice)
    requires EarlyPc(s.pc) && RecordInv(env, s) && CheckedInv(env, s)
    ensures CheckedInv(env, RsNext(env, s, c))
  {
    hide RsNext, CheckedInv, RecordInv;
    if s.pc.RsReconcile? {
      CheckedSweeping(env, s, c);
    } else if s.pc.RsLoad? {
      CheckedLoading(env, s, c);
    } else if s.pc.RsResolve? {
      CheckedResolving(env, s, c);
    } else {
      CheckedReading(env, s, c);
    }
  }

  lemma CheckedSweeping(env: RsEnv, s: Rs, c: Choice)
    requires s.pc.RsReconcile?
    ensures CheckedInv(env, RsNext(env, s, c))
  {
    hide RcNext, Alive, Selects;
  }

  lemma CheckedLoading(env: RsEnv, s: Rs, c: Choice)
    requires s.pc.RsLoad?
    ensures CheckedInv(env, RsNext(env, s, c))
  {
    hide RcNext, SaveStep, Selects;
  }

  lemma CheckedResolving(env: RsEnv, s: Rs, c: Choice)
    requires s.pc.RsResolve? && RecordInv(env, s) && CheckedInv(env, s)
    ensures CheckedInv(env, RsNext(env, s, c))
  {
    hide RcNext, SaveStep, Alive;
    var st := s.base.state.record;
    if st.snapshot.Some? {
      assert st.snapshot == Some(st.snapshot.value);
    }
  }

  lemma CheckedReading(env: RsEnv, s: Rs, c: Choice)
    requires (s.pc.RsVerify? || s.pc.RsUnpack? || s.pc.RsRootfs?) && RecordInv(env, s) && CheckedInv(env, s)
    ensures CheckedInv(env, RsNext(env, s, c))
  {
    hide RcNext, SaveStep, Alive, Selects;
  }

  lemma CheckedStays(env: RsEnv, s: Rs, s': Rs)
    requires CheckedInv(env, s) && !EarlyPc(s.pc) && !EarlyPc(s'.pc)
    requires s'.base == s.base && s'.src == s.src && (Building(s'.pc) ==> Building(s.pc))
    ensures CheckedInv(env, s')
  {
    hide Alive, Selects;
  }

  lemma BuildingStays(env: RsEnv, s: Rs, c: Choice)
    requires !EarlyPc(s.pc)
    ensures var s' := RsNext(env, s, c);
            !EarlyPc(s'.pc) && s'.base == s.base && s'.src == s.src && (Building(s'.pc) ==> Building(s.pc))
  {
    hide RsNext;
    if s.pc.RsUndo? {
      UndoStepIs(env, s, c);
      UndoStays(s, s.pc.step);
    } else if BuildingPc(s.pc) || RisingPc(s.pc) || SettledPc(s.pc) {
      RaisingStays(env, s, c);
    } else {
      SavingStays(env, s, c);
    }
  }

  lemma UndoStays(s: Rs, step: UndoStep)
    ensures var s' := UndoNext(s, step); (s'.pc.RsUndo? || s'.pc.RsUnmark?) && s'.base == s.base && s'.src == s.src
  {
    hide RemoveCgroup;
  }

  lemma RaisingStays(env: RsEnv, s: Rs, c: Choice)
    requires BuildingPc(s.pc) || RisingPc(s.pc) || SettledPc(s.pc)
    ensures var s' := RsNext(env, s, c);
            !EarlyPc(s'.pc) && s'.base == s.base && s'.src == s.src && (Building(s'.pc) ==> Building(s.pc))
  {
    hide SaveStep;
  }

  lemma SavingStays(env: RsEnv, s: Rs, c: Choice)
    requires s.pc.RsMark? || s.pc.RsUnmark? || s.pc.RsCommit? || s.pc.RsOrigin?
    ensures var s' := RsNext(env, s, c); !EarlyPc(s'.pc) && s'.base == s.base && s'.src == s.src
  {
    hide SaveStep;
  }

  // ----- when the record can be torn ------------------------------------------------------------------

  /** The steps at which the record can be found torn: a save that has truncated it, or a failure out of one. */
  predicate MayTear(pc: RsPc) {
    match pc
    case RsReconcile(rc) => rc == RcFailed || (rc.RcLabel? && rc.save.Writing?)
    case RsMark(save) => save.Writing?
    case RsCommit(_, save) => save.Writing?
    case RsOrigin(_, save) => save.Writing?
    case RsUnmark(save) => save.Writing?
    case RsErr(stage) => stage != Build && stage != RolledBack(true)
    case _ => false
  }

  ghost predicate TornInv(s: Rs) {
    && (s.h.state.Torn? ==> MayTear(s.pc))
    && (s.pc == RsReconcile(RcDone) || s.pc == RsLoad ==> !s.h.state.Torn?)
  }

  lemma TornInvKept(env: RsEnv, s: Rs, c: Choice)
    requires TornInv(s)
    ensures TornInv(RsNext(env, s, c))
  {
    hide TornInv, RsNext;
    if s.pc.RsReconcile? {
      TornKeptReconciling(env, s, c);
    } else if MarkingPc(s.pc) || UnmarkingPc(s.pc) {
      TornKeptMarking(env, s, c);
    } else if CommittingPc(s.pc) || OriginPc(s.pc) {
      TornKeptCommitting(env, s, c);
    } else {
      TornKeptElsewhere(env, s, c);
    }
  }

  lemma TornKeptReconciling(env: RsEnv, s: Rs, c: Choice)
    requires TornInv(s) && s.pc.RsReconcile?
    ensures TornInv(RsNext(env, s, c))
  {
    hide RemoveCgroup, HasSnapshot, Stale, Apply;
  }

  lemma TornKeptMarking(env: RsEnv, s: Rs, c: Choice)
    requires TornInv(s) && (MarkingPc(s.pc) || UnmarkingPc(s.pc))
    ensures TornInv(RsNext(env, s, c))
  {
    hide Apply;
  }

  lemma TornKeptCommitting(env: RsEnv, s: Rs, c: Choice)
    requires TornInv(s) && (CommittingPc(s.pc) || OriginPc(s.pc))
    ensures TornInv(RsNext(env, s, c))
  {
    hide Apply;
  }

  lemma TornKeptElsewhere(env: RsEnv, s: Rs, c: Choice)
    requires TornInv(s) && !s.pc.RsReconcile? && !MarkingPc(s.pc) && !UnmarkingPc(s.pc)
    requires !CommittingPc(s.pc) && !OriginPc(s.pc)
    ensures TornInv(RsNext(env, s, c))
  {
    hide RemoveCgroup, SaveStep, RcNext, ResolveSnapshot;
  }

  // ----- whole runs ---------------------------------------------------------------------------

  /** What happens unasked disturbs none of the accounts. */
  lemma DriftKept(env: RsEnv, s: Rs, e: Event)
    requires RecordInv(env, s) && ResourceInv(s) && LiveInv(s) && BuiltInv(env, s)
    ensures var s' := s.(h := Drift(s.h, e));
            RecordInv(env, s') && ResourceInv(s') && LiveInv(s') && BuiltInv(env, s')
  {
    RecordDriftKept(env, s, e);
    ResourceDriftKept(s, e);
    LiveDriftKept(s, e);
    hide RecordInv, ResourceInv, LiveInv, Drift;
  }

  lemma RecordDriftKept(env: RsEnv, s: Rs, e: Event)
    requires RecordInv(env, s)
    ensures RecordInv(env, s.(h := Drift(s.h, e)))
  {
    hide Drift;
  }

  lemma ResourceDriftKept(s: Rs, e: Event)
    requires ResourceInv(s)
    ensures ResourceInv(s.(h := Drift(s.h, e)))
  {
    hide Drift;
    if Clean(s.base) {
      assert s.h.live == {} ==> Drift(s.h, e).live == {};
    }
  }

  lemma LiveDriftKept(s: Rs, e: Event)
    requires LiveInv(s)
    ensures LiveInv(s.(h := Drift(s.h, e)))
  {
    hide Drift;
  }

  /** All accounts hold at every point of every run, so also wherever a run is killed. */
  lemma {:induction false} RestoreInvariant(env: RsEnv, h: Host, t: seq<Rs>)
    requires RsTrace(env, h, t)
    ensures var s := t[|t| - 1]; RecordInv(env, s) && ResourceInv(s) && LiveInv(s) && BuiltInv(env, s)
    ensures CheckedInv(env, t[|t| - 1])
    ensures !h.state.Torn? ==> TornInv(t[|t| - 1])
    decreases |t|
  {
    hide RecordInv, ResourceInv, LiveInv, BuiltInv, CheckedInv, TornInv, RsNext, Drift;
    if |t| == 1 {
      BeginHolds(env, h);
    } else {
      var init, s, s' := t[..|t| - 1], t[|t| - 2], t[|t| - 1];
      RestoreInvariant(env, h, init);
      assert RsStep(env, t[|t| - 2], t[|t| - 2 + 1]);
      if exists c :: s' == RsNext(env, s, c) {
        var c :| s' == RsNext(env, s, c);
        RecordInvKept(env, s, c);
        ResourceInvKept(env, s, c);
        LiveInvKept(env, s, c);
        BuiltInvKept(env, s, c);
        CheckedKept(env, s, c);
        if !h.state.Torn? {
          TornInvKept(env, s, c);
        }
      } else {
        var e :| s' == s.(h := Drift(s.h, e));
        DriftKept(env, s, e);
        CheckedDriftKept(env, s, e);
        TornDriftKept(s, e);
      }
    }
  }

  lemma CheckedDriftKept(env: RsEnv, s: Rs, e: Event)
    requires CheckedInv(env, s)
    ensures CheckedInv(env, s.(h := Drift(s.h, e)))
  {
    hide Drift, Alive, Selects;
  }

  lemma TornDriftKept(s: Rs, e: Event)
    ensures TornInv(s) ==> TornInv(s.(h := Drift(s.h, e)))
  {
    hide Drift;
  }

  lemma BeginHolds(env: RsEnv, h: Host)
    ensures var s := Begin(h);
            RecordInv(env, s) && ResourceInv(s) && LiveInv(s) && BuiltInv(env, s) && CheckedInv(env, s)
    ensures !h.state.Torn? ==> TornInv(Begin(h))
  {
  }

  /**
   Nothing is built that was not checked: past the checks, the restore works from the selected snapshot,
   which the reader has verified and unpacked, for a record that can be read and does not name a running
   tree.
   */
  lemma BuildsOnlyChecked(env: RsEnv, h: Host, t: seq<Rs>)
    requires RsTrace(env, h, t)
    ensures var s := t[|t| - 1];
            Building(s.pc) ==>
              && Selects(env.from, s.base, s.src)
              && env.verifies(s.base.snapshots[s.src]) && env.unpacks(s.base.snapshots[s.src])
              && !Alive(s.base)
  {
    hide RsStep, RecordInv, ResourceInv, LiveInv, BuiltInv, TornInv, Alive, Selects;
    RestoreInvariant(env, h, t);
  }

  /** The record a restore writes: running under the new pid, one restore more, and what that makes obsolete cleared. */
  function RestoredAs(env: RsEnv, st: Record, pid: Pid): Record {
    st.(status := Running, pid := Some(pid), supervisor := None, exitCode := None,
        generation := (st.generation + 1) % 0x1_0000_0000,
        origin := if env.foreign.Some? then env.foreign else st.origin)
  }

  /** A restore that ends well has written that record, whatever else happened, and cleaned up after itself. */
  lemma SuccessIsRecorded(env: RsEnv, h: Host, t: seq<Rs>)
    requires RsTrace(env, h, t) && t[|t| - 1].pc.RsOk?
    ensures var s := t[|t| - 1];
            && s.base.state.Whole? && s.h.state == Whole(RestoredAs(env, s.base.state.record, s.pc.pid))
            && s.h.live <= s.base.live + {s.pc.pid} && s.h.snapshots == s.base.snapshots
            && (Clean(s.base) ==> !s.h.staging) && !s.rb.armed
  {
    hide RsStep, TornInv, CheckedInv;
    RestoreInvariant(env, h, t);
  }

  /**
   No failed call is passed over: before the marking the restore ends there, with nothing to undo; from
   there to the engine call it ends as a failed build; from the engine call on it rolls back.
   */
  lemma FaultsStop(env: RsEnv, s: Rs, c: Choice)
    requires !c.ok
    ensures var s' := RsNext(env, s, c);
            && (s.pc.RsLoad? || s.pc.RsVerify? || s.pc.RsUnpack? || s.pc.RsRootfs? ==> s'.pc == RsErr(Early))
            && (s.pc.RsMark? ==> s'.pc == RsErr(Marking))
            && (s.pc.RsPrepare? || s.pc.RsCgroup? || s.pc.RsApply? ==> s'.pc == RsErr(Build))
            && (s.pc.RsEngine? || s.pc.RsJoin? || s.pc.RsIsolate? || (s.pc.RsNetwork? && env.network) ==>
                  s'.pc == RsUndo(UndoNetwork) && s'.h == s.h && s'.rb == s.rb)
            && (s.pc.RsCommit? ==> s'.pc == RsErr(Commit(s.pc.pid)))
  {
    hide RcNext, RemoveCgroup, ResolveSnapshot;
  }

  /** A cgroup that is already there is used as it is; a new one starts empty. */
  lemma CgroupIsKept(env: RsEnv, s: Rs, c: Choice)
    requires s.pc.RsCgroup? && c.ok
    ensures RsNext(env, s, c).h.cgroup == if s.h.cgroup == None then Some({}) else s.h.cgroup
  {
    hide RcNext, RemoveCgroup, ResolveSnapshot, SaveStep;
  }

  /** A tree that has died since the engine call is noticed, and rolled back. */
  lemma DeadTreeStops(env: RsEnv, s: Rs, c: Choice)
    requires s.pc.RsAlive?
    ensures RsNext(env, s, c).pc == if s.pc.pid in s.h.live then RsJoin(s.pc.pid) else RsUndo(UndoNetwork)
  {
    hide RcNext, RemoveCgroup, ResolveSnapshot, SaveStep;
  }

  /** A container that is running stays as it is, and alone: as long as its tree lives, a restore is refused. */
  lemma {:induction false} RunningIsRefused(env: RsEnv, h: Host, t: seq<Rs>, p: Pid)
    requires RsTrace(env, h, t)
    requires h.state.Whole? && h.state.record.status == Running && h.state.record.pid == Some(p)
    requires forall i :: 0 <= i < |t| ==> p in t[i].h.live
    ensures var s := t[|t| - 1];
            && (s.pc == RsReconcile(RcLoad) || s.pc == RsReconcile(RcDone) || s.pc == RsReconcile(RcFailed)
                || s.pc == RsLoad || s.pc == RsErr(Early))
            && s.h == h.(live := s.h.live, veth := s.h.veth) && s.h.live <= h.live
    decreases |t|
  {
    hide RsNext, Drift;
    if |t| == 1 {
    } else {
      var s, s' := t[|t| - 2], t[|t| - 1];
      assert p in t[|t| - 2].h.live;
      RunningIsRefused(env, h, t[..|t| - 1], p);
      assert RsStep(env, t[|t| - 2], t[|t| - 2 + 1]);
      if exists c :: s' == RsNext(env, s, c) {
        var c :| s' == RsNext(env, s, c);
        RefusesRunning(env, s, c, p);
      }
    }
  }

  lemma RefusesRunning(env: RsEnv, s: Rs, c: Choice, p: Pid)
    requires s.h.state.Whole? && s.h.state.record.status == Running && s.h.state.record.pid == Some(p) && p in s.h.live
    requires s.pc == RsReconcile(RcLoad) || s.pc == RsReconcile(RcDone) || s.pc == RsReconcile(RcFailed)
             || s.pc == RsLoad || s.pc == RsErr(Early)
    ensures var s' := RsNext(env, s, c);
            && s'.h == s.h
            && (s'.pc == RsReconcile(RcDone) || s'.pc == RsReconcile(RcFailed) || s'.pc == RsLoad
                || s'.pc == RsErr(Early))
  {
  }

  /** What a failed restore leaves, by where it gave up, exactly. */
  ghost predicate Leaves(env: RsEnv, base: Host, h: Host, stage: Stage) {
    match stage
    case Early => Untouched(base, h) && h.state == base.state
    case Marking =>
      Clean(base) ==> h == base.(staging := true, state := h.state) && (h.state == base.state || h.state == Torn)
    case Build =>
      Clean(base) ==>
        && base.state.Whole? && (h.cgroup == None || h.cgroup == Some({}))
        && h == base.(staging := true, cgroup := h.cgroup, state := Whole(Marked(base.state.record)))
    case RolledBack(relabelled) =>
      Clean(base) ==>
        && base.state.Whole? && h == base.(staging := false, state := h.state)
        && (if relabelled then h.state == Whole(base.state.record.(status := Checkpointed))
            else h.state == Whole(Marked(base.state.record)) || h.state == Torn)
    case Commit(pid) =>
      Clean(base) ==>
        && base.state.Whole? && h.live <= {pid}
        && h == base.(staging := true, live := h.live, cgroup := Some({pid}), veth := h.veth, state := h.state)
        && Networked(env, h)
        && (h.state == Torn || h.state == Whole(Marked(base.state.record))
            || h.state == Whole(Apply(ToRestored(pid), Marked(base.state.record))))
  }

  /**
   What a failed restore leaves behind. A failure before the record is marked changes nothing but the
   staging directory. A failure of or after the engine call that runs the rollback leaves the host as it
   was found, with the record checkpointed if it could be rewritten. A failure before the engine call is
   brought to the same state by the next reconcile. But a failure to save the restored record, or its
   origin, undoes nothing: a failed restore leaves a live tree if and only if that is where it failed
   and the tree has not ended on its own.
   */
  lemma FailedRestoreIsClean(env: RsEnv, h: Host, t: seq<Rs>)
    requires RsTrace(env, h, t) && t[|t| - 1].pc.RsErr?
    ensures var s := t[|t| - 1];
            && Leaves(env, s.base, s.h, s.pc.stage)
            && (s.base.live == {} ==> (s.h.live != {} <==> s.pc.stage.Commit? && s.pc.stage.pid in s.h.live))
            && (s.pc.stage == Build && Clean(s.base) && env.cfg.Some? ==> SweptClean(s.base, Reconcile(s.h, env.cfg)))
            && (s.pc.stage == RolledBack(false) && Clean(s.base) && !s.h.state.Torn? ==>
                  SweptClean(s.base, Reconcile(s.h, env.cfg)))
  {
    RestoreInvariant(env, h, t);
    var s := t[|t| - 1];
    hide RsTrace;
    if Clean(s.base) && s.pc.stage == Build && env.cfg.Some? {
      BuildFailureSweeps(s.base, s.h, env.cfg);
    } else if Clean(s.base) && s.pc.stage == RolledBack(false) && !s.h.state.Torn? {
      CleanFailureSweeps(s.base, s.h, env.cfg);
    }
  }

  /** As it was found, with the record relabelled by a sweep. */
  ghost predicate SweptClean(base: Host, r: Host) {
    && base.state.Whole?
    && var st := base.state.record;
       r == base.(staging := false, state := Whole(Apply(ToReconciled(HasSnapshot(base, st)), st)))
  }

  lemma BuildFailureSweeps(base: Host, h: Host, cfg: Config)
    requires Clean(base) && base.state.Whole? && cfg.Some? && h.snapshots == base.snapshots
    requires h.live == {} && !h.veth && (h.cgroup.Some? ==> h.cgroup.value == {})
    requires h.state == Whole(Marked(base.state.record))
    ensures SweptClean(base, Reconcile(h, cfg))
  {
  }

  lemma CleanFailureSweeps(base: Host, h: Host, cfg: Config)
    requires Clean(base) && base.state.Whole? && h == base.(staging := false, state := Whole(Marked(base.state.record)))
    ensures SweptClean(base, Reconcile(h, cfg))
  {
  }

  /**
   After a failure to save, with the tree alive, what the next reconcile does depends on how far the
   save got: the tree of a record that still says restoring and does not name it survives as an orphan;
   a record that already says running is right about it and stays; a torn one cannot be read.
   */
  lemma FailedCommitReconciles(env: RsEnv, h: Host, t: seq<Rs>)
    requires RsTrace(env, h, t) && t[|t| - 1].pc.RsErr? && t[|t| - 1].pc.stage.Commit?
    requires var s := t[|t| - 1]; s.base.live == {} && s.h.live != {}
    ensures var s := t[|t| - 1];
            var pid := s.pc.stage.pid;
            var r := Reconcile(s.h, env.cfg);
            && s.h.live == {pid} && s.base.state.Whole?
            && (s.h.state == Whole(Marked(s.base.state.record)) ==>
                  (r.live == {pid} <==> s.base.state.record.pid != Some(pid)) && !(r.state.Whole? && Recorded(r, pid)))
            && (s.h.state == Whole(Apply(ToRestored(pid), Marked(s.base.state.record))) ==>
                  r == s.h && Recorded(r, pid))
            && (s.h.state.Torn? ==> r == s.h)
  {
    RestoreInvariant(env, h, t);
    hide RsTrace;
    var s := t[|t| - 1];
    assert s.h.live == {s.pc.stage.pid};
    ReconcileSettles(s.h, env.cfg);
  }

  /** Processes of the container that no record accounts for. */
  predicate Orphaned(h: Host) {
    exists p :: p in h.live && !Recorded(h, p)
  }

  /** The steps between the engine's success and the rewritten record, or its undoing. */
  predicate Unrecorded(pc: RsPc) {
    || pc.RsAlive? || pc.RsJoin? || pc.RsIsolate? || pc.RsNetwork? || pc.RsCommit?
    || pc == RsUndo(UndoNetwork) || pc == RsUndo(UndoTree) || (pc.RsErr? && pc.stage.Commit?)
  }

  /**
   Killing a restore at any point and reconciling. With a whole record the host is settled, except in
   one window: a tree the engine has brought back but the record does not name survives the sweep, and
   the record then says checkpointed. That happens exactly when the record still says restoring and a
   tree it does not name is alive. A torn record stays as it is, and can only come from a save that was
   cut between truncating and rewriting.
   */
  lemma CrashedRestoreSettles(env: RsEnv, h: Host, t: seq<Rs>)
    requires RsTrace(env, h, t)
    ensures var s := t[|t| - 1];
            var r := Reconcile(s.h, env.cfg);
            && (exists p :: s.h.live <= s.base.live + {p})
            && (s.h.state.Whole? ==> (Orphaned(r) <==> WillOrphan(s.h, s.h.state.record)))
            && (s.h.state.Whole? && s.base.live == {} ==>
                  && (Orphaned(r) <==> s.h.state.record.status == Status.Restoring
                                       && exists p :: p in s.h.live && s.h.state.record.pid != Some(p))
                  && (s.h.state.record.status == Status.Restoring && s.h.live != {} ==> Unrecorded(s.pc))
                  && (Orphaned(r) && HasSnapshot(s.h, s.h.state.record) ==> r.state.record.status == Checkpointed))
            && (s.h.state.Torn? ==> r == s.h && (h.state.Torn? || MayTear(s.pc)))
            && r.snapshots == s.base.snapshots
  {
    hide RsStep;
    RestoreInvariant(env, h, t);
    var s := t[|t| - 1];
    ReconcileSettles(s.h, env.cfg);
    OneTree(s);
    if s.h.state.Whole? {
      OrphansIn(s.h, env.cfg);
      if s.base.live == {} {
        LiveIsKnown(env, s);
        OrphanMeans(s.h, env.cfg);
      }
    }
  }

  /** A tree the record does not name, under a record the sweep would relabel; or one under any other record. */
  predicate WillOrphan(h: Host, st: Record) {
    exists p :: p in h.live && (st.pid != Some(p) || (st.status != Running && !Stale(st, h.live)))
  }

  lemma OneTree(s: Rs)
    requires LiveInv(s)
    ensures exists p :: s.h.live <= s.base.live + {p}
  {
    var p := match s.pc
      case RsAlive(pid) => pid
      case RsJoin(pid) => pid
      case RsIsolate(pid) => pid
      case RsNetwork(pid) => pid
      case RsCommit(pid, _) => pid
      case RsOrigin(pid, _) => pid
      case RsSweep(pid) => pid
      case RsOk(pid) => pid
      case RsErr(Commit(pid)) => pid
      case _ => if s.rb.pid.Some? then s.rb.pid.value else 0;
    assert s.h.live <= s.base.live + {p};
  }

  lemma OrphansIn(h: Host, cfg: Config)
    requires h.state.Whole?
    ensures Orphaned(Reconcile(h, cfg)) <==> WillOrphan(h, h.state.record)
  {
    ReconcileSettles(h, cfg);
    var st, r := h.state.record, Reconcile(h, cfg);
    if Stale(st, h.live) {
      assert forall p :: p in r.live <==> p in h.live && st.pid != Some(p);
    }
  }

  /** A live tree is under a record that says restoring, or is the one the record names. */
  lemma LiveIsKnown(env: RsEnv, s: Rs)
    requires RecordInv(env, s) && LiveInv(s) && s.base.live == {} && s.h.state.Whole?
    ensures forall p :: p in s.h.live ==> s.h.state.record.status == Status.Restoring || Recorded(s.h, p)
    ensures s.h.state.record.status == Status.Restoring && s.h.live != {} ==> Unrecorded(s.pc)
  {
  }

  lemma OrphanMeans(h: Host, cfg: Config)
    requires h.state.Whole?
    requires forall p :: p in h.live ==> Transient(h.state.record.status) || Recorded(h, p)
    ensures Orphaned(Reconcile(h, cfg)) <==>
              Transient(h.state.record.status) && exists p :: p in h.live && h.state.record.pid != Some(p)
    ensures Reconcile(h, cfg).snapshots == h.snapshots
    ensures Transient(h.state.record.status) && HasSnapshot(h, h.state.record) ==>
              Reconcile(h, cfg).state.Whole? && Reconcile(h, cfg).state.record.status == Checkpointed
  {
    ReconcileSettles(h, cfg);
    var st, r := h.state.record, Reconcile(h, cfg);
    if Transient(st.status) {
      assert forall p :: p in r.live <==> p in h.live && st.pid != Some(p);
    }
  }

  /**
   A torn record is for ever: every restore, and the reconcile it begins with, stops at reading it and
   changes nothing on the host.
   */
  lemma {:induction false} TornIsForever(env: RsEnv, h: Host, t: seq<Rs>)
    requires RsTrace(env, h, t) && h.state.Torn?
    ensures var s := t[|t| - 1];
            && s.h == h.(live := s.h.live, veth := s.h.veth) && s.h.live <= h.live
            && (s.pc == RsReconcile(RcLoad) || s.pc == RsReconcile(RcFailed) || s.pc == RsErr(Early))
    decreases |t|
  {
    hide RsNext, Drift;
    if |t| == 1 {
    } else {
      var s, s' := t[|t| - 2], t[|t| - 1];
      TornIsForever(env, h, t[..|t| - 1]);
      assert RsStep(env, t[|t| - 2], t[|t| - 2 + 1]);
      if exists c :: s' == RsNext(env, s, c) {
        var c :| s' == RsNext(env, s, c);
        TornStops(env, s, c);
      }
    }
  }

  lemma TornStops(env: RsEnv, s: Rs, c: Choice)
    requires s.h.state.Torn? && (s.pc == RsReconcile(RcLoad) || s.pc == RsReconcile(RcFailed) || s.pc == RsErr(Early))
    ensures var s' := RsNext(env, s, c); s'.h == s.h && (s'.pc == RsReconcile(RcFailed) || s'.pc == RsErr(Early))
  {
  }

  // ----- runs that do happen ----------------------------------------------------------------------

  /** A settled record that is not running, a snapshot the reader accepts, and no cgroup in the way. */
  predicate Restorable(env: RsEnv, h: Host, src: Path) {
    && h.state.Whole? && !Stale(h.state.record, h.live) && h.state.record.status != Running
    && (h.cgroup == None || h.cgroup == Some({}))
    && ResolveSnapshot(env.from, h, h.state.record) == Some(src) && src in h.snapshots
    && env.verifies(h.snapshots[src]) && env.unpacks(h.snapshots[src])
  }

  /** `n` steps in which the outside world always answers the same. */
  function RsRun(env: RsEnv, s: Rs, c: Choice, n: nat): Rs
    decreases n, s
  {
    if n == 0 then s else RsNext(env, RsRun(env, s, c, n - 1), c)
  }

  lemma {:induction false} RunTrace(env: RsEnv, h: Host, c: Choice, n: nat) returns (t: seq<Rs>)
    ensures RsTrace(env, h, t) && t[|t| - 1] == RsRun(env, Begin(h), c, n)
  {
    hide RsNext;
    if n == 0 {
      t := [Begin(h)];
    } else {
      var init := RunTrace(env, h, c, n - 1);
      t := init + [RsNext(env, init[|init| - 1], c)];
      forall i | 0 <= i < |t| - 1 ensures RsStep(env, t[i], t[i + 1]) {
        if i < |init| - 1 {
          assert RsStep(env, init[i], init[i + 1]);
        }
      }
    }
  }

  lemma {:induction false} RunOn(env: RsEnv, s: Rs, c: Choice, m: nat, n: nat)
    ensures RsRun(env, s, c, m + n) == RsRun(env, RsRun(env, s, c, m), c, n)
    decreases n
  {
    hide RsNext;
    if n == 0 {
    } else {
      RunOn(env, s, c, m, n - 1);
    }
  }

  /** Two steps at a time. */
  lemma RunTwo(env: RsEnv, s: Rs, c: Choice)
    ensures RsRun(env, s, c, 2) == RsNext(env, RsNext(env, s, c), c)
  {
    hide RsNext;
    assert RsRun(env, s, c, 1) == RsNext(env, RsRun(env, s, c, 0), c);
  }

  /** The host up to the engine call: marked, staged, with an empty cgroup. */
  function AtEngine(h: Host, src: Path): Rs
    requires h.state.Whole?
  {
    Rs(h.(staging := true, state := Whole(Marked(h.state.record)), cgroup := Some({})),
       RsEngine, Undoing(None, true, false, true), src, h)
  }

  lemma ReachMark(env: RsEnv, h: Host, src: Path, c: Choice)
    requires Restorable(env, h, src) && c.ok
    ensures RsRun(env, Begin(h), c, 7) == Rs(h.(staging := true), RsMark(Loading), NOTHING_TO_UNDO, src, h)
  {
    var s1 := RsNext(env, Begin(h), c);
    var s2 := RsNext(env, s1, c);
    assert s2.pc == RsLoad && s2.h == h;
    var s3 := RsNext(env, s2, c);
    var s4 := RsNext(env, s3, c);
    assert s4.pc == RsVerify && s4.h == h && s4.src == src;
    var s5 := RsNext(env, s4, c);
    var s6 := RsNext(env, s5, c);
    var s7 := RsNext(env, s6, c);
    hide RsNext;
    SevenSteps(env, Begin(h), c);
  }

  function FourMore(env: RsEnv, s: Rs, c: Choice): Rs {
    RsNext(env, RsNext(env, RsNext(env, RsNext(env, s, c), c), c), c)
  }

  lemma RunFour(env: RsEnv, s: Rs, c: Choice, n: nat)
    ensures RsRun(env, s, c, n + 4) == FourMore(env, RsRun(env, s, c, n), c)
  {
    hide RsNext;
    var s0 := RsRun(env, s, c, n);
    RunTwo(env, s0, c);
    RunOn(env, s, c, n, 2);
    var s2 := RsNext(env, RsNext(env, s0, c), c);
    RunTwo(env, s2, c);
    RunOn(env, s, c, n + 2, 2);
  }

  lemma SevenSteps(env: RsEnv, s: Rs, c: Choice)
    ensures var s2 := RsNext(env, RsNext(env, s, c), c);
            var s4 := RsNext(env, RsNext(env, s2, c), c);
            var s6 := RsNext(env, RsNext(env, s4, c), c);
            RsRun(env, s, c, 7) == RsNext(env, s6, c)
  {
    hide RsNext;
    RunTwo(env, s, c);
    var s2 := RsNext(env, RsNext(env, s, c), c);
    RunTwo(env, s2, c);
    RunOn(env, s, c, 2, 2);
    var s4 := RsNext(env, RsNext(env, s2, c), c);
    RunTwo(env, s4, c);
    RunOn(env, s, c, 4, 2);
  }

  /** Up to the engine call nothing stands in the way. */
  lemma ReachEngine(env: RsEnv, h: Host, src: Path, c: Choice)
    requires Restorable(env, h, src) && c.ok
    ensures RsRun(env, Begin(h), c, 13) == AtEngine(h, src)
  {
    hide RsNext, FourMore, RsRun;
    ReachMark(env, h, src, c);
    RunFour(env, Begin(h), c, 7);
    RunTwo(env, RsRun(env, Begin(h), c, 11), c);
    RunOn(env, Begin(h), c, 11, 2);
    MarkToEngine(env, h, src, c);
  }

  lemma MarkToEngine(env: RsEnv, h: Host, src: Path, c: Choice)
    requires h.state.Whole? && (h.cgroup == None || h.cgroup == Some({})) && c.ok
    ensures var s := FourMore(env, Rs(h.(staging := true), RsMark(Loading), NOTHING_TO_UNDO, src, h), c);
            RsNext(env, RsNext(env, s, c), c) == AtEngine(h, src)
  {
    var s3 := Rs(h.(staging := true, state := Whole(Marked(h.state.record))), RsPrepare,
                 Undoing(None, false, false, true), src, h);
    MarkSaves(env, h, src, c);
    PrepareToEngine(env, s3, c);
    hide RsNext;
  }

  lemma MarkSaves(env: RsEnv, h: Host, src: Path, c: Choice)
    requires h.state.Whole? && c.ok
    ensures var s := Rs(h.(staging := true), RsMark(Loading), NOTHING_TO_UNDO, src, h);
            RsNext(env, RsNext(env, RsNext(env, s, c), c), c)
            == Rs(h.(staging := true, state := Whole(Marked(h.state.record))), RsPrepare,
                  Undoing(None, false, false, true), src, h)
  {
  }

  lemma PrepareToEngine(env: RsEnv, s: Rs, c: Choice)
    requires c.ok && s.pc == RsPrepare && (s.h.cgroup == None || s.h.cgroup == Some({}))
    ensures RsNext(env, RsNext(env, RsNext(env, s, c), c), c)
            == s.(h := s.h.(cgroup := Some({})), rb := s.rb.(cgroup := true), pc := RsEngine)
  {
  }

  /** The engine's success makes the tree live before anything records it. */
  lemma ReachAlive(env: RsEnv, h: Host, src: Path, c: Choice)
    requires Restorable(env, h, src) && c.ok && c.pid !in h.live
    ensures var s := RsRun(env, Begin(h), c, 14);
            s == AtEngine(h, src).(h := AtEngine(h, src).h.(live := h.live + {c.pid}),
                                   rb := Undoing(Some(c.pid), true, false, true), pc := RsAlive(c.pid))
  {
    ReachEngine(env, h, src, c);
    assert RsRun(env, Begin(h), c, 14) == RsNext(env, RsRun(env, Begin(h), c, 13), c);
  }

  /** The host right after the engine call. */
  function Raising(h: Host, pid: Pid): Host
    requires h.state.Whole?
  {
    h.(staging := true, state := Whole(Marked(h.state.record)), cgroup := Some({}), live := h.live + {pid})
  }

  /**
   The window is real: from every restorable host, a restore killed right after the engine call
   leaves a live tree, and the sweep that follows keeps it, with the record labelled as if it were not
   there, unless the record happened to name the very pid the engine chose.
   */
  lemma OrphanHappens(env: RsEnv, h: Host, src: Path, pid: Pid) returns (t: seq<Rs>)
    requires Restorable(env, h, src) && pid !in h.live
    ensures RsTrace(env, h, t) && t[|t| - 1].h == Raising(h, pid)
    ensures var r := Reconcile(t[|t| - 1].h, env.cfg);
            && (Orphaned(r) && pid in r.live <==> h.state.record.pid != Some(pid)) && r.state.Whole?
            && r.state.record.status == (if HasSnapshot(h, h.state.record) then Checkpointed else Failed)
  {
    hide RsRun, RsStep, Restorable;
    RestorableRecord(env, h, src);
    t := RunTrace(env, h, Choice(true, pid), 14);
    ReachAlive(env, h, src, Choice(true, pid));
    RaisingOrphans(h, pid, env.cfg);
  }

  lemma RaisingOrphans(h: Host, pid: Pid, cfg: Config)
    requires h.state.Whole? && pid !in h.live
    ensures var r := Reconcile(Raising(h, pid), cfg);
            && (Orphaned(r) && pid in r.live <==> h.state.record.pid != Some(pid)) && r.state.Whole?
            && r.state.record == Apply(ToReconciled(HasSnapshot(h, h.state.record)), Marked(h.state.record))
            && (r.cgroup == None || r.cgroup == Some({})) && r.snapshots == h.snapshots
            && (h.live == {} && h.state.record.pid != Some(pid) ==> r.live == {pid})
  {
    var h1, st, r := Raising(h, pid), h.state.record, Reconcile(Raising(h, pid), cfg);
    ReconcileSettles(h1, cfg);
    SurvivesSweep(h1, cfg);
    assert pid in h1.live && !Recorded(r, pid);
    assert h.live == {} ==> h1.live == {pid};
  }

  /** All but the recorded tree survive the sweep of a stale record. */
  lemma SurvivesSweep(h: Host, cfg: Config)
    requires h.state.Whole? && Stale(h.state.record, h.live)
    ensures var r := Reconcile(h, cfg);
            && r.state.Whole? && r.state.record == Apply(ToReconciled(HasSnapshot(h, h.state.record)), h.state.record)
            && (forall p :: p in r.live <==> p in h.live && h.state.record.pid != Some(p))
            && r.snapshots == h.snapshots && (r.cgroup == h.cgroup || r.cgroup == None)
  {
    hide Stale, HasSnapshot;
  }

  lemma RunThree(env: RsEnv, s: Rs, c: Choice)
    ensures RsRun(env, s, c, 3) == RsNext(env, RsNext(env, RsNext(env, s, c), c), c)
  {
    hide RsNext;
    RunTwo(env, s, c);
  }

  lemma Rewrites(env: RsEnv, s: Rs, c: Choice, r: Record)
    requires c.ok && s.pc == RsCommit(c.pid, Loading) && s.h.state == Whole(r)
    ensures var s' := RsRun(env, s, c, 3);
            && s'.pc == (if env.foreign.Some? then RsOrigin(c.pid, Loading) else RsSweep(c.pid))
            && s'.h == s.h.(state := Whole(Apply(ToRestored(c.pid), r)))
  {
    hide Apply, RsRun;
    RunThree(env, s, c);
  }

  lemma NotesOrigin(env: RsEnv, s: Rs, c: Choice, r: Record)
    requires c.ok && env.foreign.Some? && s.pc == RsOrigin(c.pid, Loading) && s.h.state == Whole(r)
    ensures var s' := RsRun(env, s, c, 3); s'.pc == RsSweep(c.pid) && s'.h == s.h.(state := Whole(WithOrigin(env, r)))
  {
    hide Apply, RsRun;
    RunThree(env, s, c);
  }

  /** How many steps an undisturbed restore takes up to its last. */
  function StepsToSweep(env: RsEnv): nat {
    if env.foreign.Some? then 24 else 21
  }

  /** The host after an undisturbed restore, but for the staging directory. */
  lemma RestoreRuns(env: RsEnv, h: Host, src: Path, c: Choice)
    requires Restorable(env, h, src) && c.ok && c.pid !in h.live
    ensures var s := RsRun(env, Begin(h), c, StepsToSweep(env));
            && s.pc == RsSweep(c.pid) && s.h.live == h.live + {c.pid} && s.h.snapshots == h.snapshots
            && s.h.state == Whole(WithOrigin(env, Apply(ToRestored(c.pid), Marked(h.state.record))))
  {
    hide RsNext, RsRun, Apply, Marked, Restorable;
    ReachCommit(env, h, src, c);
    RestorableRecord(env, h, src);
    var s18 := RsRun(env, Begin(h), c, 18);
    Rewrites(env, s18, c, Marked(h.state.record));
    RunOn(env, Begin(h), c, 18, 3);
    if env.foreign.Some? {
      var s21 := RsRun(env, Begin(h), c, 21);
      NotesOrigin(env, s21, c, Apply(ToRestored(c.pid), Marked(h.state.record)));
      RunOn(env, Begin(h), c, 21, 3);
    }
  }

  lemma RestorableRecord(env: RsEnv, h: Host, src: Path)
    requires Restorable(env, h, src)
    ensures h.state.Whole?
  {
  }

  lemma Sweeps(env: RsEnv, s: Rs, c: Choice)
    requires s.pc == RsSweep(c.pid)
    ensures var s' := RsNext(env, s, c); s'.pc == RsOk(c.pid) && s'.h == s.h.(staging := false)
  {
  }

  lemma Extend(env: RsEnv, h: Host, t: seq<Rs>, c: Choice) returns (t': seq<Rs>)
    requires RsTrace(env, h, t)
    ensures RsTrace(env, h, t') && t'[|t'| - 1] == RsNext(env, t[|t| - 1], c)
  {
    hide RsNext;
    t' := t + [RsNext(env, t[|t| - 1], c)];
    forall i | 0 <= i < |t'| - 1 ensures RsStep(env, t'[i], t'[i + 1]) {
      if i < |t| - 1 {
        assert RsStep(env, t[i], t[i + 1]);
      }
    }
  }

  /** From every restorable host, a restore that meets no failure ends with the tree alive, recorded, and counted. */
  lemma RestoreSucceeds(env: RsEnv, h: Host, src: Path, pid: Pid) returns (t: seq<Rs>)
    requires Restorable(env, h, src) && pid !in h.live
    ensures RsTrace(env, h, t)
    ensures var s := t[|t| - 1];
            && s.pc == RsOk(pid) && s.h.live == h.live + {pid} && s.h.snapshots == h.snapshots
            && s.h.state == Whole(WithOrigin(env, Apply(ToRestored(pid), Marked(h.state.record))))
  {
    hide RsNext, Apply, RsRun, RsStep, Restorable, Marked, WithOrigin;
    var c := Choice(true, pid);
    RestorableRecord(env, h, src);
    RestoreRuns(env, h, src, c);
    t := RunTrace(env, h, c, StepsToSweep(env));
    Sweeps(env, t[|t| - 1], c);
    t := Extend(env, h, t, c);
  }

  /**
   And from every restorable host there is a restore that fails with the tree alive: the first read of
   the record after the engine call fails.
   */
  lemma CommitFailureHappens(env: RsEnv, h: Host, src: Path, pid: Pid) returns (t: seq<Rs>)
    requires Restorable(env, h, src) && pid !in h.live
    ensures RsTrace(env, h, t)
    ensures var s := t[|t| - 1];
            s.pc == RsErr(Commit(pid)) && s.h.live == h.live + {pid} && s.h.state == Whole(Marked(h.state.record))
  {
    hide RsNext, Apply, RsRun, RsStep, Restorable, Marked;
    var c := Choice(true, pid);
    RestorableRecord(env, h, src);
    ReachCommit(env, h, src, c);
    t := RunTrace(env, h, c, 18);
    SaveFails(env, t[|t| - 1], pid);
    t := Extend(env, h, t, Choice(false, pid));
  }

  lemma SaveFails(env: RsEnv, s: Rs, pid: Pid)
    requires s.pc == RsCommit(pid, Loading) || (s.pc == RsOrigin(pid, Loading) && env.foreign.Some?)
    ensures RsNext(env, s, Choice(false, pid)) == s.(pc := RsErr(Commit(pid)))
  {
  }

  lemma ReachCommit(env: RsEnv, h: Host, src: Path, c: Choice)
    requires Restorable(env, h, src) && c.ok && c.pid !in h.live
    ensures var s := RsRun(env, Begin(h), c, 18);
            && s.pc == RsCommit(c.pid, Loading) && s.h.live == h.live + {c.pid}
            && s.h.snapshots == h.snapshots && s.src == src
            && s.h.state == Whole(Marked(h.state.record))
  {
    hide RsNext, FourMore, RsRun;
    ReachAlive(env, h, src, c);
    RunFour(env, Begin(h), c, 14);
    RiseToCommit(env, RsRun(env, Begin(h), c, 14), c);
  }

  lemma RiseToCommit(env: RsEnv, s: Rs, c: Choice)
    requires c.ok && s.pc == RsAlive(c.pid) && c.pid in s.h.live && s.h.cgroup.Some?
    ensures var s' := FourMore(env, s, c);
            && s'.pc == RsCommit(c.pid, Loading) && s'.h.live == s.h.live && s'.h.snapshots == s.h.snapshots
            && s'.src == s.src && s'.h.state == s.h.state
  {
  }

  // ----- running it again -------------------------------------------------------------------------------

  /** A restore in its opening sweep. */
  function InSweep(h: Host, rc: RcPc): Rs {
    Rs(h, RsReconcile(rc), NOTHING_TO_UNDO, "", h)
  }

  lemma SweepStep(env: RsEnv, h: Host, rc: RcPc, c: Choice)
    requires c.ok && rc != RcDone && rc != RcFailed
    ensures var (h', rc') := RcNext(h, rc, env.cfg, true); RsNext(env, InSweep(h, rc), c) == InSweep(h', rc')
  {
    hide RcNext;
  }

  lemma SweepToStaging(env: RsEnv, h: Host, st: Record, c: Choice)
    requires c.ok && h.state == Whole(st) && Stale(st, h.live)
    ensures var v := SweepVeth(SweepCgroup(KillRecorded(h, st), env.cfg), env.cfg);
            FourMore(env, InSweep(h, RcLoad), c) == InSweep(v, RcStaging(st))
  {
    hide RsNext, KillRecorded, SweepCgroup, SweepVeth, Stale, InSweep;
    var k := KillRecorded(h, st);
    var g := SweepCgroup(k, env.cfg);
    SweepStep(env, h, RcLoad, c);
    SweepStep(env, h, RcKill(st), c);
    SweepStep(env, k, RcCgroup(st), c);
    SweepStep(env, g, RcVeth(st), c);
  }

  lemma SweepToWriting(env: RsEnv, h: Host, st: Record, c: Choice)
    requires c.ok && h.state == Whole(st)
    ensures var w := h.(staging := false);
            var r := Apply(ToReconciled(HasSnapshot(h, st)), st);
            FourMore(env, InSweep(h, RcStaging(st)), c)
            == InSweep(w.(state := Torn), RcLabel(HasSnapshot(h, st), Writing(r)))
  {
    hide RsNext, InSweep, Apply;
    var w, has := h.(staging := false), HasSnapshot(h, st);
    SweepStep(env, h, RcStaging(st), c);
    SweepStep(env, w, RcProbe(st), c);
    SweepStep(env, w, RcLabel(has, Loading), c);
    SweepStep(env, w, RcLabel(has, Truncating(Apply(ToReconciled(has), st))), c);
  }

  /** Nine steps take the opening sweep of a stale record to its end, where a restore of the swept host starts. */
  lemma SweepsFirst(env: RsEnv, h: Host, c: Choice, n: nat)
    requires h.state.Whole? && Stale(h.state.record, h.live) && c.ok
    ensures RsRun(env, Begin(h), c, 9 + n) == RsRun(env, Begin(Reconcile(h, env.cfg)), c, 1 + n)
  {
    hide RsNext, RsRun, FourMore, InSweep, HasSnapshot, Apply, Stale, KillRecorded, SweepCgroup, SweepVeth;
    var st := h.state.record;
    var v := SweepVeth(SweepCgroup(KillRecorded(h, st), env.cfg), env.cfg);
    var has := HasSnapshot(v, st);
    var r := Apply(ToReconciled(has), st);
    BeginsInSweep(env, h, c);
    SweptKeeps(h, st, env.cfg);
    StagingOnly(v, h, st, env.cfg);
    SweepToStaging(env, h, st, c);
    SweepToWriting(env, v, st, c);
    RunFour(env, Begin(h), c, 0);
    RunFour(env, Begin(h), c, 4);
    SweepStep(env, v.(staging := false, state := Torn), RcLabel(has, Writing(r)), c);
    RunOn(env, Begin(h), c, 8, 1);
    RunOne(env, InSweep(v.(staging := false, state := Torn), RcLabel(has, Writing(r))), c);
    var r' := Reconcile(h, env.cfg);
    SettledBegins(env, h, c);
    RunOn(env, Begin(h), c, 9, n);
    RunOn(env, Begin(r'), c, 1, n);
  }

  lemma StagingOnly(v: Host, h: Host, st: Record, cfg: Config)
    requires v == SweepVeth(SweepCgroup(KillRecorded(h, st), cfg), cfg)
    ensures v.(staging := false) == Swept(h, st, cfg) && v.state == h.state && v.snapshots == h.snapshots
    ensures HasSnapshot(v, st) == HasSnapshot(h, st)
  {
  }

  lemma RunOne(env: RsEnv, s: Rs, c: Choice)
    ensures RsRun(env, s, c, 1) == RsNext(env, s, c)
  {
    hide RsNext;
    assert RsRun(env, s, c, 0) == s;
  }

  lemma BeginsInSweep(env: RsEnv, h: Host, c: Choice)
    ensures Begin(h) == InSweep(h, RcLoad) && RsRun(env, Begin(h), c, 0) == Begin(h)
  {
  }

  lemma SettledBegins(env: RsEnv, h: Host, c: Choice)
    requires c.ok
    ensures var r := Reconcile(h, env.cfg); r.state.Whole? ==> RsRun(env, Begin(r), c, 1) == InSweep(r, RcDone)
  {
    hide RsNext, RsRun, Reconcile;
    var r := Reconcile(h, env.cfg);
    ReconcileSettles(h, env.cfg);
    if r.state.Whole? {
      BeginsInSweep(env, r, c);
      SweepStep(env, r, RcLoad, c);
      RunOne(env, Begin(r), c);
    }
  }

  /**
   A restore that was killed cannot always simply be run again: from every restorable host, killed right
   after the engine call and run again, it ends well with both its trees alive, on one node.
   */
  lemma RetryLivesTwice(env: RsEnv, h: Host, src: Path, p: Pid, q: Pid) returns (killed: seq<Rs>, again: seq<Rs>)
    requires Restorable(env, h, src) && h.live == {} && p != q && h.state.record.pid != Some(p)
    ensures RsTrace(env, h, killed) && RsTrace(env, killed[|killed| - 1].h, again)
    ensures again[|again| - 1].pc == RsOk(q) && again[|again| - 1].h.live == {p, q}
  {
    hide RsStep, RsNext, RsRun, Restorable, Apply, HasSnapshot, Marked;
    RestorableRecord(env, h, src);
    killed := OrphanHappens(env, h, src, p);
    var h1, c := Raising(h, p), Choice(true, q);
    RaisingOrphans(h, p, env.cfg);
    var h2 := Reconcile(h1, env.cfg);
    RetryRestorable(env, h, src, h2);
    RestoreRuns(env, h2, src, c);
    var n := StepsToSweep(env) - 1;
    RaisingStale(h, p);
    SweepsFirst(env, h1, c, n);
    again := RunTrace(env, h1, c, 9 + n);
    Sweeps(env, again[|again| - 1], c);
    again := Extend(env, h1, again, c);
    assert {p} + {q} == {p, q};
  }

  lemma RaisingStale(h: Host, p: Pid)
    requires h.state.Whole?
    ensures Raising(h, p).state.Whole? && Stale(Raising(h, p).state.record, Raising(h, p).live)
  {
  }

  lemma RetryRestorable(env: RsEnv, h: Host, src: Path, h2: Host)
    requires Restorable(env, h, src) && h2.state.Whole? && h2.snapshots == h.snapshots
    requires h2.state.record == Apply(ToReconciled(HasSnapshot(h, h.state.record)), Marked(h.state.record))
    requires h2.cgroup == None || h2.cgroup == Some({})
    ensures Restorable(env, h2, src)
  {
    hide HasSnapshot;
  }

  // ----- the undo list as the code keeps it -----------------------------------------------------------

  /** What running the undo list does to the host. */
  function Undone(h: Host, rb: Undoing): Host {
    if !rb.armed then h
    else
      var quiet := if rb.network then h.(veth := false) else h;
      var dead := if rb.pid.Some? then Kill(quiet, rb.pid.value) else quiet;
      (if rb.cgroup then RemoveCgroup(dead) else dead).(staging := false)
  }

  /** The four undo steps of the step model are one run of the list. */
  lemma UndoIsOneRun(s: Rs)
    requires s.pc == RsUndo(UndoNetwork) && s.rb.armed
    ensures var end := UndoNext(UndoNext(UndoNext(UndoNext(s, UndoNetwork), UndoTree), UndoCgroup), UndoStaging);
            end.h == Undone(s.h, s.rb) && end.pc == RsUnmark(Loading) && end.rb == NOTHING_TO_UNDO
  {
  }

  class Rollback {
    var pid: Option<Pid>
    var cgroup: bool
    var network: bool
    var armed: bool

    constructor ()
      ensures List() == Undoing(None, false, false, true)
    {
      pid, cgroup, network, armed := None, false, false, true;
    }

    ghost function List(): Undoing
      reads this
    {
      Undoing(pid, cgroup, network, armed)
    }

    method Disarm()
      modifies this
      ensures List() == old(List()).(armed := false)
    {
      armed := false;
    }

    /** Runs at most once: afterwards there is nothing left to undo, and running again changes nothing. */
    method Run(m: Machine)
      modifies this, m
      ensures m.host == Undone(old(m.host), old(List()))
      ensures List() == if old(armed) then NOTHING_TO_UNDO else old(List())
    {
      hide RemoveCgroup;
      if !armed {
        return;
      }
      armed := false;
      if network {
        network := false;
        m.host := m.host.(veth := false);
      }
      if pid.Some? {
        m.host := Kill(m.host, pid.value);
        pid := None;
      }
      if cgroup {
        cgroup := false;
        m.host := RemoveCgroup(m.host);
      }
      m.host := m.host.(staging := false);
    }
  }
}
