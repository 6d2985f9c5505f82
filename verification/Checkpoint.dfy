/** Freezing a container while its supervisor watches: every interleaving of `checkpoint` and `supervise`. */
module Checkpointing {
  import opened Bytes
  import opened Hosts
  import opened Reconciling

  /** Options, and the bytes packing would produce for a container whose record was `st`. */
  datatype CkEnv = CkEnv(leaveRunning: bool, dest: Path, pack: Record -> bytes)

  datatype CkPc =
    | CkStart
    | CkMark(pid: Pid, save: Save)
    | CkStage(pid: Pid)
    | CkDump(pid: Pid)
    | CkDumpFailed(status: Status, save: Save)
    | CkAwait
    | CkCgroup
    | CkCreate
    | CkPack
    | CkSweep
    | CkCommit(save: Save)
    | CkOk
    | CkErr

  datatype SupPc = SupWaiting | SupVeth | SupCgroup | SupReading | SupStopping(save: Save) | SupExited

  /**
   The supervisor reads the record once, and finds it frozen, that is checkpointing or checkpointed, or
   not; between a truncation and the rewriting there is nothing to read.
   */
  datatype Look = NotYet | SawFrozen | SawOther | Unreadable | SawTorn

  /**
   The host, the checkpointing command with the record it loaded, and the supervisor. `dumped`: the
   engine froze and killed the tree; `sawExit`: the wait for the supervisor saw it gone; `look`: how
   the supervisor's one look at the record went.
   */
  datatype Ck = Ck(h: Host, pc: CkPc, st: Record, sup: SupPc, dumped: bool, sawExit: bool, look: Look)

  /**
   A running container, supervised or restored, and a checkpoint about to begin.
   */
  ghost predicate CkBegin(s: Ck, pid: Pid) {
    && s.pc == CkStart && s.sup == SupWaiting && !s.dumped && !s.sawExit && s.look == NotYet
    && s.h.live <= {pid} && s.h.state.Whole? && s.h.state.record.status == Running
    && s.h.state.record.pid == Some(pid) && s.st == s.h.state.record
  }

  function CommitUpdate(env: CkEnv): Update {
    if env.leaveRunning then BackToRunning(env.dest) else ToCheckpointed(env.dest)
  }

  /** One step of `checkpoint`; `n` is how much of the file a write gets down. */
  function CkNext(env: CkEnv, s: Ck, ok: bool, n: nat): Ck {
    match s.pc
    case CkStart =>
      if ok && s.h.state.Whole? && s.h.state.record.status == Running && s.h.state.record.pid.Some?
         && s.h.state.record.pid.value in s.h.live
      then s.(st := s.h.state.record, pc := CkMark(s.h.state.record.pid.value, Loading))
      else s.(pc := CkErr)
    case CkMark(pid, save) =>
      var (h', p) := SaveStep(s.h, save, ToStatus(Status.Checkpointing), ok);
      (match p
       case Continue(save') => s.(h := h', pc := CkMark(pid, save'))
       case Saved => s.(h := h', pc := CkStage(pid))
       case SaveFailed => s.(h := h', pc := CkErr))
    case CkStage(pid) => if ok then s.(h := s.h.(staging := true), pc := CkDump(pid)) else s.(pc := CkErr)
    case CkDump(pid) =>
      if ok && pid in s.h.live then
        if env.leaveRunning then s.(pc := CkCreate)
        else s.(h := Kill(s.h, pid), dumped := true, pc := CkAwait)
      else s.(pc := CkDumpFailed(if pid in s.h.live then Running else Failed, Loading))
    case CkDumpFailed(status, save) =>
      var (h', p) := SaveStep(s.h, save, ToStatus(status), ok);
      (match p
       case Continue(save') => s.(h := h', pc := CkDumpFailed(status, save'))
       case Saved => s.(h := h', pc := CkErr)
       case SaveFailed => s.(h := h', pc := CkErr))
    case CkAwait =>
      if s.st.supervisor.None? then s.(pc := CkCgroup)
      else if s.sup == SupExited then s.(sawExit := true, pc := CkCgroup)
      else if ok then s
      else s.(pc := CkCgroup)
    case CkCgroup => s.(h := RemoveCgroup(s.h), pc := CkCreate)
    case CkCreate =>
      if ok then s.(h := s.h.(snapshots := s.h.snapshots[env.dest := []]), pc := CkPack) else s.(pc := CkErr)
    case CkPack =>
      var file := env.pack(Lifecycle(s.st));
      if !ok then s.(pc := CkErr)
      else if n < |file| then s.(h := s.h.(snapshots := s.h.snapshots[env.dest := file[..n]]))
      else s.(h := s.h.(snapshots := s.h.snapshots[env.dest := file]), pc := CkSweep)
    case CkSweep => s.(h := s.h.(staging := false), pc := CkCommit(Loading))
    case CkCommit(save) =>
      var (h', p) := SaveStep(s.h, save, CommitUpdate(env), ok);
      (match p
       case Continue(save') => s.(h := h', pc := CkCommit(save'))
       case Saved => s.(h := h', pc := CkOk)
       case SaveFailed => s.(h := h', pc := CkErr))
    case CkOk => s
    case CkErr => s
  }

  /** One step of `supervise` once it is waiting for the tree `pid`; a container restored has no supervisor. */
  function SupNext(s: Ck, pid: Pid, ok: bool, code: int): Ck {
    if s.st.supervisor.None? then s else Supervise(s, pid, ok, code)
  }

  function Supervise(s: Ck, pid: Pid, ok: bool, code: int): Ck {
    match s.sup
    case SupWaiting => if pid in s.h.live then s else s.(sup := SupVeth)
    case SupVeth => s.(h := s.h.(veth := false), sup := SupCgroup)
    case SupCgroup => s.(h := RemoveCgroup(s.h), sup := SupReading)
    case SupReading =>
      var frozen := ok && s.h.state.Whole?
        && (s.h.state.record.status == Status.Checkpointing || s.h.state.record.status == Checkpointed);
      s.(sup := if frozen then SupExited else SupStopping(Loading),
         look := if !ok then Unreadable else if !s.h.state.Whole? then SawTorn
                 else if frozen then SawFrozen else SawOther)
    case SupStopping(save) =>
      var (h', p) := SaveStep(s.h, save, ToStopped(code), ok);
      s.(h := h', sup := match p
                         case Continue(save') => SupStopping(save')
                         case Saved => SupExited
                         case SaveFailed => SupExited)
    case SupExited => s
  }

  /** A step of either, or something that happens unasked. */
  ghost predicate CkStep(env: CkEnv, pid: Pid, s: Ck, s': Ck) {
    || (exists ok, n: nat :: s' == CkNext(env, s, ok, n))
    || (exists ok, code :: s' == SupNext(s, pid, ok, code))
    || (exists e :: s' == s.(h := Drift(s.h, e)))
  }

  ghost predicate CkTrace(env: CkEnv, pid: Pid, t: seq<Ck>) {
    t != [] && CkBegin(t[0], pid) && forall i :: 0 <= i < |t| - 1 ==> CkStep(env, pid, t[i], t[i + 1])
  }

  // ----- invariants ---------------------------------------------------------------------------

  function MarkedFor(st: Record): Record {
    st.(status := Status.Checkpointing)
  }

  function Frozen(env: CkEnv, st: Record): Record {
    Apply(ToCheckpointed(env.dest), MarkedFor(st))
  }

  predicate Packed(env: CkEnv, s: Ck) {
    env.dest in s.h.snapshots && s.h.snapshots[env.dest] == env.pack(Lifecycle(s.st))
  }

  predicate Blind(s: Ck) {
    s.look == Unreadable || s.look == SawTorn
  }

  /** What the state file holds once the tree has been frozen, unless the supervisor looked blindly. */
  ghost predicate FrozenRecord(env: CkEnv, s: Ck) {
    match s.pc
    case CkCommit(Truncating(r)) => s.h.state == Whole(MarkedFor(s.st)) && r == Frozen(env, s.st)
    case CkCommit(Writing(r)) => s.h.state == Torn && r == Frozen(env, s.st)
    case CkOk => s.h.state == Whole(Frozen(env, s.st))
    case CkErr => s.h.state == Torn || s.h.state == Whole(MarkedFor(s.st))
    case _ => s.h.state == Whole(MarkedFor(s.st))
  }

  /** The supervisor stirs only after the tree is gone, and stops a frozen container only if it looked blindly. */
  ghost predicate Joint(env: CkEnv, pid: Pid, s: Ck) {
    && s.h.live <= {pid}
    && (!s.sup.SupStopping? && s.sup != SupExited ==> s.look == NotYet)
    && (s.sup == SupWaiting ==> QuietRecord(s))
    && (s.st.supervisor.None? ==> s.sup == SupWaiting)
    && (s.look == SawFrozen ==> s.sup == SupExited)
    && (s.dumped ==> s.look != SawOther)
    && (s.sup != SupWaiting ==> s.h.live == {})
    && (s.sup.SupStopping? && s.dumped ==> Blind(s))
    && (s.sawExit ==> s.sup == SupExited && s.dumped && s.look != SawTorn)
    && (BeforeDump(s.pc) || s.pc.CkDumpFailed? ==> !s.dumped)
    && (s.pc.CkMark? || s.pc.CkStage? || s.pc.CkDump? ==> s.pc.pid == pid)
    && (AfterDump(s.pc) && !env.leaveRunning ==> s.dumped)
    && (s.pc == CkAwait || s.pc == CkCgroup ==> s.dumped)
    && (s.dumped ==> !env.leaveRunning && s.h.live == {})
    && (s.dumped && !Blind(s) ==> FrozenRecord(env, s))
    && (s.dumped && s.look == SawTorn ==> (s.pc.CkCommit? && s.pc.save.Writing?) || s.pc == CkOk || s.pc == CkErr)
    && (s.pc.CkSweep? || s.pc.CkCommit? || s.pc == CkOk ==> Packed(env, s))
    && (s.pc == CkPack ==> env.dest in s.h.snapshots && s.h.snapshots[env.dest] <= env.pack(Lifecycle(s.st)))
    && s.st.pid == Some(pid) && s.st.status == Running
    && (s.pc == CkStart && s.h.state.Whole? && s.h.state.record.status == Running ==> s.h.state.record == s.st)
    && (s.sup.SupStopping? && !s.sup.save.Loading? ==> s.sup.save.r.status == Stopped)
  }

  predicate AfterDump(pc: CkPc) {
    !BeforeDump(pc) && !pc.CkDumpFailed? && pc != CkErr
  }

  predicate BeforeDump(pc: CkPc) {
    pc == CkStart || pc.CkMark? || pc.CkStage? || pc.CkDump?
  }

  /** Up to the dump, with the supervisor still asleep, only the checkpoint writes the record. */
  ghost predicate QuietRecord(s: Ck) {
    match s.pc
    case CkMark(_, Loading) => s.h.state == Whole(s.st)
    case CkMark(_, Truncating(r)) => s.h.state == Whole(s.st) && r == MarkedFor(s.st)
    case CkMark(_, Writing(r)) => s.h.state == Torn && r == MarkedFor(s.st)
    case CkStage(_) => s.h.state == Whole(MarkedFor(s.st))
    case CkDump(_) => s.h.state == Whole(MarkedFor(s.st))
    case _ => true
  }

  /**
   Every record in play, in the file or about to be written, descends from the one the container was
   running under; until the checkpoint ends each of them names its pid.
   */
  ghost predicate Lineage(pid: Pid, s: Ck) {
    && !s.h.state.Missing? && s.st.pid == Some(pid)
    && (s.h.state.Whole? ==> Descends(pid, s, s.h.state.record))
    && (SavingPc(s.pc) && !s.pc.save.Loading? ==> s.pc.save.r.generation == s.st.generation)
    && (SavingPc(s.pc) && !s.pc.save.Loading? ==>
          NamesOrEnded(pid, s.pc.save.r) && (!s.pc.CkCommit? ==> s.pc.save.r.pid == Some(pid)))
    && (s.sup.SupStopping? && !s.sup.save.Loading? ==> Descends(pid, s, s.sup.save.r))
    && (s.h.state.Torn? ==> TornBy(s))
  }

  predicate SavingPc(pc: CkPc) {
    pc.CkMark? || pc.CkDumpFailed? || pc.CkCommit?
  }

  predicate NamesOrEnded(pid: Pid, r: Record) {
    r.pid == Some(pid) || (!Transient(r.status) && r.status != Running)
  }

  predicate Descends(pid: Pid, s: Ck, r: Record) {
    && r.generation == s.st.generation && NamesOrEnded(pid, r)
    && (s.pc != CkOk && s.pc != CkErr ==> r.pid == Some(pid))
  }

  /** Who can have left the record torn: a save that has truncated it, or a command that failed or ended. */
  predicate TornBy(s: Ck) {
    || (SavingPc(s.pc) && s.pc.save.Writing?) || s.pc == CkErr
    || (s.sup.SupStopping? && s.sup.save.Writing?) || s.sup == SupExited
  }

  /** A supervisor that looked while the commit had the record truncated can only load the committed record. */
  ghost predicate TornLook(env: CkEnv, s: Ck) {
    s.dumped && s.look == SawTorn ==>
      match s.pc
      case CkCommit(Writing(r)) => r == Frozen(env, s.st) && s.h.state == Torn && NotLoaded(s.sup)
      case CkErr => s.h.state == Torn && NotLoaded(s.sup)
      case CkOk => Overwriting(s.h.state, s.sup, Frozen(env, s.st))
      case _ => false
  }

  predicate NotLoaded(sup: SupPc) {
    sup == SupStopping(Loading) || sup == SupExited
  }

  predicate Overwriting(file: StateFile, sup: SupPc, frozen: Record) {
    match sup
    case SupStopping(Loading) => file == Whole(frozen)
    case SupStopping(Truncating(r)) => file == Whole(frozen) && StoppedFrom(frozen, r)
    case SupStopping(Writing(r)) => file == Torn && StoppedFrom(frozen, r)
    case SupExited => file == Torn || file == Whole(frozen) || (file.Whole? && StoppedFrom(frozen, file.record))
    case _ => false
  }

  predicate StoppedFrom(frozen: Record, r: Record) {
    r == frozen.(status := Stopped, exitCode := r.exitCode)
  }

  ghost predicate CkInv(env: CkEnv, pid: Pid, s: Ck) {
    Joint(env, pid, s) && Lineage(pid, s) && TornLook(env, s) && Unwatched(env, s)
  }

  /** With the supervisor asleep or absent, only the checkpoint writes the record. */
  ghost predicate Unwatched(env: CkEnv, s: Ck) {
    s.sup == SupWaiting ==>
      match s.pc
      case CkDumpFailed(status, save) => SavingTo(s.h.state, save, MarkedFor(s.st), s.st.(status := status))
      case CkCreate => env.leaveRunning ==> s.h.state == Whole(MarkedFor(s.st))
      case CkPack => env.leaveRunning ==> s.h.state == Whole(MarkedFor(s.st))
      case CkSweep => env.leaveRunning ==> s.h.state == Whole(MarkedFor(s.st))
      case CkCommit(save) => env.leaveRunning ==> SavingTo(s.h.state, save, MarkedFor(s.st), LeftRunning(env, s.st))
      case CkOk => env.leaveRunning ==> s.h.state == Whole(LeftRunning(env, s.st))
      case _ => true
  }

  /** The record of a container that was copied and goes on running. */
  function LeftRunning(env: CkEnv, st: Record): Record {
    st.(status := Running, snapshot := Some(env.dest))
  }

  predicate SavingTo(file: StateFile, save: Save, before: Record, after: Record) {
    match save
    case Loading => file == Whole(before)
    case Truncating(r) => file == Whole(before) && r == after
    case Writing(r) => file == Torn && r == after
  }

  lemma CkBeginHolds(env: CkEnv, pid: Pid, s: Ck)
    requires CkBegin(s, pid)
    ensures CkInv(env, pid, s)
  {
    JointBegins(env, pid, s);
    hide Joint;
  }

  lemma CkInvKept(env: CkEnv, pid: Pid, s: Ck, ok: bool, n: nat)
    requires CkInv(env, pid, s)
    ensures CkInv(env, pid, CkNext(env, s, ok, n))
  {
    hide Joint, Lineage, TornLook, Unwatched, CkNext;
    JointKept(env, pid, s, ok, n);
    UnwatchedKept(env, pid, s, ok, n);
    LineageKept(env, pid, s, ok, n);
    TornLookKept(env, pid, s, ok, n);
  }

  lemma SupInvKept(env: CkEnv, pid: Pid, s: Ck, ok: bool, code: int)
    requires CkInv(env, pid, s)
    ensures CkInv(env, pid, SupNext(s, pid, ok, code))
  {
    hide Joint, Lineage, TornLook, Unwatched, SupNext;
    UnwatchedSupKept(env, pid, s, ok, code);
    JointSupKept(env, pid, s, ok, code);
    LineageSupKept(pid, s, ok, code);
    TornLookSupKept(env, pid, s, ok, code);
  }

  lemma DriftInvKept(env: CkEnv, pid: Pid, s: Ck, e: Event)
    requires CkInv(env, pid, s)
    ensures CkInv(env, pid, s.(h := Drift(s.h, e)))
  {
    hide Joint, Drift;
    JointDriftKept(env, pid, s, e);
  }

  // ----- the lineage of the records --------------------------------------------------------------

  lemma LineageKept(env: CkEnv, pid: Pid, s: Ck, ok: bool, n: nat)
    requires Joint(env, pid, s) && Lineage(pid, s)
    ensures Lineage(pid, CkNext(env, s, ok, n))
  {
    hide Joint, Lineage, CkNext;
    if s.pc.CkCommit? {
      LineageCommitting(env, pid, s, ok, n);
    } else if SavingPc(s.pc) {
      LineageMarking(env, pid, s, ok, n);
    } else if s.pc == CkStart {
      LineageStarting(env, pid, s, ok, n);
    } else {
      LineageWorking(env, pid, s, ok, n);
    }
  }

  lemma LineageMarking(env: CkEnv, pid: Pid, s: Ck, ok: bool, n: nat)
    requires Lineage(pid, s) && (s.pc.CkMark? || s.pc.CkDumpFailed?)
    ensures Lineage(pid, CkNext(env, s, ok, n))
  {
    hide RemoveCgroup, Kill, Lifecycle, CommitUpdate;
  }

  lemma LineageCommitting(env: CkEnv, pid: Pid, s: Ck, ok: bool, n: nat)
    requires Lineage(pid, s) && s.pc.CkCommit?
    ensures Lineage(pid, CkNext(env, s, ok, n))
  {
    hide RemoveCgroup, Kill, Lifecycle;
  }

  lemma LineageStarting(env: CkEnv, pid: Pid, s: Ck, ok: bool, n: nat)
    requires Joint(env, pid, s) && Lineage(pid, s) && s.pc == CkStart
    ensures Lineage(pid, CkNext(env, s, ok, n))
  {
    hide RemoveCgroup, Kill, Lifecycle, SaveStep, Apply, FrozenRecord, QuietRecord;
  }

  lemma LineageWorking(env: CkEnv, pid: Pid, s: Ck, ok: bool, n: nat)
    requires Lineage(pid, s) && !SavingPc(s.pc) && s.pc != CkStart
    ensures Lineage(pid, CkNext(env, s, ok, n))
  {
    hide RemoveCgroup, Lifecycle, SaveStep, Apply;
  }

  lemma LineageSupKept(pid: Pid, s: Ck, ok: bool, code: int)
    requires Lineage(pid, s)
    ensures Lineage(pid, SupNext(s, pid, ok, code))
  {
    hide Lineage, SupNext;
    if s.sup.SupStopping? {
      LineageStopping(pid, s, ok, code);
    } else {
      LineageTeardown(pid, s, ok, code);
    }
  }

  lemma LineageStopping(pid: Pid, s: Ck, ok: bool, code: int)
    requires Lineage(pid, s) && s.sup.SupStopping?
    ensures Lineage(pid, SupNext(s, pid, ok, code))
  {
    hide RemoveCgroup, Kill;
  }

  lemma LineageTeardown(pid: Pid, s: Ck, ok: bool, code: int)
    requires Lineage(pid, s) && !s.sup.SupStopping?
    ensures Lineage(pid, SupNext(s, pid, ok, code))
  {
    hide RemoveCgroup, Kill, SaveStep, Apply;
  }

  // ----- the supervisor that looked at a torn record ---------------------------------------------------

  lemma TornLookKept(env: CkEnv, pid: Pid, s: Ck, ok: bool, n: nat)
    requires Joint(env, pid, s) && TornLook(env, s)
    ensures TornLook(env, CkNext(env, s, ok, n))
  {
    hide TornLook, CkNext, Joint;
    if s.dumped && s.look == SawTorn {
      TornLookSeen(env, s, ok, n);
    } else {
      TornLookUnseen(env, pid, s, ok, n);
    }
  }

  lemma TornLookSeen(env: CkEnv, s: Ck, ok: bool, n: nat)
    requires s.dumped && s.look == SawTorn && TornLook(env, s)
    ensures TornLook(env, CkNext(env, s, ok, n))
  {
    hide RemoveCgroup, Kill, Lifecycle, Frozen;
  }

  lemma TornLookUnseen(env: CkEnv, pid: Pid, s: Ck, ok: bool, n: nat)
    requires Joint(env, pid, s) && !(s.dumped && s.look == SawTorn)
    ensures TornLook(env, CkNext(env, s, ok, n))
  {
    hide RemoveCgroup, Kill, Lifecycle, Frozen, Apply, SaveStep;
  }

  lemma TornLookSupKept(env: CkEnv, pid: Pid, s: Ck, ok: bool, code: int)
    requires Joint(env, pid, s) && TornLook(env, s)
    ensures TornLook(env, SupNext(s, pid, ok, code))
  {
    hide RemoveCgroup, Kill, Lifecycle, Frozen;
  }

  // ----- nobody watching -----------------------------------------------------------------------------

  lemma UnwatchedKept(env: CkEnv, pid: Pid, s: Ck, ok: bool, n: nat)
    requires Joint(env, pid, s) && Unwatched(env, s)
    ensures Unwatched(env, CkNext(env, s, ok, n))
  {
    hide Joint, Unwatched, CkNext;
    if SavingPc(s.pc) {
      UnwatchedSaving(env, s, ok, n);
    } else {
      UnwatchedWorking(env, pid, s, ok, n);
    }
  }

  lemma UnwatchedSaving(env: CkEnv, s: Ck, ok: bool, n: nat)
    requires Unwatched(env, s) && SavingPc(s.pc)
    ensures Unwatched(env, CkNext(env, s, ok, n))
  {
    hide RemoveCgroup, Kill, Lifecycle;
  }

  lemma UnwatchedWorking(env: CkEnv, pid: Pid, s: Ck, ok: bool, n: nat)
    requires Joint(env, pid, s) && Unwatched(env, s) && !SavingPc(s.pc)
    ensures Unwatched(env, CkNext(env, s, ok, n))
  {
    hide RemoveCgroup, Lifecycle, SaveStep, Apply, FrozenRecord, Packed;
  }

  lemma UnwatchedSupKept(env: CkEnv, pid: Pid, s: Ck, ok: bool, code: int)
    requires Unwatched(env, s)
    ensures Unwatched(env, SupNext(s, pid, ok, code))
  {
    hide RemoveCgroup, SaveStep;
  }

  // ----- yielding ------------------------------------------------------------------------------------

  lemma JointBegins(env: CkEnv, pid: Pid, s: Ck)
    requires CkBegin(s, pid)
    ensures Joint(env, pid, s)
  {
  }

  lemma JointKept(env: CkEnv, pid: Pid, s: Ck, ok: bool, n: nat)
    requires Joint(env, pid, s)
    ensures Joint(env, pid, CkNext(env, s, ok, n))
  {
    hide Joint, CkNext;
    match s.pc
    case CkStart => CkKeptStarting(env, pid, s, ok, n);
    case CkMark(_, _) => CkKeptStarting(env, pid, s, ok, n);
    case CkStage(_) => CkKeptDumping(env, pid, s, ok, n);
    case CkDump(_) => CkKeptDumping(env, pid, s, ok, n);
    case CkDumpFailed(_, _) => CkKeptDumping(env, pid, s, ok, n);
    case CkAwait => CkKeptWaiting(env, pid, s, ok, n);
    case CkCgroup => CkKeptWaiting(env, pid, s, ok, n);
    case CkCreate => CkKeptSweeping(env, pid, s, ok, n);
    case CkPack => CkKeptPacking(env, pid, s, ok, n);
    case CkSweep => CkKeptSweeping(env, pid, s, ok, n);
    case CkCommit(_) => CkKeptClosing(env, pid, s, ok, n);
    case CkOk => CkKeptEnd(env, pid, s, ok, n);
    case CkErr => CkKeptEnd(env, pid, s, ok, n);
  }

  lemma CkKeptStarting(env: CkEnv, pid: Pid, s: Ck, ok: bool, n: nat)
    requires s.pc.CkStart? || s.pc.CkMark?
    requires Joint(env, pid, s)
    ensures Joint(env, pid, CkNext(env, s, ok, n))
  {
    hide RemoveCgroup;
  }

  lemma CkKeptDumping(env: CkEnv, pid: Pid, s: Ck, ok: bool, n: nat)
    requires s.pc.CkStage? || s.pc.CkDump? || s.pc.CkDumpFailed?
    requires Joint(env, pid, s)
    ensures Joint(env, pid, CkNext(env, s, ok, n))
  {
    hide RemoveCgroup;
  }

  lemma CkKeptWaiting(env: CkEnv, pid: Pid, s: Ck, ok: bool, n: nat)
    requires s.pc.CkAwait? || s.pc.CkCgroup?
    requires Joint(env, pid, s)
    ensures Joint(env, pid, CkNext(env, s, ok, n))
  {
    hide RemoveCgroup, Apply, SaveStep;
  }

  lemma CkKeptPacking(env: CkEnv, pid: Pid, s: Ck, ok: bool, n: nat)
    requires s.pc.CkPack?
    requires Joint(env, pid, s)
    ensures Joint(env, pid, CkNext(env, s, ok, n))
  {
    hide Joint, CkNext;
    if ok {
      CkKeptWriting(env, pid, s, n);
    } else {
      CkKeptGivingUp(env, pid, s, n);
    }
  }

  lemma CkKeptWriting(env: CkEnv, pid: Pid, s: Ck, n: nat)
    requires s.pc.CkPack?
    requires Joint(env, pid, s)
    ensures Joint(env, pid, CkNext(env, s, true, n))
  {
    var file := env.pack(Lifecycle(s.st));
    var h' := s.h.(snapshots := s.h.snapshots[env.dest := if n < |file| then file[..n] else file]);
    var s' := s.(h := h', pc := if n < |file| then CkPack else CkSweep);
    assert CkNext(env, s, true, n) == s';
    hide CkNext, FrozenRecord, QuietRecord, Lifecycle;
    QuietAfterDump(s');
    FrozenUnmoved(env, s, s');
  }

  lemma FrozenUnmoved(env: CkEnv, s: Ck, s': Ck)
    requires s'.h.state == s.h.state && s'.st == s.st && s.pc.CkPack? && (s'.pc.CkPack? || s'.pc.CkSweep?)
    ensures FrozenRecord(env, s) <==> FrozenRecord(env, s')
  {
  }

  lemma CkKeptGivingUp(env: CkEnv, pid: Pid, s: Ck, n: nat)
    requires s.pc.CkPack?
    requires Joint(env, pid, s)
    ensures Joint(env, pid, CkNext(env, s, false, n))
  {
    hide RemoveCgroup, Apply, SaveStep, MarkedFor, Lifecycle, Frozen, Kill, QuietRecord;
    QuietAfterDump(CkNext(env, s, false, n));
  }

  lemma QuietAfterDump(s: Ck)
    ensures !BeforeDump(s.pc) ==> QuietRecord(s)
  {
  }

  lemma CkKeptSweeping(env: CkEnv, pid: Pid, s: Ck, ok: bool, n: nat)
    requires s.pc.CkCreate? || s.pc.CkSweep?
    requires Joint(env, pid, s)
    ensures Joint(env, pid, CkNext(env, s, ok, n))
  {
    hide RemoveCgroup, Apply, SaveStep, MarkedFor, Lifecycle, Frozen, Kill;
  }

  lemma CkKeptClosing(env: CkEnv, pid: Pid, s: Ck, ok: bool, n: nat)
    requires s.pc.CkCommit?
    requires Joint(env, pid, s)
    ensures Joint(env, pid, CkNext(env, s, ok, n))
  {
    hide Joint, CkNext;
    match s.pc.save
    case Loading => CkKeptLoading(env, pid, s, ok, n);
    case Truncating(_) => CkKeptTruncating(env, pid, s, ok, n);
    case Writing(_) => CkKeptRewriting(env, pid, s, ok, n);
  }

  lemma CkKeptLoading(env: CkEnv, pid: Pid, s: Ck, ok: bool, n: nat)
    requires s.pc.CkCommit? && s.pc.save.Loading?
    requires Joint(env, pid, s)
    ensures Joint(env, pid, CkNext(env, s, ok, n))
  {
    hide RemoveCgroup, Lifecycle, MarkedFor, Kill;
  }

  lemma CkKeptTruncating(env: CkEnv, pid: Pid, s: Ck, ok: bool, n: nat)
    requires s.pc.CkCommit? && s.pc.save.Truncating?
    requires Joint(env, pid, s)
    ensures Joint(env, pid, CkNext(env, s, ok, n))
  {
    hide RemoveCgroup, Lifecycle, MarkedFor, Kill, Apply;
  }

  lemma CkKeptRewriting(env: CkEnv, pid: Pid, s: Ck, ok: bool, n: nat)
    requires s.pc.CkCommit? && s.pc.save.Writing?
    requires Joint(env, pid, s)
    ensures Joint(env, pid, CkNext(env, s, ok, n))
  {
    hide RemoveCgroup, Lifecycle, MarkedFor, Kill, Apply;
  }

  lemma CkKeptEnd(env: CkEnv, pid: Pid, s: Ck, ok: bool, n: nat)
    requires s.pc == CkOk || s.pc == CkErr
    requires Joint(env, pid, s)
    ensures Joint(env, pid, CkNext(env, s, ok, n))
  {
    hide Joint;
  }

  lemma JointSupKept(env: CkEnv, pid: Pid, s: Ck, ok: bool, code: int)
    requires Joint(env, pid, s)
    ensures Joint(env, pid, SupNext(s, pid, ok, code))
  {
    hide Joint, SupNext;
    if s.sup.SupStopping? {
      SupKeptStopping(env, pid, s, ok, code);
    } else {
      SupKeptTeardown(env, pid, s, ok, code);
    }
  }

  lemma SupKeptStopping(env: CkEnv, pid: Pid, s: Ck, ok: bool, code: int)
    requires Joint(env, pid, s) && s.sup.SupStopping?
    ensures Joint(env, pid, SupNext(s, pid, ok, code))
  {
    hide RemoveCgroup, Lifecycle, Frozen, MarkedFor, Kill;
  }

  lemma SupKeptTeardown(env: CkEnv, pid: Pid, s: Ck, ok: bool, code: int)
    requires Joint(env, pid, s) && !s.sup.SupStopping?
    ensures Joint(env, pid, SupNext(s, pid, ok, code))
  {
    hide RemoveCgroup, Lifecycle, SaveStep, Kill;
  }

  lemma JointDriftKept(env: CkEnv, pid: Pid, s: Ck, e: Event)
    requires Joint(env, pid, s)
    ensures Joint(env, pid, s.(h := Drift(s.h, e)))
  {
    hide Drift;
  }

  lemma {:induction false} CheckpointInvariant(env: CkEnv, pid: Pid, t: seq<Ck>)
    requires CkTrace(env, pid, t)
    ensures CkInv(env, pid, t[|t| - 1])
    decreases |t|
  {
    hide CkInv, CkNext, SupNext;
    if |t| == 1 {
      CkBeginHolds(env, pid, t[0]);
    } else {
      var s, s' := t[|t| - 2], t[|t| - 1];
      CheckpointInvariant(env, pid, t[..|t| - 1]);
      assert CkStep(env, pid, t[|t| - 2], t[|t| - 2 + 1]);
      if exists ok, n: nat :: s' == CkNext(env, s, ok, n) {
        var ok, n: nat :| s' == CkNext(env, s, ok, n);
        CkInvKept(env, pid, s, ok, n);
      } else if exists ok, code :: s' == SupNext(s, pid, ok, code) {
        var ok, code :| s' == SupNext(s, pid, ok, code);
        SupInvKept(env, pid, s, ok, code);
      } else {
        var e :| s' == s.(h := Drift(s.h, e));
        DriftInvKept(env, pid, s, e);
      }
    }
  }

  /** The record a checkpoint loads is the one the container was running under. */
  lemma LoadedRecordFixed(env: CkEnv, pid: Pid, s: Ck, ok: bool, n: nat)
    requires CkInv(env, pid, s)
    ensures CkNext(env, s, ok, n).st == s.st
  {
    hide SaveStep, RemoveCgroup, Kill;
  }

  /** The record a checkpoint loads stays the one the container was running under. */
  lemma {:induction false} LoadedAlong(env: CkEnv, pid: Pid, t: seq<Ck>)
    requires CkTrace(env, pid, t)
    ensures t[|t| - 1].st == t[0].st
    decreases |t|
  {
    hide CkInv, CkNext, SupNext, Drift;
    if |t| == 1 {
    } else {
      var s, s' := t[|t| - 2], t[|t| - 1];
      LoadedAlong(env, pid, t[..|t| - 1]);
      CheckpointInvariant(env, pid, t[..|t| - 1]);
      assert CkStep(env, pid, t[|t| - 2], t[|t| - 2 + 1]);
      if exists ok, n: nat :: s' == CkNext(env, s, ok, n) {
        var ok, n: nat :| s' == CkNext(env, s, ok, n);
        LoadedRecordFixed(env, pid, s, ok, n);
      } else if exists ok, code :: s' == SupNext(s, pid, ok, code) {
        var ok, code :| s' == SupNext(s, pid, ok, code);
        SupLeaves(s, pid, ok, code);
      }
    }
  }

  /** The supervisor touches the record, the veth and the cgroup; never the processes or the snapshots. */
  lemma SupLeaves(s: Ck, pid: Pid, ok: bool, code: int)
    ensures var s' := SupNext(s, pid, ok, code);
            s'.h.live == s.h.live && s'.h.snapshots == s.h.snapshots && s'.pc == s.pc && s'.st == s.st
  {
    hide RemoveCgroup;
  }

  // ----- main results -----------------------------------------------------------------------------

  /**
   Supervisor against checkpoint, in every interleaving: once the dump has succeeded, a supervisor
   whose look at the record did not fail never writes it, a container without one has none that could,
   and a finished checkpoint leaves the record checkpointed, with no pid and the snapshot it packed on disk.
   */
  lemma SupervisorYields(env: CkEnv, pid: Pid, t: seq<Ck>)
    requires CkTrace(env, pid, t)
    ensures var s := t[|t| - 1];
            && (s.dumped ==> s.h.live == {})
            && (s.dumped && !Blind(s) ==> !s.sup.SupStopping?)
            && (s.st.supervisor.None? ==> !Blind(s))
            && (s.pc == CkOk && !env.leaveRunning && !Blind(s) ==>
                  && s.h.state == Whole(Frozen(env, s.st))
                  && s.h.state.record == s.st.(status := Checkpointed, pid := None, supervisor := None,
                                               snapshot := Some(env.dest)))
            && (s.pc == CkOk ==> Packed(env, s))
  {
    CheckpointInvariant(env, pid, t);
  }

  /**
   If the wait saw the supervisor gone, none of its teardown is left to happen, and it did not look
   at a torn record: from then on it does not move.
   */
  lemma {:induction false} AwaitedSupervisorIsDone(env: CkEnv, pid: Pid, t: seq<Ck>, k: nat)
    requires CkTrace(env, pid, t) && k < |t| && t[k].sawExit
    ensures forall i :: k <= i < |t| ==> t[i].sup == SupExited && t[i].look == t[k].look != SawTorn
    decreases |t| - k
  {
    hide CkStep;
    CheckpointInvariant(env, pid, t[..k + 1]);
    assert t[..k + 1][k] == t[k];
    if k + 1 == |t| {
    } else {
      assert CkStep(env, pid, t[k], t[k + 1]);
      StaysDone(env, pid, t[k], t[k + 1]);
      AwaitedSupervisorIsDone(env, pid, t, k + 1);
    }
  }

  lemma StaysDone(env: CkEnv, pid: Pid, s: Ck, s': Ck)
    requires CkStep(env, pid, s, s') && s.sawExit && s.sup == SupExited
    ensures s'.sawExit && s'.sup == SupExited && s'.look == s.look
  {
    hide CkNext, Drift;
    if exists ok, n: nat :: s' == CkNext(env, s, ok, n) {
      var ok, n: nat :| s' == CkNext(env, s, ok, n);
      CkLeavesSupervisor(env, s, ok, n);
    }
  }

  lemma StaysGone(env: CkEnv, pid: Pid, s: Ck, s': Ck)
    requires CkStep(env, pid, s, s') && s.sup == SupExited
    ensures s'.sup == SupExited && s'.look == s.look
  {
    hide CkNext, Drift;
    if exists ok, n: nat :: s' == CkNext(env, s, ok, n) {
      var ok, n: nat :| s' == CkNext(env, s, ok, n);
      CkLeavesSupervisor(env, s, ok, n);
    }
  }

  lemma CkLeavesSupervisor(env: CkEnv, s: Ck, ok: bool, n: nat)
    ensures var s' := CkNext(env, s, ok, n); s'.sup == s.sup && s'.look == s.look && (s.sawExit ==> s'.sawExit)
  {
    hide SaveStep, RemoveCgroup, Kill;
  }

  /**
   Killing a checkpoint at any step and reconciling. A whole record is settled: if it was stale, no
   process of the container is left and it is called checkpointed exactly when some snapshot file is
   on disk, whether or not this checkpoint finished writing it; if not, nothing changes. A torn record,
   which only a kill or fault between truncating and rewriting leaves, cannot be reconciled at all.
   */
  lemma CrashedCheckpointSettles(env: CkEnv, pid: Pid, t: seq<Ck>, cfg: Config)
    requires CkTrace(env, pid, t)
    ensures var s := t[|t| - 1];
            var r := Reconcile(s.h, cfg);
            && r.snapshots == s.h.snapshots
            && (s.h.state.Torn? ==> TornBy(s) && r == s.h)
            && (!s.h.state.Torn? ==>
                  s.h.state.Whole? && r.state.Whole? && Settled(s.h, s.h.state.record, r, r.state.record))
            && (s.h.state == Whole(MarkedFor(s.st)) ==> r.live == {})
  {
    CheckpointInvariant(env, pid, t);
    var s := t[|t| - 1];
    hide CkTrace;
    ReconcileSettles(s.h, cfg);
    if s.h.state.Whole? && Stale(s.h.state.record, s.h.live) {
      assert s.h.state.record.pid == Some(pid);
      assert Reconcile(s.h, cfg).live <= {pid} && pid !in Reconcile(s.h, cfg).live;
    }
  }

  /** What a sweep makes of host `h` with record `st`. */
  predicate Settled(h: Host, st: Record, h': Host, st': Record) {
    if Stale(st, h.live) then
      && h'.live == {} && st'.pid == None && st'.generation == st.generation
      && st'.status == (if HasSnapshot(h, st) then Checkpointed else Failed)
    else h' == h
  }

  /**
   A checkpoint that leaves the container running: nothing is killed, the cgroup is not touched, and at
   the end, as long as no supervisor has stirred, the record is the one it found, running under the same
   pid, with the path of the snapshot, which is on disk.
   */
  lemma CopyLeavesRunning(env: CkEnv, pid: Pid, t: seq<Ck>)
    requires CkTrace(env, pid, t) && env.leaveRunning
    ensures var s, st := t[|t| - 1], t[0].h.state.record;
            && !s.dumped
            && (s.sup == SupWaiting ==> s.h.cgroup == t[0].h.cgroup)
            && (s.pc == CkOk ==> Packed(env, s))
            && (s.pc == CkOk && s.sup == SupWaiting ==>
                  && s.h.state.Whole? && s.h.state.record.status == Running && s.h.state.record.pid == Some(pid)
                  && s.h.state.record.snapshot == Some(env.dest)
                  && s.h.state.record == st.(snapshot := Some(env.dest)))
  {
    hide CkStep, Lineage, TornLook;
    CheckpointInvariant(env, pid, t);
    LoadedAlong(env, pid, t);
    if t[|t| - 1].sup == SupWaiting {
      CgroupStays(env, pid, t);
    }
  }

  lemma {:induction false} CgroupStays(env: CkEnv, pid: Pid, t: seq<Ck>)
    requires CkTrace(env, pid, t) && env.leaveRunning && t[|t| - 1].sup == SupWaiting
    ensures t[|t| - 1].h.cgroup == t[0].h.cgroup
    decreases |t|
  {
    hide CkInv, CkNext, SupNext, Drift;
    if |t| == 1 {
    } else {
      var s, s' := t[|t| - 2], t[|t| - 1];
      CheckpointInvariant(env, pid, t[..|t| - 1]);
      assert CkStep(env, pid, t[|t| - 2], t[|t| - 2 + 1]);
      if exists ok, n: nat :: s' == CkNext(env, s, ok, n) {
        var ok, n: nat :| s' == CkNext(env, s, ok, n);
        CkLeavesSupervisor(env, s, ok, n);
        CkLeavesCgroup(env, pid, s, ok, n);
      } else if exists ok, code :: s' == SupNext(s, pid, ok, code) {
        var ok, code :| s' == SupNext(s, pid, ok, code);
        SupStillWaiting(s, pid, ok, code);
      }
      CgroupStays(env, pid, t[..|t| - 1]);
    }
  }

  lemma CkLeavesCgroup(env: CkEnv, pid: Pid, s: Ck, ok: bool, n: nat)
    requires CkInv(env, pid, s) && env.leaveRunning
    ensures CkNext(env, s, ok, n).h.cgroup == s.h.cgroup
  {
    hide SaveStep, RemoveCgroup, Lineage, TornLook, Unwatched, FrozenRecord, QuietRecord;
  }

  /** Nothing a checkpoint does ends a process, but the dump of a container that is not to be left running. */
  lemma OnlyTheDumpKills(env: CkEnv, s: Ck, ok: bool, n: nat)
    ensures var s' := CkNext(env, s, ok, n);
            && s'.h.veth == s.h.veth
            && (s'.h.live != s.h.live ==> s.pc.CkDump? && !env.leaveRunning && s'.h.live == s.h.live - {s.pc.pid})
            && (s'.h.cgroup != s.h.cgroup ==> s.pc == CkCgroup)
  {
    hide CkNext;
    if SavingPc(s.pc) {
      SavingKillsNobody(env, s, ok, n);
    } else {
      WorkingKills(env, s, ok, n);
    }
  }

  lemma SavingKillsNobody(env: CkEnv, s: Ck, ok: bool, n: nat)
    requires SavingPc(s.pc)
    ensures var s' := CkNext(env, s, ok, n);
            s'.h.veth == s.h.veth && s'.h.live == s.h.live && s'.h.cgroup == s.h.cgroup
  {
    hide SaveStep, RemoveCgroup, Kill;
  }

  lemma WorkingKills(env: CkEnv, s: Ck, ok: bool, n: nat)
    requires !SavingPc(s.pc)
    ensures var s' := CkNext(env, s, ok, n);
            && s'.h.veth == s.h.veth
            && (s'.h.live != s.h.live ==> s.pc.CkDump? && !env.leaveRunning && s'.h.live == s.h.live - {s.pc.pid})
            && (s'.h.cgroup != s.h.cgroup ==> s.pc == CkCgroup)
  {
    hide SaveStep, RemoveCgroup, Lifecycle;
  }

  lemma SupStillWaiting(s: Ck, pid: Pid, ok: bool, code: int)
    ensures SupNext(s, pid, ok, code).sup == SupWaiting ==> SupNext(s, pid, ok, code) == s
  {
    hide RemoveCgroup;
  }

  /**
   What a failed dump writes: running if the tree was alive when the dump failed, failed if it was not;
   with nobody else writing, nothing else of the record changes.
   */
  lemma FailedDumpIsReported(env: CkEnv, pid: Pid, t: seq<Ck>, i: nat)
    requires CkTrace(env, pid, t) && i + 2 < |t| && t[i].pc.CkDump?
    requires t[|t| - 1].sup == SupWaiting && t[|t| - 1].pc == CkErr
    requires forall k :: i < k < |t| - 1 ==> t[k].pc.CkDumpFailed?
    ensures var s, st := t[|t| - 1], t[0].h.state.record;
            s.h.state == Torn || s.h.state == Whole(st.(status := Status.Checkpointing))
            || s.h.state == Whole(st.(status := if pid in t[i].h.live then Running else Failed))
  {
    hide CkStep, CkInv;
    var n := |t| - 1;
    FailureFollowsDump(env, pid, t, i);
    FailureKeepsStatus(env, pid, t, i, n - 1);
    CheckpointInvariant(env, pid, t[..n]);
    LoadedAlong(env, pid, t[..n]);
    assert CkStep(env, pid, t[n - 1], t[n - 1 + 1]);
    FailureWritten(env, pid, t[n - 1], t[n]);
  }

  lemma FailureFollowsDump(env: CkEnv, pid: Pid, t: seq<Ck>, i: nat)
    requires CkTrace(env, pid, t) && i + 1 < |t| && t[i].pc.CkDump? && t[i + 1].pc.CkDumpFailed?
    ensures t[i + 1].pc.status == if pid in t[i].h.live then Running else Failed
  {
    hide SaveStep, RemoveCgroup, Drift, Lineage, TornLook, Unwatched, FrozenRecord;
    CheckpointInvariant(env, pid, t[..i + 1]);
    assert t[..i + 1][i] == t[i];
    assert CkStep(env, pid, t[i], t[i + 1]);
  }

  lemma {:induction false} FailureKeepsStatus(env: CkEnv, pid: Pid, t: seq<Ck>, i: nat, j: nat)
    requires CkTrace(env, pid, t) && i < j < |t| && forall k :: i < k <= j ==> t[k].pc.CkDumpFailed?
    ensures t[j].pc.status == t[i + 1].pc.status
    decreases j
  {
    hide CkStep;
    if j == i + 1 {
    } else {
      FailureKeepsStatus(env, pid, t, i, j - 1);
      assert CkStep(env, pid, t[j - 1], t[j - 1 + 1]);
      StatusStays(env, pid, t[j - 1], t[j]);
    }
  }

  lemma StatusStays(env: CkEnv, pid: Pid, s: Ck, s': Ck)
    requires CkStep(env, pid, s, s') && s.pc.CkDumpFailed? && s'.pc.CkDumpFailed?
    ensures s'.pc.status == s.pc.status
  {
    hide SaveStep, RemoveCgroup, Drift;
  }

  lemma FailureWritten(env: CkEnv, pid: Pid, s: Ck, s': Ck)
    requires CkInv(env, pid, s) && CkStep(env, pid, s, s')
    requires s.pc.CkDumpFailed? && s'.pc == CkErr && s'.sup == SupWaiting
    ensures s'.h.state == Torn || s'.h.state == Whole(MarkedFor(s.st))
            || s'.h.state == Whole(s.st.(status := s.pc.status))
  {
    hide RemoveCgroup, Drift, Lineage, TornLook, FrozenRecord, QuietRecord, Kill;
    if exists ok, code :: s' == SupNext(s, pid, ok, code) {
      var ok, code :| s' == SupNext(s, pid, ok, code);
      SupLeaves(s, pid, ok, code);
      assert false;
    }
  }

  /** The wait ends only when there is nobody to wait for, or the supervisor is gone, or the time is up (`!ok`). */
  lemma WaitsForSupervisor(env: CkEnv, s: Ck, ok: bool, n: nat)
    requires s.pc == CkAwait
    ensures CkNext(env, s, ok, n).pc == CkAwait <==> s.st.supervisor.Some? && s.sup != SupExited && ok
    ensures CkNext(env, s, ok, n).h == s.h
  {
    hide SaveStep, RemoveCgroup;
  }

  /** No failed call is passed over: the checkpoint ends there, or first says what a failed dump left. */
  lemma FaultsStop(env: CkEnv, s: Ck, n: nat)
    requires s.pc != CkAwait && s.pc != CkCgroup && s.pc != CkSweep && s.pc != CkOk
    ensures var s' := CkNext(env, s, false, n);
            s'.h == s.h && (if s.pc.CkDump? then s'.pc.CkDumpFailed? else s'.pc == CkErr)
  {
    hide RemoveCgroup, Lifecycle, Apply;
  }

  /**
   Only a container whose record says running, and whose recorded tree is alive, is checkpointed; any
   other is refused, and nothing changes.
   */
  lemma OnlyRunningIsFrozen(env: CkEnv, s: Ck, ok: bool, n: nat)
    requires s.pc == CkStart
    ensures var s' := CkNext(env, s, ok, n);
            && s'.h == s.h
            && (s'.pc != CkErr ==> s.h.state.Whole? && s.h.state.record.status == Running
                                   && exists p :: p in s.h.live && s.h.state.record.pid == Some(p))
            && (s'.pc == CkErr ==> forall ok', n': nat :: CkNext(env, s', ok', n') == s')
  {
    hide SaveStep, RemoveCgroup, Lifecycle;
    var s' := CkNext(env, s, ok, n);
    if s'.pc != CkErr {
      var p := s.h.state.record.pid.value;
      assert p in s.h.live && s.h.state.record.pid == Some(p);
    }
  }

  /**
   A supervisor that looked while the record was truncated can stop the container but not lose its
   snapshot: what it loads later is the committed record.
   */
  lemma TornLookKeepsSnapshot(env: CkEnv, pid: Pid, t: seq<Ck>)
    requires CkTrace(env, pid, t)
    ensures var s := t[|t| - 1];
            s.pc == CkOk && !env.leaveRunning && s.h.state.Whole? ==>
              && (s.look == SawTorn ==>
                    s.h.state.record == Frozen(env, s.st) || StoppedFrom(Frozen(env, s.st), s.h.state.record))
              && (s.look != Unreadable ==> s.h.state.record.snapshot == Some(env.dest) && s.h.state.record.pid == None)
  {
    CheckpointInvariant(env, pid, t);
  }

  /**
   Once a finished checkpoint's supervisor has read the record, and it was frozen, the record stays the
   committed one for ever.
   */
  lemma {:induction false} FrozenForGood(env: CkEnv, pid: Pid, t: seq<Ck>, k: nat)
    requires CkTrace(env, pid, t) && k < |t| && !env.leaveRunning
    requires t[k].pc == CkOk && t[k].look == SawFrozen
    ensures forall i :: k <= i < |t| ==>
              t[i].h.state == Whole(Frozen(env, t[k].st)) && t[i].pc == CkOk && t[i].h.live == {}
    decreases |t| - k
  {
    hide CkStep, Frozen;
    CheckpointInvariant(env, pid, t[..k + 1]);
    assert t[..k + 1][k] == t[k];
    if k + 1 == |t| {
    } else {
      assert CkStep(env, pid, t[k], t[k + 1]);
      StaysGone(env, pid, t[k], t[k + 1]);
      StaysOk(env, pid, t[k], t[k + 1]);
      FrozenForGood(env, pid, t, k + 1);
    }
  }

  lemma StaysOk(env: CkEnv, pid: Pid, s: Ck, s': Ck)
    requires CkStep(env, pid, s, s') && s.pc == CkOk
    ensures s'.pc == CkOk && s'.st == s.st
  {
    hide SaveStep, RemoveCgroup;
  }

  /** While the snapshot is being written, what is on disk is a prefix of it. */
  lemma PackedSoFar(env: CkEnv, pid: Pid, t: seq<Ck>)
    requires CkTrace(env, pid, t) && t[|t| - 1].pc == CkPack
    ensures var s := t[|t| - 1]; env.dest in s.h.snapshots && s.h.snapshots[env.dest] <= env.pack(Lifecycle(s.st))
  {
    hide CkTrace, Lineage, TornLook, FrozenRecord, QuietRecord;
    CheckpointInvariant(env, pid, t);
  }

  // ----- a run that does happen ------------------------------------------------------------------

  lemma ExtendCk(env: CkEnv, pid: Pid, t: seq<Ck>, ok: bool, n: nat) returns (t': seq<Ck>)
    requires CkTrace(env, pid, t)
    ensures CkTrace(env, pid, t') && t'[|t'| - 1] == CkNext(env, t[|t| - 1], ok, n) && t'[0] == t[0]
  {
    hide CkNext, SupNext;
    t' := t + [CkNext(env, t[|t| - 1], ok, n)];
    forall i | 0 <= i < |t'| - 1 ensures CkStep(env, pid, t'[i], t'[i + 1]) {
      if i < |t| - 1 {
        assert CkStep(env, pid, t[i], t[i + 1]);
      }
    }
  }

  lemma ExtendSup(env: CkEnv, pid: Pid, t: seq<Ck>, ok: bool, code: int) returns (t': seq<Ck>)
    requires CkTrace(env, pid, t)
    ensures CkTrace(env, pid, t') && t'[|t'| - 1] == SupNext(t[|t| - 1], pid, ok, code) && t'[0] == t[0]
  {
    hide CkNext, SupNext;
    t' := t + [SupNext(t[|t| - 1], pid, ok, code)];
    forall i | 0 <= i < |t'| - 1 ensures CkStep(env, pid, t'[i], t'[i + 1]) {
      if i < |t| - 1 {
        assert CkStep(env, pid, t[i], t[i + 1]);
      }
    }
  }

  /** A freeze without trouble, up to the truncation of the record, with the supervisor still about to wake. */
  lemma ReachTruncated(env: CkEnv, pid: Pid, s0: Ck) returns (t: seq<Ck>)
    requires CkBegin(s0, pid) && s0.h.live == {pid} && !env.leaveRunning
    ensures CkTrace(env, pid, t) && t[0] == s0
    ensures var s, st := t[|t| - 1], s0.h.state.record;
            && s.pc == CkCommit(Writing(Frozen(env, st))) && s.st == st && s.sup == SupWaiting
            && s.h.live == {} && s.h.state == Torn && s.dumped
  {
    t := ReachPack(env, pid, s0);
    var full := |env.pack(Lifecycle(s0.h.state.record))|;
    t := ExtendCk(env, pid, t, true, full);
    t := ExtendCk(env, pid, t, true, 0);
    t := ExtendCk(env, pid, t, true, 0);
    t := ExtendCk(env, pid, t, true, 0);
  }

  lemma ReachPack(env: CkEnv, pid: Pid, s0: Ck) returns (t: seq<Ck>)
    requires CkBegin(s0, pid) && s0.h.live == {pid} && !env.leaveRunning
    ensures CkTrace(env, pid, t) && t[0] == s0
    ensures var s, st := t[|t| - 1], s0.h.state.record;
            && s.pc == CkPack && s.st == st && s.sup == SupWaiting && s.h.live == {}
            && s.h.state == Whole(MarkedFor(st)) && s.dumped
  {
    hide RemoveCgroup;
    t := ReachAwait(env, pid, s0);
    t := ExtendCk(env, pid, t, false, 0);
    t := ExtendCk(env, pid, t, true, 0);
    t := ExtendCk(env, pid, t, true, 0);
  }

  lemma ReachAwait(env: CkEnv, pid: Pid, s0: Ck) returns (t: seq<Ck>)
    requires CkBegin(s0, pid) && s0.h.live == {pid} && !env.leaveRunning
    ensures CkTrace(env, pid, t) && t[0] == s0
    ensures var s, st := t[|t| - 1], s0.h.state.record;
            && s.pc == CkAwait && s.st == st && s.sup == SupWaiting && s.h.live == {}
            && s.h.state == Whole(MarkedFor(st)) && s.dumped
  {
    t := [s0];
    t := ExtendCk(env, pid, t, true, 0);
    t := ExtendCk(env, pid, t, true, 0);
    t := ExtendCk(env, pid, t, true, 0);
    t := ExtendCk(env, pid, t, true, 0);
    t := ExtendCk(env, pid, t, true, 0);
    t := ExtendCk(env, pid, t, true, 0);
  }

  /**
   The exception is real: if the wait times out and the supervisor looks while the record is
   truncated, the checkpoint succeeds and the record ends up saying stopped.
   */
  lemma TornReadOverwrites(env: CkEnv, pid: Pid, s0: Ck, code: int) returns (t: seq<Ck>)
    requires CkBegin(s0, pid) && s0.h.live == {pid} && !env.leaveRunning && s0.st.supervisor.Some?
    ensures CkTrace(env, pid, t) && t[0] == s0
    ensures var s := t[|t| - 1];
            s.pc == CkOk && s.look == SawTorn && s.h.state.Whole? && s.h.state.record.status == Stopped
  {
    t := ReachTruncated(env, pid, s0);
    t := ExtendSup(env, pid, t, true, code);
    t := ExtendSup(env, pid, t, true, code);
    t := ExtendSup(env, pid, t, true, code);
    t := ExtendSup(env, pid, t, true, code);
    t := ExtendCk(env, pid, t, true, 0);
    t := ExtendSup(env, pid, t, true, code);
    t := ExtendSup(env, pid, t, true, code);
    t := ExtendSup(env, pid, t, true, code);
  }

  /**
   Only a read that fails can lose the snapshot's path: if the supervisor's look meets an I/O error, it
   can load the record before the commit and write it back, stopped, after it.
   */
  lemma UnreadableLosesSnapshot(env: CkEnv, pid: Pid, s0: Ck, code: int) returns (t: seq<Ck>)
    requires CkBegin(s0, pid) && s0.h.live == {pid} && !env.leaveRunning && s0.st.supervisor.Some?
    ensures CkTrace(env, pid, t) && t[0] == s0
    ensures var s := t[|t| - 1];
            && s.pc == CkOk && s.look == Unreadable && s.h.state.Whole?
            && s.h.state.record == MarkedFor(s0.st).(status := Stopped, exitCode := Some(code))
  {
    t := ReachBypassed(env, pid, s0, code);
    t := ExtendSup(env, pid, t, true, code);
    t := ExtendSup(env, pid, t, true, code);
  }

  /** The checkpoint commits while the supervisor holds the record from before. */
  lemma ReachBypassed(env: CkEnv, pid: Pid, s0: Ck, code: int) returns (t: seq<Ck>)
    requires CkBegin(s0, pid) && s0.h.live == {pid} && !env.leaveRunning && s0.st.supervisor.Some?
    ensures CkTrace(env, pid, t) && t[0] == s0
    ensures var s := t[|t| - 1];
            && s.pc == CkOk && s.st == s0.st && s.look == Unreadable
            && s.sup == SupStopping(Truncating(MarkedFor(s0.st).(status := Stopped, exitCode := Some(code))))
  {
    hide RemoveCgroup, Kill, Apply, MarkedFor;
    t := ReachRepacked(env, pid, s0, code);
    t := ExtendCk(env, pid, t, true, 0);
    t := ExtendCk(env, pid, t, true, 0);
    t := ExtendCk(env, pid, t, true, 0);
  }

  lemma ReachRepacked(env: CkEnv, pid: Pid, s0: Ck, code: int) returns (t: seq<Ck>)
    requires CkBegin(s0, pid) && s0.h.live == {pid} && !env.leaveRunning && s0.st.supervisor.Some?
    ensures CkTrace(env, pid, t) && t[0] == s0
    ensures var s := t[|t| - 1];
            && s.pc == CkCommit(Loading) && s.st == s0.st && s.look == Unreadable && s.h.state.Whole?
            && s.sup == SupStopping(Truncating(MarkedFor(s0.st).(status := Stopped, exitCode := Some(code))))
  {
    hide RemoveCgroup, Kill, Apply, SaveStep, MarkedFor;
    t := ReachLoaded(env, pid, s0, code);
    t := ExtendCk(env, pid, t, true, |env.pack(Lifecycle(s0.st))|);
    t := ExtendCk(env, pid, t, true, 0);
  }

  /** The supervisor has loaded the marked record while the snapshot is being packed. */
  lemma ReachLoaded(env: CkEnv, pid: Pid, s0: Ck, code: int) returns (t: seq<Ck>)
    requires CkBegin(s0, pid) && s0.h.live == {pid} && !env.leaveRunning && s0.st.supervisor.Some?
    ensures CkTrace(env, pid, t) && t[0] == s0
    ensures var s := t[|t| - 1];
            && s.pc == CkPack && s.st == s0.st && s.look == Unreadable && s.h.state == Whole(MarkedFor(s0.st))
            && s.sup == SupStopping(Truncating(MarkedFor(s0.st).(status := Stopped, exitCode := Some(code))))
  {
    hide RemoveCgroup;
    t := ReachPack(env, pid, s0);
    t := ExtendSup(env, pid, t, true, code);
    t := ExtendSup(env, pid, t, true, code);
    t := ExtendSup(env, pid, t, true, code);
    t := ExtendSup(env, pid, t, false, code);
    t := ExtendSup(env, pid, t, true, code);
  }
}
