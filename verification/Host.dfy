/** One node's view of one container: its state record and the host resources that belong to it. */
module Hosts {
  import opened Bytes

  type Pid = int
  type Path = string

  datatype Status = Created | Running | Stopped | Failed | Checkpointing | Checkpointed | Restoring | Migrated

  /** The fields of the state record that the lifecycle commands decide on. */
  datatype Record = Record(
    status: Status,
    pid: Option<Pid>,
    supervisor: Option<Pid>,
    snapshot: Option<Path>,
    generation: u32,
    origin: Option<string>,
    exitCode: Option<int>)

  // ----- the record's transitions -------------------------------------------------

  /** Every read-modify-write of the record. */
  datatype Update =
    | ToStatus(status: Status)
    | ToCheckpointed(dest: Path)
    | BackToRunning(dest: Path)
    | ToRestored(pid: Pid)
    | FromHost(host: string)
    | ToReconciled(hasSnapshot: bool)
    | ToMigrated
    | ToStopped(code: int)

  function Apply(u: Update, r: Record): Record {
    match u
    case ToStatus(s) => r.(status := s)
    case ToCheckpointed(dest) => r.(status := Checkpointed, pid := None, supervisor := None, snapshot := Some(dest))
    case BackToRunning(dest) => r.(status := Running, snapshot := Some(dest))
    case ToRestored(pid) =>
      r.(status := Running, pid := Some(pid), supervisor := None,
         generation := (r.generation + 1) % U32_LIMIT, exitCode := None)
    case FromHost(host) => r.(origin := Some(host))
    case ToReconciled(has) => r.(status := if has then Checkpointed else Failed, pid := None)
    case ToMigrated => r.(status := Migrated, pid := None)
    case ToStopped(code) => r.(status := Stopped, exitCode := Some(code))
  }

  /** The record a checkpoint packs into the manifest. */
  function Lifecycle(st: Record): Record {
    st.(status := Checkpointed, pid := None)
  }

  /** The record a node writes for a container that arrived from elsewhere. */
  function Adopted(lifecycle: Record, path: Path, host: string): Record {
    lifecycle.(status := Checkpointed, pid := None, snapshot := Some(path), origin := Some(host))
  }

  // ----- the host --------------------------------------------------------------------

  /** `state.json`. Saving truncates it before writing it, so a reader or a crash can find it torn. */
  datatype StateFile = Missing | Torn | Whole(record: Record)

  datatype Host = Host(
    state: StateFile,
    snapshots: map<Path, bytes>,
    live: set<Pid>,
    cgroup: Option<set<Pid>>,
    veth: bool,
    staging: bool)

  /** Killing the root of a process tree takes the whole tree with it. */
  function Kill(h: Host, p: Pid): Host {
    h.(live := h.live - {p})
  }

  /**
   What happens on a host unasked: a process tree ends, or the kernel takes down the veth whose network
   namespace has lost its last process.
   */
  datatype Event = Exits(p: Pid) | VethGoes

  function Drift(h: Host, e: Event): (r: Host)
    ensures r == h.(live := r.live, veth := r.veth) && r.live <= h.live && (r.veth ==> h.veth)
    ensures r.live != {} ==> r.veth == h.veth
  {
    match e
    case Exits(p) => Kill(h, p)
    case VethGoes => if h.live == {} then h.(veth := false) else h
  }

  /** A cgroup with a live member cannot be removed. */
  function RemoveCgroup(h: Host): (r: Host)
    ensures r.(cgroup := h.cgroup) == h
    ensures r.cgroup.Some? <==> h.cgroup.Some? && !(h.cgroup.value !! h.live)
  {
    match h.cgroup
    case Some(members) => if members !! h.live then h.(cgroup := None) else h
    case None => h
  }

  /** Where a command stands in one read-modify-write of the record. */
  datatype Save = Loading | Truncating(r: Record) | Writing(r: Record)
  datatype Progress = Continue(save: Save) | Saved | SaveFailed

  /** One step of `update`. `ok` says whether the system call succeeds. */
  function SaveStep(h: Host, s: Save, u: Update, ok: bool): (r: (Host, Progress))
    ensures r.0 == h.(state := r.0.state)
  {
    match s
    case Loading =>
      if ok && h.state.Whole? then (h, Continue(Truncating(Apply(u, h.state.record)))) else (h, SaveFailed)
    case Truncating(r) =>
      if ok then (h.(state := Torn), Continue(Writing(r))) else (h, SaveFailed)
    case Writing(r) =>
      if ok then (h.(state := Whole(r)), Saved) else (h, SaveFailed)
  }

  /** A read-modify-write as a whole: whether the record can be read, the file opened, and the text written. */
  function SaveOutcome(file: StateFile, u: Update, loads: bool, opens: bool, writes: bool): (StateFile, bool) {
    if !(loads && file.Whole? && opens) then (file, false)
    else if !writes then (Torn, false)
    else (Whole(Apply(u, file.record)), true)
  }

  /** The next step of a save that is still going. */
  function SaveOn(now: (Host, Progress), u: Update, ok: bool): (Host, Progress) {
    match now.1
    case Continue(save) => SaveStep(now.0, save, u, ok)
    case Saved => now
    case SaveFailed => now
  }

  /** The single steps that the commands interleave add up to that. */
  lemma SaveStepsAddUp(h: Host, u: Update, loads: bool, opens: bool, writes: bool)
    ensures var (file, ok) := SaveOutcome(h.state, u, loads, opens, writes);
            SaveOn(SaveOn(SaveStep(h, Loading, u, loads), u, opens), u, writes)
            == (h.(state := file), if ok then Saved else SaveFailed)
  {
    hide Apply;
  }

  /** The state file and the two ways of writing it: `update`, which reads it first, and `adopt`, which does not. */
  class StateStore {
    const reliable: bool
    var file: StateFile

    constructor (file: StateFile, reliable: bool)
      ensures this.file == file && this.reliable == reliable
    {
      this.file, this.reliable := file, reliable;
    }

    /** Truncate, then write; a fault in between leaves the file torn. */
    method Store(r: Record) returns (ok: bool)
      modifies this
      ensures ok ==> file == Whole(r)
      ensures !ok ==> !reliable && (file == old(file) || file == Torn)
    {
      var opens, writes: bool := *, *;
      if !opens && !reliable {
        return false;
      }
      file := Torn;
      if !writes && !reliable {
        return false;
      }
      file := Whole(r);
      ok := true;
    }

    method RunUpdate(u: Update) returns (ok: bool)
      modifies this
      ensures ok ==> old(file).Whole? && file == Whole(Apply(u, old(file).record))
      ensures !ok ==> file == old(file) || (file == Torn && !reliable)
      ensures reliable ==> (ok <==> old(file).Whole?)
      ensures exists loads, opens, writes ::
                (file, ok) == SaveOutcome(old(file), u, loads, opens, writes) && (reliable ==> loads && opens && writes)
    {
      hide Apply;
      var loads: bool := *;
      if !file.Whole? || (!loads && !reliable) {
        assert (file, false) == SaveOutcome(file, u, reliable, reliable, reliable);
        return false;
      }
      ok := Store(Apply(u, file.record));
      assert (file, ok) == SaveOutcome(old(file), u, true, file != old(file) || ok, ok);
    }
  }
}
