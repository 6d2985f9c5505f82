# mincontainer: snapshots, lifecycle and migration, verified

mincontainer is a container runtime that can freeze a running container into one `.mcsnap` file, bring it
back from that file, and move it to another node over TCP. This project models the parts of it that have to
be right and proves what they promise:

* **Snapshot files.** The table-driven CRC-32, the writer, the streaming reader, and what they say about each
  other for files of every length and every schedule of short reads and writes: round trip, certain detection
  of corruption, truncation.
* **The wire.** Frames, the sender's chunk loop, and the receive loop on arbitrary bytes.
* **The lifecycle.** Checkpoint against its concurrent supervisor, restore with its rollback, reconcile, and
  migration between two nodes, each as a machine of single steps that can fail or be killed anywhere; the
  results hold at every point of every run.
* **Timestamps.** The civil-date arithmetic, and when sorting its output as text sorts by time.

`dafny verify dfyconfig.toml` checks everything.

## How it is modelled

Code that updates objects step by step is modelled by classes and methods with loops (`Crc.Crc32`,
`Writer.CrcWriter`, `Writer.SnapshotWriter`, `Reader.SnapshotReader`, `Streams.Source`, `Streams.Sink`,
`Restoring.Rollback`, `Reconciling.Machine`, `Hosts.StateStore`, the send and receive loops of `Transfer`).
Each is proved against a function on whole byte strings or whole hosts, and the laws are lemmas about those
functions. `checkpoint`, `supervise`, `restore`, `reconcile` and `migrate` are sequences of effects that other
processes and crashes interleave with, so each is a function from a state and an outcome of the outside world
to the next state; a run is any sequence of such steps, interleaved with what happens unasked (a process tree
ends, the kernel takes down the veth of a namespace nobody is left in), and a crash is a run that stops.

| module | source | content |
|---|---|---|
| `Bytes`, `Bitwise` | | fixed-width integers on disk and on the wire; exclusive or on integers of any width |
| `Crc`, `CrcLaws`, `ResidueConstant` | `src/snapshot.rs` | the checksum, what it means, and its residue |
| `Format`, `FormatLaws` | `src/snapshot.rs` | the file as a value; round trip, corruption, truncation |
| `Streams`, `Writer`, `Reader`, `SnapshotRun` | `src/snapshot.rs` | the streaming code, proved equal to the above |
| `Frames`, `Transfer` | `src/transport.rs` | frames, handshake, sender, receiver |
| `Hosts` | `src/state.rs` | the state record, its transitions, and one node's resources |
| `Reconciling`, `Checkpointing`, `Restoring`, `Recovery` | `src/restore.rs`, `src/checkpoint.rs`, `src/main.rs` | the commands on one node |
| `Migrating`, `Outcomes`, `Handover`, `Generations` | `src/migrate.rs`, `src/transport.rs` | two nodes and the wire; what a report is worth; runs that do happen; the hop counter |
| `Calendar`, `Timestamps` | `src/state.rs`, `src/main.rs` | dates and their text |

## What the proofs found

Where the code does less than its comments say, the model follows the code; the lemma named says exactly when
the promise holds.

* `write_entry` does not enforce the reader's name limit of 1 to 4096 bytes, and `finish` compares the manifest's
  length after a cast to 32 bits. What is written reads back exactly when every name is readable and the true
  manifest length is within the limit (`SnapshotRun.WriteThenRead`, `FormatLaws.RoundTrip`).
* The whole-file checksum announced in HELLO is 0x2144DF1C for every finished snapshot, whatever it holds
  (`FormatLaws.FinishedChecksum`): it tells a finished file from a damaged one, but not two files apart.
* A save of the state file truncates it before writing it. A supervisor that looks in between, after the wait for
  it has timed out, takes the container for stopped and overwrites `checkpointed`
  (`Checkpointing.TornReadOverwrites`); one whose look at the record succeeds before the container is given away
  never overwrites it (`Checkpointing.SupervisorYields`). The snapshot's path survives that, and is lost only to a supervisor whose
  read met an I/O error (`Checkpointing.TornLookKeepsSnapshot`, `Checkpointing.UnreadableLosesSnapshot`).
* A supervisor that looks only after a migration has been released, because the five-second wait for it timed out,
  finds `migrated`, which is neither `checkpointing` nor `checkpointed`, and writes `stopped` over it. Nothing has to
  fail for that (`Handover.StoppedThoughMigrated`). A completed migration leaves the sender's record migrated if the
  container had no supervisor, or it has not looked, or it found the record frozen (`Outcomes.CompletedRecords`).
* A checkpoint, restore or reconcile killed between truncating and rewriting the record leaves it torn, and no
  later reconcile or restore gets past reading it: the promise that the next command cleans up fails exactly there
  (`Checkpointing.CrashedCheckpointSettles`, `Restoring.CrashedRestoreSettles`, `Reconciling.CrashedSweepResumes`,
  `Restoring.TornIsForever`).
* The comment that every host resource is registered before it is created (`src/restore.rs:16`) is not what the
  code does, and failures between marking the record and the engine call do not run the rollback. They are
  brought to the same clean state by the next reconcile (`Restoring.FailedRestoreIsClean`).
* A restore killed between the engine's success and the rewriting of the record leaves a live tree that reconcile
  cannot see; it calls the container checkpointed. `Restoring.CrashedRestoreSettles` says this happens exactly
  when the record still says restoring and a tree it does not name is alive, and `Restoring.OrphanHappens` gives
  the run. Running the restore again, which the module's comment recommends for a restore that was killed, then ends
  well with two live trees on one node (`Restoring.RetryLivesTwice`).
* A failure to save the record or the origin after the engine call returns with the rollback neither run nor
  disarmed, so the failed restore leaves its tree alive: exactly then (`Restoring.FailedRestoreIsClean`). If the
  restored record was not yet written the tree is an orphan; if only the origin could not be saved the record is
  right about it and the restore has in fact happened (`Restoring.FailedCommitReconciles`). On a migration target
  the sender is told of a failure all the same, so a delivered failure does not mean that nothing lives there:
  `Outcomes.ReportsAreTrue` gives the exact exception, `Outcomes.ReportedFailureIsSafe` the safe rest, and
  `Handover.LivesTwiceThoughReported` a run in which the recommended local restore then makes the container live
  twice. In the case of the origin the restore was also counted, and the sender's generation does not know
  (`Handover.CommittedThoughFailed`).
* A checkpoint killed between marking the record and the dump is reconciled by killing the container
  (`Checkpointing.CrashedCheckpointSettles`). One killed while writing the snapshot counts as having a snapshot
  (`Recovery.HalfWrittenCountsAsSnapshot`), which then restores exactly or is refused
  (`Recovery.InterruptedPackNeverMisleads`).
* A failed migration that had begun to send its end-of-file message cannot know whether the container is alive on
  the other side, and the local restore that the error message recommends can make it live twice
  (`Migrating.LostOutcomeDuplicates`, `Handover.LivesTwice`). Before that message it is safe (`Migrating.GivingUpEarlyIsSafe`).
* Timestamps sort as text as they do in time up to the end of the year 9999 (`Timestamps.FourDigitYears`), not
  across it (`Timestamps.FiveDigitYears`); `Timestamps.StringOrder` is the exact condition for all times.

## Model

| member | source | states |
|---|---|---|
| `Crc.TableSlot` | src/snapshot.rs:53-58 | the inner loop leaves in each slot eight bit steps of its index |
| `Crc.BuildTable` | src/snapshot.rs:48-62 | all 256 slots are filled that way |
| `Crc.TableForm` | src/snapshot.rs:83 | the table lookup on the low byte, xored with the shifted register, is eight bit-at-a-time steps of the whole register |
| `Crc.StepsLinear` | src/snapshot.rs:56 | stepping distributes over exclusive or, for registers of any width |
| `Crc.StepsInjective` | src/snapshot.rs:56 | distinct 32-bit registers stay distinct |
| `Crc.Crc32.Update` | src/snapshot.rs:79-86 | the table-driven loop over a buffer is the bit-at-a-time division of that buffer |
| `Crc.Crc32.Finish` | src/snapshot.rs:88-90 | the checksum of whatever has been fed since the object was new, in however many pieces |
| `CrcLaws.AbsorbConcat` | src/snapshot.rs:640-647 | updating over any split into chunks equals the one-shot value |
| `CrcLaws.AbsorbIsDivision` | src/snapshot.rs:79-86 | the byte loop is one long division of the whole message read as an integer |
| `CrcLaws.ChecksumIsFrameCheckSequence` | src/snapshot.rs:44-97 | for every message the checksum is the one clause 3.2.9 of IEEE 802.3-2018 defines by polynomial division of the bits in transmission order |
| `CrcLaws.Residue` | src/snapshot.rs:363-367 | a message followed by four bytes has the residue as its checksum if and only if they are the message's own checksum |
| `CrcLaws.ResidueOfSelf` | src/snapshot.rs:365-367 | so a message followed by its little-endian checksum always does |
| `ResidueConstant.ResidueIs` | src/transport.rs:355-372 | the residue is 0x2144DF1C |
| `CrcLaws.BurstDetected` | src/snapshot.rs:48-97 | messages of any length that differ only within 32 consecutive bits have different checksums |
| `CrcLaws.WindowDetected` | src/snapshot.rs:48-97 | the same for four consecutive bytes |
| `Writer.CrcWriter.Write` | src/snapshot.rs:112-118 | checksum and count cover exactly the bytes the inner writer accepted, however short the write |
| `Writer.CrcWriter.CopyFrom` | src/snapshot.rs:357-361 | copies and checksums everything the source has left |
| `Writer.CopyData` | src/snapshot.rs:288-303 | appends all the source has, with its length and checksum, for every schedule of short reads |
| `Writer.SnapshotWriter.HasName` | src/snapshot.rs:272 | found exactly when some entry has the name |
| `Writer.SnapshotWriter.WriteEntry` | src/snapshot.rs:271-316 | refuses exactly duplicates; on success the scratch file and the table describe one more entry with the source's bytes; each error with its cause, and whether the writer may still be used |
| `Writer.SnapshotWriter.Finish` | src/snapshot.rs:326-373 | the file at the destination is magic, length, manifest, payload, trailer, checksum of the entries added; or which error and why, failed flushes included, a fault leaving the old file or a prefix of the new one; the writer is then spent |
| `Writer.Assemble` | src/snapshot.rs:350-369 | the same for the writing part alone: the whole file, or on a fault a prefix of it |
| `Reader.OpenSnapshot` | src/snapshot.rs:401-481 | the streaming header checks give the whole-file answer, error for error, for every schedule of short reads |
| `Reader.SnapshotReader.Verify` | src/snapshot.rs:490-518 | likewise for the integrity check |
| `Reader.SnapshotReader.ReadHeader` | src/snapshot.rs:583-605 | likewise for an entry header |
| `Reader.SnapshotReader.ExtractOne` | src/snapshot.rs:535-578 | likewise for one entry |
| `Reader.SnapshotReader.ExtractAll` | src/snapshot.rs:525-581 | likewise for the whole payload; on success what was written is what is reported |
| `Reader.ChecksumNext` | src/snapshot.rs:496-510 | the counted read loop: those bytes and their checksum, or the end-of-file error exactly when there are too few |
| `FormatLaws.HeaderReadsBack` | src/snapshot.rs:583-605 | a written entry header read from any prefix of its file comes back, or is an error when it is cut |
| `FormatLaws.EntryReadsBack` | src/snapshot.rs:535-578 | one entry comes back whole exactly when its name is readable and the prefix reaches its end |
| `FormatLaws.EntriesReadBack` | src/snapshot.rs:525-581 | the same for every sequence of entries: all of them in order, or an error |
| `FormatLaws.PrefixOpens` | src/snapshot.rs:434-457 | a prefix of a finished file that opens does so with the writer's own manifest and offsets |
| `FormatLaws.FinishedOpens` | src/snapshot.rs:401-481 | a finished file opens exactly when the true manifest length is within the limit, and with what |
| `FormatLaws.FileLayout` | src/snapshot.rs:350-369 | the finished file byte by byte: "MCSNAP" 0 1, the manifest's length, the manifest, the payload, "MCSNAPED", the checksum, lengths least significant byte first |
| `FormatLaws.EntryLayout` | src/snapshot.rs:281-303 | an entry byte by byte |
| `FormatLaws.AcceptedExactly` | src/snapshot.rs:401-518 | open and verify accept exactly the files of that layout whose manifest decodes and is within eight mebibytes |
| `FormatLaws.ExtractsExactly` | src/snapshot.rs:525-605 | extraction gives some entries exactly when the manifest's table is theirs, names, lengths and checksums, their names are readable, and their frames are there |
| `FormatLaws.RoundTrip` | src/snapshot.rs:326-581 | open, verify and extract give back the manifest and the same names and bytes in order, if and only if the names are readable and the manifest fits |
| `SnapshotRun.WriteThenRead` | src/snapshot.rs:271-606 | the same for the streaming writer and reader run end to end, with the writer's refusals exact |
| `SnapshotRun.LoadFile` | src/restore.rs:97-109 | open, verify, extract on any bytes give exactly the whole-file answer |
| `FormatLaws.VerifyIsResidue` | src/snapshot.rs:490-518 | an opened file passes verification exactly when its whole checksum is the residue |
| `FormatLaws.CorruptionRefused` | src/snapshot.rs:401-518 | an accepted file changed within any four consecutive bytes, manifest length, trailer and stored checksum included, is refused |
| `FormatLaws.BurstRefused` | src/snapshot.rs:401-518 | the same for any burst of up to 32 bits |
| `FormatLaws.FinishedChecksum` | src/transport.rs:282 | the checksum announced in HELLO is the constant 0x2144DF1C for every file `finish` produces |
| `FormatLaws.TruncationSafe` | src/snapshot.rs:408-581 | every strict prefix of a finished file is refused or gives exactly the original entries; 1 to 7 bytes missing are refused by open, more than 12 never get through extraction |
| `Frames.CodeRoundTrip` | src/transport.rs:68-89 | a byte decodes to a frame type exactly when it is that type's code |
| `Frames.BytesOnWire` | src/transport.rs:66-98 | a frame byte by byte: the type byte 1 to 6, the length most significant byte first, the payload |
| `Frames.HeaderAccepts` | src/transport.rs:106-121 | a header is accepted exactly when its first byte is one of the six types and its length at most four mebibytes, and what it says then |
| `Frames.FrameParsesExactly` | src/transport.rs:91-128 | a frame is read if and only if it is within its cap and its encoding is there |
| `Frames.FrameRoundTrip` | src/transport.rs:91-128 | a frame within its cap at the head of any stream is read back with the rest untouched |
| `Frames.FrameCut` | src/transport.rs:106-128 | a stream cut inside its first frame gives no frame and no error but starvation |
| `Frames.StreamPrefix` | src/transport.rs:91-128 | any prefix of the encoding of any list of frames parses to a prefix of the list, the whole to all of it |
| `Frames.WriteFrame` | src/transport.rs:91-98 | appends the frame, byte by byte, and refuses 4 GiB and more without writing |
| `Frames.ReadHeader` | src/transport.rs:106-121 | five bytes, known type, length within the cap, or the exact reason, for every schedule of short reads |
| `Frames.ReadPayload` | src/transport.rs:123-128 | exactly the announced bytes, or starvation when there are fewer |
| `Transfer.CommitsExactly` | src/transport.rs:501-555 | on every byte stream, a file is renamed into place if and only if the frames are chunks then an end of file, the file is their concatenation, within the announced size, and its length and checksum are what both messages claim |
| `Transfer.ReceiveSnapshot` | src/transport.rs:501-555 | the loop terminates on every stream with that outcome; the part file holds what it says, and on every exit, faults included, no more than the announced size plus one chunk frame |
| `Transfer.ChecksumFile` | src/transport.rs:355-372 | the checksum of the whole file, for every schedule of short reads |
| `Transfer.SendBody` | src/transport.rs:302-326 | some chunking of the whole file, each chunk within the receiver's cap, then the end-of-file message; fails on a changed size |
| `Transfer.DeliveredBody` | src/transport.rs:302-326 | however the file was chunked and whatever prefix arrived, the receiver commits only on all of it, and then that file; and does commit when the messages describe it |
| `Transfer.DeliveredHello` | src/transport.rs:130-145 | any prefix of what the sender writes yields its HELLO or none, never another; one over the cap is never read |
| `Transfer.HelloReadExactly` | src/transport.rs:130-145 | a HELLO is read if and only if a frame of that type within the cap carries a message that decodes to it |
| `Transfer.OversizedFrame` | src/transport.rs:114-119 | a frame over its cap is refused whatever arrives of it |
| `Hosts.StateStore.Store` | src/state.rs:195-200 | the record written, or on a fault the old file or a torn one |
| `Hosts.StateStore.RunUpdate` | src/state.rs:294-299 | read-modify-write of the record; a torn or missing record is an error and stays; the outcomes are exactly those of the save's three calls failing or not |
| `Hosts.SaveStepsAddUp` | src/state.rs:294-299 | the single steps that commands interleave add up to those outcomes |
| `Reconciling.ReconcileSettles` | src/restore.rs:313-371 | for every host: no transient status left, running only with a live recorded pid, checkpointed exactly when a snapshot file exists and failed otherwise for every stale record, no snapshot touched, debris swept, nothing done to a record that is not stale, and a second sweep changes nothing |
| `Reconciling.ReconcileLabels` | src/restore.rs:320-369 | the labels in so many words: an interrupted record ends checkpointed if the file it names or `latest` is there and failed otherwise, no pid, nothing else changed; any other is left alone; none is left transient, or running without its tree |
| `Reconciling.Machine.SweepDebris` | src/restore.rs:340-352 | kill before cgroup removal, then veth and staging |
| `Reconciling.Machine.RunReconcile` | src/restore.rs:313-371 | the command as a whole has that effect, and fails exactly on a torn record |
| `Reconciling.RcInvKept` | src/restore.rs:313-371 | every single step keeps the account of what has been swept so far |
| `Reconciling.RunAccounted` | src/restore.rs:313-371 | so does every run of it, whatever its calls return |
| `Reconciling.CrashedSweepResumes` | src/restore.rs:313-371 | on any host, killed at any step of any run, the next reconcile ends exactly where the first would have, unless the kill fell between truncating and rewriting the record |
| `Reconciling.DriftingSweepResumes` | src/restore.rs:313-371 | the same while trees end and devices go during the sweep: it ends where a first reconcile would on the host as it now is, and a sweep whose record is rewritten is there already but for a cgroup that emptied too late |
| `Reconciling.SweepRepeats` | src/restore.rs:340-352 | sweeping what is partly swept gives what sweeping once gives |
| `Checkpointing.CkInvKept` | src/checkpoint.rs:76-221 | every checkpoint step keeps the joint invariant with the supervisor |
| `Checkpointing.SupInvKept` | src/main.rs:463-501 | every supervisor step keeps it |
| `Checkpointing.CheckpointInvariant` | src/checkpoint.rs:116-208 | it holds at every point of every interleaving, for every running container, supervised or restored |
| `Checkpointing.SupervisorYields` | src/main.rs:471-500 | after a successful dump a supervisor whose look at the record did not fail never writes it, a container without a supervisor has no exception, and a finished checkpoint leaves the record checkpointed with no pid, no supervisor and the snapshot's path, nothing else changed, and the snapshot packed |
| `Checkpointing.CopyLeavesRunning` | src/checkpoint.rs:146-208 | with `--leave-running` the cgroup is not touched; at the end, no supervisor having stirred, the record is the one found, running under the same pid, with the snapshot's path |
| `Checkpointing.OnlyTheDumpKills` | src/criu.rs:198-201 | no step of a checkpoint ends a process but the dump without `--leave-running`, and that one only its own tree |
| `Checkpointing.FailedDumpIsReported` | src/checkpoint.rs:133-143 | a failed dump writes running if the tree was alive when it failed and failed if not, nothing else of the record changing |
| `Checkpointing.OnlyRunningIsFrozen` | src/checkpoint.rs:86-103 | only a container whose record says running with its tree alive is checkpointed; for any other nothing changes |
| `Checkpointing.WaitsForSupervisor` | src/checkpoint.rs:228-244 | the wait ends only when no supervisor is recorded, or it is gone, or the time is up |
| `Checkpointing.FaultsStop` | src/checkpoint.rs:106-208 | no failed call of a checkpoint is passed over |
| `Checkpointing.AwaitedSupervisorIsDone` | src/checkpoint.rs:228-244 | if the wait saw the supervisor gone, it does nothing ever after and had not looked at a torn record |
| `Checkpointing.FrozenForGood` | src/checkpoint.rs:146-208 | after a finished checkpoint whose supervisor has read a frozen record, the committed record stays for ever |
| `Checkpointing.TornLookKeepsSnapshot` | src/main.rs:475-484 | unless the supervisor's read met an I/O error, a whole record after a finished checkpoint names the snapshot; one that saw a torn record can only have stopped the committed one |
| `Checkpointing.UnreadableLosesSnapshot` | src/main.rs:475-484 | with such an error there is a run that ends stopped under the record from before the commit |
| `Checkpointing.CrashedCheckpointSettles` | src/restore.rs:313-371 | a checkpoint killed at any step, then reconciled: a stale record ends with no processes, checkpointed exactly when a snapshot file exists; any other whole record is left alone; a torn one, which only a cut save leaves, stays torn |
| `Checkpointing.TornReadOverwrites` | src/main.rs:475-484 | from every supervised running container there is a run in which the checkpoint succeeds and the record ends up stopped |
| `Recovery.InterruptedPackNeverMisleads` | src/snapshot.rs:348-369 | a snapshot half written by a killed checkpoint loads as exactly the images or is refused |
| `Recovery.HalfWrittenCountsAsSnapshot` | src/restore.rs:354-359 | and reconcile calls that container checkpointed when the record or `latest` names the file |
| `Restoring.RecordInvKept` | src/restore.rs:126-207 | every step keeps the account of what the state file holds and never touches a snapshot |
| `Restoring.ResourceInvKept` | src/restore.rs:126-207 | every step keeps the account of which resources exist and that the undo list knows those it must |
| `Restoring.LiveInvKept` | src/restore.rs:154-198 | every step keeps the account of which tree can be alive, from any start with nobody alive |
| `Restoring.TornInvKept` | src/restore.rs:127-204 | every step keeps that the record is torn only in a save that has truncated it, or after a failure out of one |
| `Restoring.RestoreInvariant` | src/restore.rs:70-224 | all of these hold at every point of every run, trees that exit on their own included |
| `Restoring.BuildsOnlyChecked` | src/restore.rs:83-107 | past its checks every restore works from the snapshot asked for, or else the recorded one, or else `latest`, which the reader verified and unpacked, for a record that does not name a running tree |
| `Restoring.RunningIsRefused` | src/restore.rs:83-92 | as long as its tree lives, a running container is refused a restore, its host unchanged and nobody added |
| `Restoring.SuccessIsRecorded` | src/state.rs:281-291 | a restore that ends well has written running, the new pid, one restore more, no supervisor, no exit code, the origin if foreign, left nothing behind, and disarmed the rollback |
| `Restoring.FaultsStop` | src/restore.rs:98-198 | no failed call of a restore is passed over, and where each one leads: refused, a failed build, or the rollback |
| `Restoring.DeadTreeStops` | src/restore.rs:169-173 | a tree that has died since the engine call is noticed, and rolled back |
| `Restoring.FailedRestoreIsClean` | src/restore.rs:96-204 | exactly what a failed restore leaves, by where it failed: a failure before the marking changes nothing but staging; one that runs the rollback leaves the host as found; one before the engine call reaches the same after the next reconcile; one to save the restored record or its origin undoes nothing. A failed restore leaves a live tree if and only if it failed there and the tree has not ended |
| `Restoring.FailedCommitReconciles` | src/restore.rs:201-204 | what reconcile then does: a tree the record does not name stays as an orphan, a record that already names it stays, a torn one stays torn |
| `Restoring.CommitFailureHappens` | src/restore.rs:201 | from every restorable host there is such a failure, with the tree alive |
| `Restoring.CrashedRestoreSettles` | src/restore.rs:70-224 | a restore killed anywhere and reconciled, from any host: at most one tree more than before; with a whole record, exactly when an unrecorded tree is left, which from a host with nobody alive is if and only if the record said restoring and a tree it did not name was alive, and in which steps that can be; a torn record stays torn, and in which steps that can be |
| `Restoring.TornIsForever` | src/restore.rs:313-318 | on a torn record every restore, and the reconcile it begins with, fails at reading it and changes nothing |
| `Restoring.OrphanHappens` | src/restore.rs:154-165 | from every restorable host there is such a run; the sweep keeps the tree unless the old record named the very pid the engine chose |
| `Restoring.RetryLivesTwice` | src/restore.rs:11-14 | run again after that kill, the restore succeeds with both its trees alive on one node |
| `Restoring.RestoreSucceeds` | src/restore.rs:70-224 | from every restorable host, snapshots from elsewhere included, there is a run that ends with the tree alive, recorded and counted |
| `Restoring.UndoIsOneRun` | src/restore.rs:251-279 | the four undo steps of the step machine are one run of the undo list |
| `Restoring.Rollback.Run` | src/restore.rs:251-279 | network, then tree, then the emptied cgroup, then staging; at most once |
| `Generations.RestoreIsAttempt` | src/restore.rs:70-224 | every run of a restore that ends with a report, on any record, stale or not, leaves exactly the record of one of: refused, taken back, swept up, committed |
| `Generations.RestoreCounts` | src/restore.rs:70-224 | at every point of every restore a readable record counts the commits made so far |
| `Generations.CommitsOnce` | src/restore.rs:200-205 | a restore that succeeds commits once; one that fails, only if it failed in saving its record |
| `Generations.CheckpointCounts` | src/checkpoint.rs:76-221 | no interleaving of checkpoint and supervisor, finished, failed or killed, changes the generation |
| `Generations.MigrationCounts` | src/migrate.rs:54-116 | no migration changes the generation on the sender; a completed one committed one restore and the receiver's record counts it |
| `Generations.StepCounts` | src/state.rs:281-291 | each run of a command, as far as it got, adds to the owner's generation exactly the record-writing steps of restores in it |
| `Generations.GenerationCountsRestores` | src/state.rs:73-76 | along any sequence of such runs on any nodes, migrations with their outcome delivered, the owner's generation is the number of restores committed on all nodes, modulo its 32 bits |
| `Migrating.ReceivedIsFile` | src/transport.rs:501-555 | whatever prefix has arrived, the receive loop commits only the sender's whole snapshot, after all of it was sent |
| `Migrating.OpenedInfo` | src/checkpoint.rs:169-174 | the manifest the receiver opens carries the record the container ran under, checkpointed and without its pid, and the host that packed it |
| `Migrating.ShippedLoads` | src/checkpoint.rs:543-601 | the shipped file loads as its manifest and images |
| `Migrating.SendKeeps` | src/transport.rs:242-340 | every sender step, failed partial writes included, keeps the invariant of nodes and wire |
| `Migrating.ReceiveKeeps` | src/transport.rs:425-606 | every receiver step keeps it |
| `Migrating.MigInvKept` | src/migrate.rs:54-116 | every action of either node, the wire, or a crash keeps it |
| `Migrating.RunKeeps` | src/migrate.rs:54-116 | it holds after every run |
| `Migrating.NeverLiveTwice` | src/migrate.rs:21-24 | at no point of any run, whatever is lost and whoever crashes, do both nodes hold live processes |
| `Migrating.ReleaseIsJustified` | src/migrate.rs:108-116 | the sender's record says migrated only after the receiver committed its restore, from a file equal byte for byte to the sender's snapshot, generation advanced by one |
| `Migrating.CommittedLoads` | src/transport.rs:557-564 | what the receiver commits loads as the manifest and images that were frozen |
| `Migrating.AdoptsOnlyAccepted` | src/restore.rs:567-580 | only a file that opens and verifies is adopted, as the manifest's record, checkpointed, no pid, under its inbox path, from the host that packed it |
| `Migrating.HelloSaysWhat` | src/transport.rs:275-285 | which field of HELLO carries what: protocol 1, id, architecture, token, and the length and checksum of the file on disk |
| `Migrating.SenderFaultsStop` | src/transport.rs:250-337 | no failed call of the sender is passed over, and its own node stays as it was |
| `Migrating.ReceiverFaultsStop` | src/transport.rs:435-604 | a receiver that refuses or fails says so if it can, and never the opposite |
| `Migrating.NeverLost` | src/migrate.rs:95-105 | from the end of the checkpoint the sender's snapshot stays and loads as the images; until a success was reported the record is the checkpointed one, unless there is a supervisor whose look at it failed, and names the snapshot unless that look met an I/O error |
| `Migrating.GivingUpEarlyIsSafe` | src/migrate.rs:95-105 | if the sender stops before its end-of-file message, the container never comes to life on the other node |
| `Migrating.LostOutcomeDuplicates` | src/migrate.rs:99-105 | from every state in which the sender waits for the outcome and the receiver for the bytes, both hosts clean and the sender's record leading to its snapshot, there is a run after which the recommended local restore makes the container live twice |
| `Outcomes.ReplyKept` | src/transport.rs:557-605 | every action keeps what stands behind the receiver's report, sent or about to be |
| `Outcomes.ReportsAreTrue` | src/transport.rs:566-605 | at any point of any run: behind a reported success the restored record; behind a reported failure nobody alive, unless the restore failed to save its record after the engine call, and then at most its one tree |
| `Outcomes.ReportedFailureIsSafe` | src/migrate.rs:95-105 | after any other reported failure the container never comes to life on the receiver |
| `Outcomes.CompletedRecords` | src/migrate.rs:108-116 | the two records of a completed migration: restored there; here the committed one marked migrated if there is no supervisor, or it has not looked, or it found the record frozen; one that found anything else looked after the release and can only have stopped that record |
| `Outcomes.SendsOnlyIfAccepted` | src/transport.rs:288-300 | over every run, no byte of the file before an acceptance and no release before a success |
| `Handover.Freezes` | src/checkpoint.rs:76-221 | from every start, supervised or not, there is a run that ends checkpointed, with the snapshot written and a clean host, the supervisor gone or still asleep |
| `Handover.Ships` | src/transport.rs:242-331 | and one that goes on to ship the whole file, however many chunks it takes, up to the wait for the outcome |
| `Handover.HandsOver` | src/migrate.rs:54-116 | from every ready start there is a run that completes: migrated and no process here, live there under a record that names the pid and counts one restore more |
| `Handover.StoppedThoughMigrated` | src/main.rs:475-484 | from every ready start with a supervisor there is a run that completes, after which the late supervisor writes stopped over migrated |
| `Handover.LivesTwice` | src/migrate.rs:99-105 | from every ready start there is a run in which the connection dies, the migration fails, and the recommended local restore succeeds while the container is live there |
| `Handover.LivesTwiceThoughReported` | src/transport.rs:585-604 | and one in which the receiver cannot save its record, its failure is delivered, and that local restore succeeds while the container is live there |
| `Handover.CommittedThoughFailed` | src/restore.rs:202-204 | and one in which only the origin cannot be saved: a failure is delivered for a restore that was committed and counted |
| `Calendar.YearOfEraUnique` | src/state.rs:361 | the corrected division finds the year of every day of every year of the era |
| `Calendar.YearOfEraExact` | src/state.rs:361-363 | every day of the era lies in the year the division picks |
| `Calendar.CivilSuccessor` | src/state.rs:355-367 | day n + 1 is the calendar successor of day n, for every n, under the leap rule of Appendix C of RFC 3339 |
| `Calendar.CivilIsCalendar` | src/state.rs:355-367 | the closed form is the calendar counted day by day from 1970-01-01 |
| `Calendar.CivilRoundTrip` | src/state.rs:355-367 | month and day are in range for the year, and the day count can be recovered, for every day count |
| `Calendar.DaysRoundTrip` | src/state.rs:355-367 | every calendar date is the conversion of its day count |
| `Timestamps.MomentsAdvance` | src/state.rs:355-374 | later clock readings are later dates and times |
| `Timestamps.MomentExact` | src/state.rs:355-373 | the days of the date and the seconds of the day add up to the clock reading |
| `Timestamps.TimestampSpells` | src/state.rs:369-374 | the text reads back: digits for year, month, day, hour, minute and second in their places, the marks of RFC 3339 between them, at every width of the year |
| `Timestamps.SameWidthOrder` | src/state.rs:369-374 | timestamps whose years print equally wide compare as text exactly as in time |
| `Timestamps.WiderYearOrder` | src/state.rs:369-374 | a narrower year sorts first exactly when it does not exceed the leading digits of the wider one |
| `Timestamps.StringOrder` | src/state.rs:348-375 | for any two readings, when text order is time order |
| `Timestamps.FourDigitYears` | src/state.rs:348-375 | before the year 10000 timestamps have 20 characters and text order is time order |
| `Timestamps.FiveDigitYears` | src/state.rs:348-375 | one second across the end of 9999 it is not |
| `Timestamps.PsIsChronological` | src/main.rs:579 | a list that is sorted by timestamp text is in order of creation |

## Left out

- JSON: the text of manifests and messages is a pair of functions; that decoding undoes encoding and that no proper prefix of a manifest is a document are hypotheses (`Format.Lawful`, `Transfer.Lawful`). The manifest is its entry table and a value for the rest.
- UTF-8 and `safe_join` are predicates on names, given by the caller.
- The engine, cgroups, veth pairs and namespaces are contracts: a successful dump without `--leave-running` kills the tree, a successful restore makes one tree live, a cgroup is removable when no member lives, network setup is all or nothing, a killed tree is gone when the wait for it ends.
- Fields of the record that no decision reads (names and times) and the configuration file beyond whether it is readable and has a network.
- The generation wraps at 32 bits, as in a release build; the overflow panic of a debug build is not modelled.
- Sockets, timeouts, name resolution and tokens: the wire delivers any prefix and may die; the handshake's refusals are one arbitrary answer, and the receiver's ERROR frame is an outcome that is not success.
- `--use-existing`, `--keep-local`, and other commands on the sender while a migration runs: `Migrating` is about one default migration of a running container, and its results are not claimed with those options; `Migrating.LostOutcomeDuplicates` shows why a local restore is excluded.
- `Generations.GenerationCountsRestores`: a migration is a step of its runs only if its outcome was delivered and, when that was a failure, the receiver had not committed; `Handover.CommittedThoughFailed` shows that the count is otherwise off by one.
- Commands that run on a node while the supervisor of an earlier checkpoint is still winding down, other than the checkpoint or migration itself.
- `Outcomes.CompletedRecords`: nothing is said of the sender's record after a supervisor's look that failed or met a torn record, beyond what `Checkpointing.TornLookKeepsSnapshot` says up to the release.
- `Migrating.NeverLost`: the record clauses except a supervisor whose look at the record failed, because then the code does overwrite it (`Checkpointing.TornReadOverwrites`, `Checkpointing.UnreadableLosesSnapshot`).
- `Reconciling`, `Checkpointing`, `Restoring`, `Migrating`: the interleaved commands are step functions on values, not objects updated in place; concurrent effects on one file other than the state record are not captured.
- `Timestamps.PsIsChronological`: the sort itself is the library's; only what its order means is stated.
- `SnapshotRun.WriteThenRead`: on storage that does not fail; the methods it calls state what a fault leaves.
- Creating and removing the scratch and part files by name, procfs parsing, preflight checks, address formatting, timings, reports, the command line and the benchmarks: no hard property.
