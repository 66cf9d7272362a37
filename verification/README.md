# A verified model of the low-reasoning harness

The harness drives a phased workflow over a file system that several processes may use and that may lose power at any
moment. This project models the parts of it whose correctness rests on an order of steps, and proves what that order
is for. It is checked as a whole with `dafny verify dfyconfig.toml` (Dafny 4.11). Nothing was executed.

- **The primary lock** (`LockClassifier`, `PhaseLock`, `PhaseLockRuns`, `LockHandover`, `CommitProgress`, `LockWaiting`).
  Any number of processes take, hold, release and recover an exclusive lock file, one atomic file operation at a time,
  with crashes and reboots between any two. Lock owners run `approve` and `reopen` transactions, so the machine also
  carries the state file.
- **The audited transaction** (`AuditTail`, `AuditLog`, `PhaseTxn`, `TxnChain`, `AuditJson`, `Decimals`). Rows of
  bounded length, a reader of the last index that goes backwards in chunks, rotation over five files, the commit that logs before it
  replaces, and the rows as JSON lines, with their lengths.
- **The staged install** (`InstallDisk`, `InstallRuns`, `BatchRecovery`, `LeftoverRuns`, `Upgrade`, `UpgradeLands`,
  `UpgradeRuns`). `InstallDisk` is the disk with one action for each file operation and the invariant a restarted process
  can rely on. `InstallRuns` and `UpgradeRuns` are the programs, each written over those actions, so that a history may be cut after any of them and taken up by a
  recovery. `LeftoverRuns` adds a second run over what a crashed one left.
- **The phase lifecycle** (`Timestamps`, `Transition`, `Lifecycle`, `LifecycleRuns`, `VerbOutcomes`, `Workspace`,
  `WorkspaceRuns`, `StatusNext`, `AdviceRuns`). The verbs as functions and whole runs of them, the same verbs as methods that edit a file and a log,
  whole runs of those, and the advice the status commands give.
- **The text engines** (`TextLines`, `AppendBlock`, `BlockRuns`, `ManagedBlock`, `StateRepair`, `RepairOutcomes`, `Recon`,
  `ReconReading`, `MergeOutcomes`, `TextFormats`). Marker blocks, phase bullets, front matter and anchored sections, character by character.

Conventions. SHA-256 and the canonical JSON of a state are injective functions. A completed rename, append or replace is
durable and atomic. Hostnames are unique, a boot id names one boot, and host, boot, pid and start time name one process
incarnation; lock tokens never repeat. Texts are ASCII as far as Unicode normalisation goes. Lines of `append_block.py`
are cut where `splitlines` cuts, lines of `managed_block.py` and `recon.py` at newlines only.

What the code does not do. Several properties that its comments suggest are false as they stand. Each has a lemma that
shows it, and where a caller can check a condition beforehand, a theorem that the property holds exactly under it.

- An upgrade can publish an old hash for a file that does not have it: for a changed file no longer shipped, and for one
  whose policy became seed, project-owned or managed-append (`Upgrade.EditedRetiredFileIsRecordedWrong`,
  `Upgrade.FileBecomeSeedIsRecordedWrong`, `Upgrade.PlannedGap`).
- A run that starts over what a crashed one left can be undone by the recovery of the first, and a manifest published
  that is wrong (`LeftoverRuns.RecoveryAfterASecondRun`, `LeftoverRuns.LeftoverExactly`).
- The minimal fallback row of the audit log drops the transaction id and the hashes, which a long name is enough for
  (`AuditJson.LongNameLosesItsStamp`, `AuditJson.ApproveKeepsItsStampExactly`, `PhaseTxn.LoggedExactly`).
- A crash between creating the temporary state file and the replace blocks every later commit, since nothing removes
  the file (`CommitProgress.CrashLeavesItStuck`, `CommitProgress.CommitsExactly`).
- A torn journal line hides the next rename from a rollback, and files set aside may share a name
  (`BatchRecovery.RenameIsJournalledExactly`, `InstallRuns.ConflictNamesApart`).
- Canonicalizing a payload can turn a plain line into a marker (`ManagedBlock.TrailingBlankMakesAMarker`,
  `ManagedBlock.ReplaceRoundTrip`).
- A first roadmap repair can leave a text that the next one refuses (`StateRepair.BareHeadingIsRefused`,
  `StateRepair.FirstRepairReadable`).
- A log rotation cut short makes the next one drop a file too many (`AuditLog.InterruptedRotationLosesAFile`,
  `AuditLog.InterruptedRotation`).
- An approval given within the second of its stamp is stale and stuck (`Timestamps.HalfSecondCanBeStale`,
  `LifecycleRuns.StaleApprovalNeedsReset`).
- An untitled heading swallows the first line of its section (`Recon.UntitledHeadingLosesALine`), and a heading in
  detected content a section of the user's (`ReconReading.StrayHeadingReplacesABody`,
  `ReconReading.MergedSectionsExactly`).
- Agent-safe advice can name a move the gate refuses (`StatusNext.AdviceWithoutPhaseIsRefused`,
  `StatusNext.SafeAdviceExactly`), and the advice alone never leads to done (`AdviceRuns.AdviceLeadsToDoneExactly`).

## Model

| member | source | states |
|---|---|---|
| Timestamps.DigitsRoundTrip | scripts/lib/timestamps.py:28-35 | the nine fractional digits of a nanosecond stamp spell the nanoseconds |
| Timestamps.MicrosOfNanos | scripts/lib/transition.py:235-260 | a nanosecond stamp is compared as its instant cut to whole microseconds |
| Timestamps.StaleExactly | scripts/lib/transition.py:206-232 | a second-resolution approval is judged older than a nanosecond stamp exactly when its whole second, in microseconds, lies before the stamp |
| Timestamps.OneSecondSuffices | scripts/lib/phase_preflight.py:50-57 | an approval given a second or more after the stamp is never judged stale |
| Timestamps.HalfSecondCanBeStale | scripts/lib/phase_preflight.py:50-57 | a concrete approval given after the stamp, but within the same second, that is judged stale |
| Transition.TableIsOrdered | scripts/lib/transition.py:37-53 | which moves each row admits: one step forward with an approval, backward only with a reset |
| LifecycleRuns.StepKeepsInv | scripts/lib/phase_cli.py:311-432 | every verb and every outside edit keeps the conservation of approvals, the stamps and the freshness of waited approvals |
| LifecycleRuns.RunKeepsInv | scripts/lib/phase_state.py:74-113 | the same over every sequence of verbs with a monotone clock |
| LifecycleRuns.ApprovalConservation | scripts/lib/phase_cli.py:393-432 | over every run from a fresh workspace, approvals = forward moves + revocations + the one still held, and an approval is held only in plan or execute and was given since that phase was entered |
| LifecycleRuns.WaitedApprovalIsNeverStale | scripts/lib/transition.py:263-333 | an approval given a second after the stamp opens the gate, whatever verbs came between |
| LifecycleRuns.ApprovedMove | scripts/lib/transition.py:263-361 | one approval and one move lead to the next phase from any state that satisfies the invariant |
| LifecycleRuns.NoDeadEnds | scripts/lib/transition.py:37-53 | from every state any run can reach, a computed sequence of verbs ends in done |
| LifecycleRuns.OnlyApproveApproves | scripts/lib/phase_approve.py:196-362 | nothing but a confirmed approval on a terminal, in manual mode, by a named person, in plan or execute, turns an unapproved state into an approved one, and it changes nothing else |
| LifecycleRuns.SetKeepsForeignVersions | scripts/lib/phase_cli.py:120-151 | `phase set` never writes over a state of another schema version, what it writes is of this one, and a refusal leaves the file alone |
| LifecycleRuns.ReopenKeepsTheScope | scripts/lib/phase_reopen.py:244-279 | reopening shuts the gate and loses no scope: what was set is in the draft fields, and a draft is replaced only by a scope |
| VerbOutcomes.GateExactly | scripts/lib/transition.py:263-361 | the gate opens exactly for an approved step forward with the scope and stamps it needs, a reset backward, and done again |
| VerbOutcomes.MovesExactly | scripts/lib/phase_cli.py:311-432 | when `phase set` moves: another phase or a reset, the gate open, and nothing of mode, stdin and schema against it |
| VerbOutcomes.RestampsExactly | scripts/lib/phase_cli.py:216-310 | when `phase set` only restamps, and that a restamp changes nothing but stamp and metadata |
| VerbOutcomes.MoveLeaves | scripts/lib/phase_cli.py:393-432 | what a move leaves: phase, stamps, the approval spent or kept, and every other field as before |
| VerbOutcomes.ApproveExactly | scripts/lib/phase_approve.py:196-362 | when an approval takes effect, and that it changes who, when and nothing else |
| VerbOutcomes.ReopenExactly | scripts/lib/phase_reopen.py:100-243 | when a reopening goes through, and that a refused one changes nothing |
| VerbOutcomes.ReopenLeaves | scripts/lib/phase_reopen.py:261-279 | what a reopening leaves: the phase asked for, unapproved, the scope set aside, every other field as before |
| VerbOutcomes.ReopenLeadsBack | scripts/lib/phase_reopen.py:261-279 | from execute or done, reopen to plan, give a scope, approve a second after the plan stamp and move: the run is back in execute |
| VerbOutcomes.MetaIsLastGiven | scripts/lib/phase_cli.py:311-432 | over every run each metadata key has the value last given for it by a `phase set` that wrote |
| WorkspaceRuns.PlayOne | scripts/lib/phase_cli.py:216-432 | one verb on the workspace object: its file, the ledger its audit log spells, and the log as a history of its file |
| WorkspaceRuns.Play | scripts/lib/phase_cli.py:393-432 | any sequence of verbs and outside edits on a fresh workspace: counted in its audit log alone, approvals = forward moves + revocations + the one held, and nothing but the scope changed without a row |
| LifecycleRuns.StaleApprovalNeedsReset | scripts/lib/phase_approve.py:263-283 | an approval given too soon is stuck: over every sequence of verbs without a reset, in plan and in execute, it stays, the phase stays and the gate stays shut |
| StatusNext.StatusAgreesWithGate | scripts/lib/status_next.py:168-179 | the two projected booleans hold exactly when the gate accepts the move |
| StatusNext.AdviceIsAccepted | scripts/lib/status_next.py:215-287 | in execute, and in plan with a scope, the advice is agent-safe exactly when the gate accepts the forward move, and it names that move |
| StatusNext.SafeAdviceExactly | scripts/lib/status_next.py:215-287 | in every state agent-safe advice is a move, and the gate accepts it exactly when the state names a phase and, in plan, has a scope |
| StatusNext.AdviceWithoutPhaseIsRefused | scripts/lib/status_next.py:215-287 | the advice for an empty state is agent-safe and the gate refuses it |
| AdviceRuns.HumanAdvice | scripts/lib/status_next.py:215-287 | when a human is asked for, what is advised in plan and in execute, and exactly when doing it takes effect |
| AdviceRuns.AdviceLeadsToDoneExactly | scripts/lib/status_next.py:121-150 | some run that follows the advice reaches done exactly from done or from execute with a fresh approval; from anywhere else the advice goes round for ever |
| StatusNext.ScopelessPlanOverPromises | scripts/lib/status_next.py:175-179 | without a scope the plan projection is right exactly when both scope fields are set |
| LockClassifier.StaleMeansDead | scripts/lib/phase_lock.py:251-285 | a stale verdict implies that the recorded process incarnation is dead |
| LockClassifier.StaleExactly | scripts/lib/phase_lock.py:251-285 | with a recorded start time and a lookup that answers, stale holds exactly when the owner is dead |
| LockClassifier.VerdictExactly | scripts/lib/phase_lock.py:251-285 | each of the four verdicts exactly, for every record of a process that has lived and every lookup that does not lie |
| LockClassifier.WorldStaysOk | scripts/lib/phase_lock.py:132-180 | starts, deaths and reboots keep incarnations unique |
| PhaseLock.CreateKeepsInv | scripts/lib/phase_lock.py:335-363 | the exclusive create keeps the lock invariant, whether it wins or not |
| PhaseLock.ClassifyPrimaryKeepsInv | scripts/lib/phase_lock.py:365-381 | reading and classifying the owner keeps the invariant |
| PhaseLock.OpenMutexKeepsInv | scripts/lib/phase_lock.py:431-460 | at most one process gets past the recovery mutex |
| PhaseLock.UnlinkStaleKeepsInv | scripts/lib/phase_lock.py:461-507 | the unlink of a stale lock keeps the invariant: nobody owned it |
| PhaseLock.OwnerActionKeepsInv | scripts/lib/phase_lock.py:344-361 | every step of a lock owner, its transaction included, keeps the invariant |
| PhaseLock.ReplaceStep | scripts/lib/phase_txn.py:193-200 | the replace extends the chain of committed states |
| PhaseLock.StepKeepsInv | scripts/lib/phase_lock.py:293-507 | every step of every process, crashes and reboots included, keeps the invariant |
| PhaseLock.RunKeepsInv | scripts/lib/phase_lock.py:293-507 | the invariant holds in every reachable state of any number of processes |
| PhaseLockRuns.MutualExclusion | scripts/lib/phase_lock.py:293-428 | in every interleaving at most one live process holds an unreleased handle, and then the lock file carries its token |
| PhaseLockRuns.DeadStayDead | scripts/lib/phase_lock.py:251-285 | an incarnation that died never lives again in any later state |
| PhaseLockRuns.StaleVerdictIsFinal | scripts/lib/phase_lock.py:251-285 | a stale verdict reached in a run names an owner that is dead in every later state |
| PhaseLockRuns.RecoveryIsExact | scripts/lib/phase_lock.py:431-507 | one process at a time is in recovery, the second validation sees the token of the first, and the unlink removes that dead owner's record |
| PhaseLockRuns.ReplaceSeesItsBeforeState | scripts/lib/phase_approve.py:229-362 | at the moment of its replace a transaction's before-state is the file's content |
| PhaseLockRuns.HistoryIsFixed | scripts/lib/phase_txn.py:131-202 | over every run the list of commits and the list of audit rows only grow at the end |
| PhaseLockRuns.NoLostUpdate | scripts/lib/phase_reopen.py:201-330 | committed states form one chain from the first file to the present one, each commit being its verb applied to the state before, and each has its audit row |
| PhaseLockRuns.AfterIsTheVerb | scripts/lib/phase_reopen.py:201-330 | what is committed is what the verb makes of the state, and nothing when it refuses |
| PhaseLockRuns.DeadOwnersLockCanBeTaken | scripts/lib/phase_lock.py:392-403 | from any reachable state in which a dead owner's sealed lock is left, some sequence of steps gives the lock to an idle process |
| LockHandover.LiveHolderIsWaitedFor | scripts/lib/phase_lock.py:365-390 | a live holder's record never leads to recovery, and the contender waits exactly when enough is known of the holder |
| LockHandover.ContenderKeepsWaiting | scripts/lib/phase_lock.py:313-403 | in every interleaving a patient contender waits for as long as somebody alive holds the lock |
| LockHandover.ReleaseFreesTheLock | scripts/lib/phase_lock.py:406-428 | releasing removes the lock file, and nobody owns it then |
| LockHandover.ReleasedLockIsTaken | scripts/lib/phase_lock.py:313-403 | a contender that met a live holder can hold the lock once it is released |
| LockHandover.WhyAContenderStops | scripts/lib/phase_lock.py:313-403 | a contender stops exactly on its own deadline, an unparseable lock file or an ambiguous verdict |
| LockHandover.VanishedLockIsRetried | scripts/lib/phase_lock.py:370-373 | a lock file gone again when it is read is tried for again |
| LockHandover.RecoveryHoldsBack | scripts/lib/phase_lock.py:313-330 | nobody tries for the lock while the recovery mutex is there |
| LockHandover.HalfMadeLockIsDropped | scripts/lib/phase_lock.py:335-361 | a lock whose record could not be written is dropped, and the next contender can take it |
| CommitProgress.StuckForGood | scripts/lib/phase_txn.py:169-173 | once a temporary state file is left behind, no later run commits or logs anything |
| CommitProgress.CrashLeavesItStuck | scripts/lib/phase_txn.py:169-195 | a crash between creating the temporary file and the replace is enough |
| CommitProgress.CommitsExactly | scripts/lib/phase_txn.py:169-200 | with the lock just taken some run commits exactly when no temporary file was left behind |
| LockWaiting.BackoffInRange | scripts/lib/phase_lock.py:87-89 | the doubling backoff stays between its initial value and its maximum |
| LockWaiting.SleepsAddUp | scripts/lib/phase_lock.py:87-89 | how much the first n sleeps come to, from below |
| LockWaiting.NapBound | scripts/lib/phase_lock.py:313-403 | a total sleep below the timeout bounds the number of sleeps |
| LockWaiting.AcquirePrimary | scripts/lib/phase_lock.py:293-403 | how many passes sleep and how long, the cause of every exit, a timeout exactly at the first sleeping pass past the deadline or the mutex cap, and the bounds on sleep and number of sleeps |
| LockWaiting.LockHandle.Release | scripts/lib/phase_lock.py:406-428 | the first release removes the lock file, a second touches nothing |
| AuditTail.ReadLastIndex | scripts/lib/audit.py:89-111 | the answer for every file: that of a full split of the suffix read, and of the whole file whenever that suffix decides |
| AuditTail.ReadTail | scripts/lib/audit.py:95-101 | the chunked reading backwards stops at the shortest run of chunks with two newlines, or has the whole file |
| AuditTail.ScanBack | scripts/lib/audit.py:102-110 | the scan from the end returns the index of the last piece that parses |
| AuditTail.TailAgrees | scripts/lib/audit.py:95-111 | a suffix with two newlines decides the index as the whole file does |
| AuditTail.GoodLogTail | scripts/lib/audit.py:114-125 | for a log of whole, parseable lines the answer is the index of the last line |
| AuditTail.TornTailIsSkipped | scripts/lib/audit.py:105-110 | a half-written last line is skipped and the line before it decides |
| AuditLog.ShiftKeepsOrder | scripts/lib/audit.py:140-148 | moving rotated files up by one name never reorders what is on disk |
| AuditLog.RotationIsTidy | scripts/lib/audit.py:128-148 | after a rotation every rotated file is full, numbered from 1, with no gap in the names |
| AuditLog.RotationRetains | scripts/lib/audit.py:128-148 | a rotation loses none of the latest 50,000 rows |
| AuditLog.AppendAllRetains | scripts/lib/audit.py:220-337 | any sequence of appends to a tidy log keeps it tidy and keeps the latest 50,000 of all rows ever stored |
| AuditLog.RetentionBound | scripts/lib/audit.py:75-78 | from an empty log: rotated files have exactly the indices 1 to 10,000 and the files oldest to newest are a suffix of all rows, losing nothing among the latest 50,000 |
| AuditLog.RecentRowIsThere | scripts/lib/audit.py:128-148 | a row among the latest 50,000 is on disk |
| AuditLog.ByteTriggerNeverFires | scripts/lib/audit.py:252-255 | 10,000 bounded lines stay below 10 MiB, so only the entry count rotates |
| AuditLog.LastIndexOfFile | scripts/lib/audit.py:253-253 | the tail reader applied to a numbered file returns its row count |
| AuditLog.MidRotationRetains | scripts/lib/audit.py:140-148 | at every point between the renames of a rotation the latest 50,000 rows are on disk in order |
| AuditLog.InterruptedRotation | scripts/lib/audit.py:128-148 | after a rotation cut short at any point the next one still has the latest 50,000 rows exactly when no rename was done or file .4 did not exist |
| AuditLog.InterruptedRotationLosesAFile | scripts/lib/audit.py:140-148 | stopped after any rename with file .4 there, a rotation makes the next one leave 40,000 of at least 50,000 rows |
| AuditLog.Log.Rotate | scripts/lib/audit.py:128-148 | the rename chain leaves the rotated directory and passes only through its partial shifts |
| AuditLog.Log.RotateIfFull | scripts/lib/audit.py:251-272 | the rotation check leaves a file with room, and returns its last index |
| AuditLog.StoredRowIsRichest | scripts/lib/audit.py:282-324 | the stored row is the richest form of the entry that fits the line limit, and the append raises exactly when no form fits |
| AuditLog.Log.Append | scripts/lib/audit.py:220-337 | the directory and the stored row after one append; every state on the way keeps the latest 50,000 rows |
| PhaseTxn.TxnDirectory.CommitTransaction | scripts/lib/phase_txn.py:115-202 | which outcome, which files; after a commit the log ends with a row for each draft in order, carrying this id, the hash before and the hash of the new state file; at every point the old state or the new one with every row appended |
| PhaseTxn.RowsOfAppends | scripts/lib/phase_txn.py:184-190 | which row each draft is stored as, whatever rotations happen in between |
| PhaseTxn.LoggedExactly | scripts/lib/phase_txn.py:186-190 | every draft's row is in the log with its transaction id and hashes exactly when no draft needed the minimal fallback |
| PhaseTxn.CommitCrashAtomicity | scripts/lib/phase_txn.py:131-202 | at every crash point the state is old or canonical new; new implies fully logged, exactly when no draft needed the minimal fallback |
| PhaseTxn.StateReadsOldOrNew | scripts/lib/phase_txn.py:95-104 | after a crash the state file reads as the old state or the new one |
| TxnChain.CommitAll | scripts/lib/phase_txn.py:131-202 | commits one after another log one chain of hashes from the first state to the bytes of the file at the end |
| TxnChain.NeighboursMeet | scripts/lib/phase_txn.py:158-159 | of two commits in a row the second starts from the hash the first ended with |
| AuditJson.JsonIsFaithful | scripts/lib/audit.py:114-125 | a row written as JSON is one line, and the index read from it is its own |
| AuditJson.QuotedEndsAtItsQuote | scripts/lib/audit.py:287-288 | a written string ends where it was ended, whatever is in it |
| AuditJson.ApproveLengths | scripts/lib/phase_approve.py:330-362 | the length of an approval's row in each of its three forms |
| AuditJson.ApproveKeepsItsStampExactly | scripts/lib/audit.py:287-324 | an approval's row keeps its transaction id and hashes exactly when name, time, terminal and index come to at most 609 characters |
| AuditJson.LongNameLosesItsStamp | scripts/lib/audit.py:299-324 | a concrete approval, by a name of 700 characters, that is committed with a row that has neither transaction id nor hash |
| AuditJson.ArgumentsNeverCostTheStamp | scripts/lib/audit.py:290-297 | no argument of a draft, however long, costs its row the transaction fields |
| AuditJson.ReopenKeepsItsStamp | scripts/lib/phase_reopen.py:284-330 | a reopening by a name of up to 300 characters is fully logged whatever its reason |
| InstallDisk.RenameKeepsOverlay | scripts/lib/atomic_io.py:484-494 | a rename leaves target overlaid by staging unchanged |
| InstallDisk.StepKeepsInv | scripts/lib/install_recovery.py:228-333 | every file operation of install, upgrade, rollback and recovery keeps the disk invariant |
| InstallDisk.HistoryKeepsInv | scripts/lib/install_recovery.py:486-536 | the invariant holds at every point of every history, crashes and restarts included |
| InstallDisk.CrashConsistency | scripts/lib/install.py:394-518 | whenever the published manifest is the run's, the harness-owned paths that do not hold the recorded bytes are exactly those it was composed wrong for, for an install none; `LeftoverRuns.LeftoverExactly` adds a second run |
| InstallDisk.BatchConservation | scripts/lib/atomic_io.py:406-546 | over batches, crashes and resumes: the overlay never changes, journalled paths have left staging, and the sentinel stands only over an empty staging |
| InstallDisk.TearLosesOneRow | scripts/lib/atomic_io.py:437-452 | a torn journal line costs at most the one line written next |
| BatchRecovery.AbortThenRecover | scripts/lib/install_recovery.py:251-283 | after an aborted batch and its recovery no path holds bytes of the run, and with backups of what was there the target is as before |
| BatchRecovery.RenameIsJournalledExactly | scripts/lib/atomic_io.py:520-530 | a completed rename is found in the journal exactly when the journal did not end in a torn line |
| LeftoverRuns.TreeInvThroughout | scripts/lib/install_recovery.py:228-333 | what stays true of both runs while a leftover that does not disturb is recovered at any moment of the later run |
| LeftoverRuns.LaterPublishes | scripts/lib/upgrade.py:640-746 | over any leftover a later run can stage one file, install and publish it |
| LeftoverRuns.LeftoverExactly | scripts/lib/install_recovery.py:486-536 | crash consistency of both runs holds in every interleaving of a later run with the recovery of an earlier one exactly when the leftover has no staged file, no undoable rename and no publishable sidecar, `.roomodes` apart |
| LeftoverRuns.RecoveryAfterASecondRun | scripts/lib/install_recovery.py:275-302 | a concrete history: a crashed run, a second one that publishes, and the recovery of the first, which publishes a manifest that is wrong |
| InstallRuns.Installation.Restart | scripts/lib/install_recovery.py:486-512 | a new process on the disk left at any point of an earlier history, a journal line perhaps torn |
| InstallRuns.Installation.NeverPublishedWrong | scripts/lib/install_recovery.py:228-333 | crash consistency at every point of every history of these programs |
| InstallRuns.Installation.AtomicInstallBatch | scripts/lib/atomic_io.py:322-546 | success lands the overlay; the first failing rename stops the batch and marks it aborted; what is still staged is untouched; everything that has left staging is journalled, and at every point on the way all but one file, one more after a torn line |
| InstallRuns.Installation.RollBack | scripts/lib/install_recovery.py:256-279 | each journalled path holds its backup, or is set aside in the conflicts, or stays where neither works; all others are untouched |
| InstallRuns.ConflictNamesApart | scripts/lib/install_recovery.py:457-480 | two paths share a name in the conflicts exactly when they differ only in separators |
| InstallRuns.Installation.RemoveTree | scripts/lib/install_recovery.py:373-377 | the staging tree and its marker are gone, nothing else changed |
| InstallRuns.Installation.CleanupPendingArtifacts | scripts/lib/install_recovery.py:361-377 | sentinel, journal, sidecar and staging are gone, nothing else changed |
| InstallRuns.Installation.RecoverPendingManifest | scripts/lib/install_recovery.py:228-333 | the decision matrix: marker, sentinel, journal, orphan, in that order, with the resulting disk for each |
| InstallRuns.Installation.RecoverOne | scripts/lib/install_recovery.py:385-454 | a staging directory without a sidecar is rolled back or finished without publishing anything |
| InstallRuns.Installation.RecoverAbortedInstall | scripts/lib/install_recovery.py:486-536 | a recovery without faults completes and publishes every install that can be completed, finishes an old staging directory without publishing, undoes an aborted one, and leaves the rest alone |
| InstallRuns.Installation.StageAll | scripts/lib/install.py:375-392 | what each entry stages or writes in place, and what is left alone |
| InstallRuns.Installation.SyncModes | scripts/lib/install.py:456-474 | `.roomodes` is regenerated and the sidecar's hash of it rewritten |
| InstallRuns.Installation.Publish | scripts/lib/install.py:406-518 | sidecar, batch, sync, publish, clean up: published exactly when no rename and no finalize fails; the conflicts, and every path neither staged nor `.roomodes`, are as before |
| InstallRuns.Installation.Install | scripts/lib/install.py:253-518 | refusal exactly on existing owned files; whatever the outcome no existing file is touched but for blocks and `.roomodes`; on success every entry's shipped bytes are in place and every recorded hash matches |
| InstallRuns.StagedMayBeWritten | scripts/lib/install.py:375-392 | only paths of harness-owned entries are staged |
| Upgrade.EntriesKeepSafe | scripts/lib/upgrade.py:371-460 | through the staging of any entries, bytes the user changed are at the path or in the backup |
| Upgrade.UserBytesSurvive | scripts/lib/upgrade.py:417-510 | without force, with the backup working and the path not on the delete list, a user's bytes survive at the path or under conflicts, recorded or not |
| Upgrade.RetiredStaysExactly | scripts/lib/upgrade.py:489-510 | a changed file that is no longer shipped stays exactly when its record has a hash to tell by |
| Upgrade.PathFits | scripts/lib/upgrade.py:408-510 | what any path is recorded as in the end: a harness-owned record matches the bytes exactly when the path does not keep an old hash |
| Upgrade.PlannedGap | scripts/lib/upgrade.py:469-510 | whatever policies changed, the manifest about to be published is wrong about exactly the recorded paths that keep an old hash, as computed from records, entries and files beforehand |
| Upgrade.EditedRetiredFileIsRecordedWrong | scripts/lib/upgrade.py:491-498 | a concrete upgrade that publishes a hash its file does not have |
| Upgrade.FileBecomeSeedIsRecordedWrong | scripts/lib/upgrade.py:371-373 | a concrete upgrade that ships a changed file as a seed and publishes its old hash |
| Upgrade.SettledStagesNothing | scripts/lib/upgrade.py:438-445 | settled entries stage no harness-owned file and change no file in place |
| Upgrade.SecondUpgradeIsQuiet | scripts/lib/upgrade.py:371-460 | a second upgrade from the same source with no edits stages no harness-owned file and rewrites no managed block |
| UpgradeLands.StagingShips | scripts/lib/upgrade.py:408-460 | once landed, an entry's path holds the shipped bytes, or stays as it is when it is up to date, and the record names the source |
| UpgradeLands.UpgradeLands | scripts/lib/upgrade.py:371-550 | every path after an upgrade: shipped bytes, planned blocks, retired and deleted files, and files left alone |
| UpgradeLands.UpgradeRecords | scripts/lib/upgrade.py:378-510 | every record after an upgrade: blocks as the planner's runs leave them, and retired paths recorded exactly when they could not be retired |
| UpgradeLands.UpgradeTells | scripts/lib/upgrade.py:378-498 | every conflict is found in the conflicts with its bytes |
| UpgradeRuns.UpgradeBlock | scripts/lib/upgrade.py:378-406 | the plan applied in place and recorded, or its conflict written aside |
| UpgradeRuns.StageLoop | scripts/lib/upgrade.py:371-460 | the staging loop does each entry in turn |
| UpgradeRuns.RetirePath | scripts/lib/upgrade.py:469-510 | retire one path: keep and copy what the user changed, remove the rest |
| UpgradeRuns.RetireLoop | scripts/lib/upgrade.py:469-510 | the retirement loop does each recorded path in turn |
| UpgradeRuns.BuryLoop | scripts/lib/upgrade.py:529-547 | the graveyard loop deletes, warns or ignores |
| UpgradeRuns.NormalizeLoop | scripts/lib/adoption.py:75-97 | project-owned records are rewritten with the present hash |
| UpgradeRuns.Prepare | scripts/lib/upgrade.py:371-550 | everything before a manifest is written, in order |
| UpgradeRuns.PublishUnstaged | scripts/lib/upgrade.py:735-746 | with nothing staged the manifest is written directly, fits as planned, and the conflicts are as before |
| UpgradeRuns.RunUpgrade | scripts/lib/upgrade.py:360-746 | each path ends up with what it should hold, from files, records and entries alone; the published manifest and the paths it is wrong about; and, success or failure, each user's file and each conflict is on the final disk |
| TextLines.LinesOfFlat | scripts/lib/append_block.py:117-117 | cutting a text into lines undoes putting lines together |
| TextLines.FlatOfLines | scripts/lib/append_block.py:117-117 | putting lines together undoes cutting |
| TextLines.ReadIsIdentityExactly | scripts/lib/append_block.py:247-247 | reading in text mode leaves the bytes alone exactly when there is no carriage return |
| AppendBlock.CollectMarkers | scripts/lib/append_block.py:117-127 | the offsets of the marker lines |
| AppendBlock.ParseAppendBlock | scripts/lib/append_block.py:113-135 | no block, one well-formed block with its text and payload, or malformed |
| AppendBlock.PlacedBlockParses | scripts/lib/append_block.py:103-110 | a rendered block between quiet texts is found again exactly when its payload has no marker line |
| AppendBlock.FoundMeans | scripts/lib/append_block.py:132-135 | a found block cuts the text into three parts, the outer two quiet, also when put together |
| AppendBlock.SeparatedIsQuiet | scripts/lib/append_block.py:142-146 | the separator ends the text's last line and makes no marker, and a second one would be empty |
| AppendBlock.PlanManagedAppend | scripts/lib/append_block.py:234-279 | the plan for every case of file, block and record |
| AppendBlock.PlanManagedAppendRetirement | scripts/lib/append_block.py:282-304 | the retirement plan for every case |
| AppendBlock.UpdateLeaves | scripts/lib/append_block.py:265-279 | an update changes nothing, appends one separator and the block, or replaces a block whose hash is the recorded one; the block is found again with the user's text around it |
| AppendBlock.ReplanIsNoop | scripts/lib/append_block.py:271-274 | planning again after an applied plan writes nothing and is no conflict |
| AppendBlock.RetirementLeaves | scripts/lib/append_block.py:298-304 | retirement removes only a block whose hash is the recorded one |
| AppendBlock.RunKeepsUserText | scripts/lib/append_block.py:142-150 | over any run of updates, user edits and retirements the text outside the block is what the user last left, plus at most one separator |
| AppendBlock.ConvertedFileIsReplaced | scripts/lib/append_block.py:253-258 | the one plan that drops user text, and exactly when it does |
| BlockRuns.ConflictsExactly | scripts/lib/append_block.py:243-270 | a plan conflicts exactly on broken markers and on a block that is neither the recorded one nor, without a record, the new one |
| BlockRuns.BlockFollowsItsSource | scripts/lib/append_block.py:234-304 | over every run in which the user spares the block no update conflicts, and after each the block carries that update's source |
| TextFormats.SeparatorMakesAnEmptyLine | scripts/lib/append_block.py:142-146 | one empty line before a block, with no more newlines than that takes |
| TextFormats.NormalisedEndsOnce | scripts/lib/append_block.py:103-110 | a normalised payload ends with exactly one newline and is otherwise the text |
| TextFormats.AppendBlockText | scripts/lib/append_block.py:87-110 | a block, letter by letter |
| ManagedBlock.Canonicalize | scripts/lib/managed_block.py:20-28 | the canonical text: newlines unified, blanks trimmed, empty lines dropped at the end |
| ManagedBlock.CanonicalIsCut | scripts/lib/managed_block.py:20-28 | canonical text is cut back into its canonical lines |
| ManagedBlock.CanonicalIsStable | scripts/lib/managed_block.py:20-28 | canonicalizing twice is canonicalizing once |
| TextFormats.CanonicalKeepsLines | scripts/lib/managed_block.py:20-28 | canonical text is the text's own lines without their trailing blanks, up to the last that is not empty |
| TextFormats.ManagedBlockLines | scripts/lib/managed_block.py:9-10 | the marker lines, letter by letter |
| ManagedBlock.PrintOfDoc | scripts/lib/managed_block.py:60-82 | what the block pattern finds, put back together, is the text |
| ManagedBlock.DocOfPrint | scripts/lib/managed_block.py:60-82 | a printed document of the grammar is read back as itself |
| ManagedBlock.GrammarExactly | scripts/lib/managed_block.py:68-98 | accepted exactly when the text is plain lines and flat blocks of plain lines with distinct slugs |
| ManagedBlock.GrammarAccepts | scripts/lib/managed_block.py:68-98 | every such document is accepted, as that document |
| ManagedBlock.ParseBlocks | scripts/lib/managed_block.py:68-98 | the reported blocks with their offsets and payloads, or which check failed |
| ManagedBlock.ReplaceBlock | scripts/lib/managed_block.py:101-108 | cutting at the reported offsets and inserting the rendered block is replacing the payload in the document |
| ManagedBlock.ReplaceRoundTrip | scripts/lib/managed_block.py:101-108 | after a replacement the text is accepted exactly when the canonical payload has no marker line; then only that payload has changed, and replacing again changes nothing |
| ManagedBlock.SpoiledPayload | scripts/lib/managed_block.py:94-97 | a payload with a marker line is never accepted inside a block |
| ManagedBlock.TrailingBlankMakesAMarker | scripts/lib/managed_block.py:23-23 | a concrete payload without marker lines whose canonical form has one |
| Decimals.DecReadsBack | scripts/lib/state_repair.py:184-184 | a printed number is read back |
| StateRepair.BulletMatches | scripts/lib/state_repair.py:68-73 | a printed bullet matches the pattern with nothing lost |
| RepairOutcomes.MatchIsSpelled | scripts/lib/state_repair.py:174-187 | whatever matches the pattern is a well-spelled bullet and is read as meant: any gaps, either word, either mark |
| RepairOutcomes.SpelledMatches | scripts/lib/state_repair.py:174-187 | every well-spelled bullet matches |
| RepairOutcomes.SpelledLinesAreRead | scripts/lib/state_repair.py:174-187 | a list of bullets in any spelling is read as what it means, in order |
| TextFormats.BulletTexts | scripts/lib/state_repair.py:68-73 | a printed bullet, letter by letter |
| StateRepair.PrintThenParse | scripts/lib/state_repair.py:165-189 | phases printed as bullets are read back unchanged |
| StateRepair.PayloadIsCanonical | scripts/lib/state_repair.py:68-73 | the printed payload is its own canonical form and has no marker line |
| StateRepair.SecondRepairChangesNothing | scripts/lib/state_repair.py:271-319 | after a repair of a text with the block a second repair changes nothing |
| StateRepair.BlockBetween | scripts/lib/state_repair.py:156-162 | a new block between two groups of lines is accepted exactly when both groups are, with no slug in common |
| StateRepair.GluedIsRefused | scripts/lib/state_repair.py:148-149 | a block put after an unfinished heading line cannot be read |
| StateRepair.BareHeadingIsRefused | scripts/lib/state_repair.py:148-149 | a concrete text, the bare heading, that repair accepts once and refuses afterwards |
| StateRepair.FirstRepairReadable | scripts/lib/state_repair.py:138-162 | a first repair leaves a readable text exactly when the heading's line is finished and the section cuts through no other block |
| StateRepair.RepairIsIdempotent | scripts/lib/state_repair.py:133-162 | when the first repair leaves a readable text a second changes nothing |
| StateRepair.AppendedRepair | scripts/lib/state_repair.py:138-144 | without the heading the first repair is always readable and the second changes nothing |
| RepairOutcomes.RepairKeepsPhases | scripts/lib/state_repair.py:271-319 | a repair that leaves a readable text keeps every phase: number, title, mark and order |
| RepairOutcomes.SectionIsReplaced | scripts/lib/state_repair.py:146-162 | a first repair puts the block in place of the section's own text and leaves all before and after it |
| Recon.ParsedFrontIsGood | scripts/lib/recon.py:304-318 | whatever the text, parsed front matter has distinct, trimmed, one-line entries |
| Recon.FrontReadsBack | scripts/lib/recon.py:321-326 | front matter written and read again is unchanged, and so is the text after it |
| Recon.SplitAnchors | scripts/lib/recon.py:329-342 | the anchored sections of a text, in order |
| Recon.SectionsReadBack | scripts/lib/recon.py:345-346 | sections written one after another are read back, their bodies stripped |
| Recon.UntitledHeadingLosesALine | scripts/lib/recon.py:45-45 | an untitled heading takes the first line under it as its title, and the body loses it |
| ReconReading.SectionsReadBackExactly | scripts/lib/recon.py:329-346 | sections are read back exactly when no body has a heading and every heading has a title, but for a last one over nothing |
| ReconReading.LinesWithoutHeading | scripts/lib/recon.py:353-388 | content made line by line has no heading exactly when no line is one |
| ReconReading.BulletsHaveNoHeading | scripts/lib/recon.py:353-356 | detected lists never have a heading |
| ReconReading.StrayHeadingReplacesABody | scripts/lib/recon.py:466-495 | detected content with a heading of its own shadows the user's section, and the next merge writes it over the user's text |
| Recon.MergeBody | scripts/lib/recon.py:466-495 | the merged body, part by part |
| ReconReading.MergedSectionsExactly | scripts/lib/recon.py:478-495 | a merged document is read as the template's sections with the chosen bodies exactly when no detected body has a heading and every template heading has a title, but for a last one over nothing |
| ReconReading.MergeBodyIsIdempotent | scripts/lib/recon.py:466-495 | merging a document with itself changes nothing when it can be read back |
| ReconReading.MergeKeepsBodies | scripts/lib/recon.py:486-494 | every template section that is not detected anew keeps the body it had |
| MergeOutcomes.GeneratedFileShowsDetected | scripts/lib/recon.py:478-495 | a generated document has the template's sections in order, each with its detected content, or the text it had, or a placeholder |
| MergeOutcomes.PreambleIsKept | scripts/lib/recon.py:473-484 | what the template has before its first heading is at the top of the document |
| MergeOutcomes.AgentFileKeepsItsText | scripts/lib/recon.py:459-464 | an agent's file has its text back, and nothing of the template |
| MergeOutcomes.MergeKeepsFront | scripts/lib/recon.py:447-457 | no merge loses a key of the front matter, and all but four keep their values |
| MergeOutcomes.LastLineCounts | scripts/lib/recon.py:304-318 | of several lines for one key the last counts, and a line without a colon counts for nothing |
| Recon.StampIsStable | scripts/lib/recon.py:450-457 | stamping twice on one date is stamping once |
| ReconReading.MergeFileIsIdempotent | scripts/lib/recon.py:433-497 | merging a file with its own output on the same date changes nothing |

## Left out

- PhaseLock.StepKeepsInv: the classifier's lookups of a pid and of its start time are one observation, because two would differ only for a process that dies in between, which reads as ambiguous or stale and is dead.
- PhaseTxn.CommitTransaction: a short write and a failing fsync are not modelled; a failing replace is.
- LockWaiting.AcquirePrimary: what each pass of the loop meets is a script, because other processes decide it; the safety of what they do is in `PhaseLock`.
- AppendBlock.RunKeepsUserText: a file once recorded as wholly managed is excluded, because its first conversion replaces it; `AppendBlock.ConvertedFileIsReplaced` says exactly when.
- StateRepair.PrintThenParse: titles are on one line; the pattern can also capture a title with newlines, which canonicalization may then change.
- ReconReading.MergeFileIsIdempotent: asks for a template and detected content that can be read back, as `ReconReading.MergedSectionsExactly` has it; `ReconReading.StrayHeadingReplacesABody` and `Recon.UntitledHeadingLosesALine` show what happens otherwise.
- Upgrade.SecondUpgradeIsQuiet: entries of policy `managed` are restaged every time, since their recorded hash is taken before they land; the claim is about harness-owned files and managed blocks.
- UpgradeRuns.UpgradeFile: an entry of policy `managed` whose file is missing makes the upgrade stop with an error when its hash is taken; the model goes on without a hash.
- More than two runs on one directory: `LeftoverRuns` follows one earlier run that has stopped and one later run.
- A recovery of a run that is still going: the recovery steps of `LeftoverRuns` are those of a run that has stopped.
- AuditJson.JsonIsFaithful: keys come in an order of the model's own, numbers other than the index and nested arguments are left out, and the overflow archive beside the log is too.
- Whether a rollback restores the bytes that were there: backups are found by file name alone.
- Mutual exclusion by `.harness/session.lock`: lifecycle runs are sequences of verbs; `phase set` does not take the primary lock.
- The section parser of the first roadmap repair and the STATE.md half of the repair: what the parser reads is a parameter.
- `init --force`, adoption of existing installs, dry runs, cross-filesystem copies, and removal of empty directories.
- The archive of overflowing audit entries, whose names repeat after a rotation.
- Windows, ctypes and fsync branches, symbolic links, argument parsing, prompts, printing, git.
- The string comparison of timestamps in `status_next_cli.py`.
