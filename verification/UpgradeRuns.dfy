/** The upgrade as it runs, each step a file operation on the disk of an installation. */
module UpgradeRuns {
  import opened Prelude
  import opened InstallDisk
  import opened InstallRuns
  import opened Upgrade
  import opened UpgradeLands
  import AppendBlock

  function WorkOf(d: Disk, records: Records): Work {
    Work(d.target, d.conflicts, Staged(d), records)
  }

  /** Staging is under way and nothing has been published. */
  predicate Preparing(plan: Plan, d: Disk) {
    Composing(plan, d) && d.staging.Some? && d.journal.None? && !d.sentinel && !d.aborted
  }

  /** Only files, conflicts and staging differ. */
  predicate OnlyPrepared(d: Disk, d': Disk) {
    d' == d.(target := d'.target, conflicts := d'.conflicts, staging := d'.staging)
  }

  method Backup(inst: Installation, p: Path, name: Path)
    requires inst.Valid() && Preparing(inst.plan, inst.disk) && p in inst.disk.target
    modifies inst
    ensures inst.Valid() && old(inst.history) <= inst.history
    ensures inst.disk == old(inst.disk).(conflicts := old(inst.disk).conflicts[name := old(inst.disk).target[p]])
  {
    hide Inv, History;
    inst.Do(WriteConflict(name, inst.disk.target[p]));
  }

  method StagePath(inst: Installation, p: Path, bytes: Bytes)
    requires inst.Valid() && Preparing(inst.plan, inst.disk)
    modifies inst
    ensures inst.Valid() && old(inst.history) <= inst.history
    ensures inst.disk == old(inst.disk).(staging := Some(old(Staged(inst.disk))[p := bytes]))
  {
    hide Inv, History;
    inst.Do(Stage(p, bytes));
  }

  method WriteInPlace(inst: Installation, p: Path, bytes: Bytes)
    requires inst.Valid() && Preparing(inst.plan, inst.disk)
    modifies inst
    ensures inst.Valid() && old(inst.history) <= inst.history
    ensures inst.disk == old(inst.disk).(target := old(inst.disk).target[p := bytes])
  {
    hide Inv, History;
    inst.Do(WriteDirect(p, bytes));
  }

  method RemoveInPlace(inst: Installation, p: Path)
    requires inst.Valid() && Preparing(inst.plan, inst.disk)
    modifies inst
    ensures inst.Valid() && old(inst.history) <= inst.history
    ensures inst.disk == old(inst.disk).(target := old(inst.disk).target - {p})
  {
    hide Inv, History;
    if p in inst.disk.target {
      inst.Do(RemoveDirect(p));
    } else {
      assert inst.disk.target - {p} == inst.disk.target;
    }
  }

  method WriteConflictText(inst: Installation, name: Path, text: Bytes)
    requires inst.Valid() && Preparing(inst.plan, inst.disk)
    modifies inst
    ensures inst.Valid() && old(inst.history) <= inst.history
    ensures inst.disk == old(inst.disk).(conflicts := old(inst.disk).conflicts[name := text])
  {
    hide Inv, History;
    inst.Do(WriteConflict(name, text));
  }

  /** One harness-owned or managed entry: back up what the user changed, then stage, unless nothing changed. */
  method UpgradeFile(inst: Installation, records: Records, e: Entry, env: Upgrade.Env) returns (r: Records)
    requires inst.Valid() && Preparing(inst.plan, inst.disk)
    modifies inst
    ensures inst.Valid() && old(inst.history) <= inst.history && Preparing(inst.plan, inst.disk)
    ensures OnlyPrepared(old(inst.disk), inst.disk)
    ensures WorkOf(inst.disk, r) == StageFile(WorkOf(old(inst.disk), records), e, env)
  {
    hide Inv, History;
    r := records;
    var newHash := Sha(e.source);
    var forceRestage := false;
    if e.path in inst.disk.target && !env.force {
      var oldHash := if e.path in records then records[e.path].sha else None;
      var currentHash := Sha(inst.disk.target[e.path]);
      if oldHash.None? || currentHash != oldHash.value {
        if e.path !in env.backupFails {
          Backup(inst, e.path, BackupName(e.path, env.runid));
        }
        forceRestage := true;
      }
      if !forceRestage {
        if e.path in records && records[e.path].source == Some(newHash) {
          return r;
        }
      }
    }
    StagePath(inst, e.path, e.source);
    var hash := if e.policy == HarnessOwned then Some(newHash) else HashAt(inst.disk.target, e.path);
    r := r[e.path := Rec(e.policy, hash, Some(newHash), None)];
  }

  /** One managed-append entry: written in place, before anything is published. */
  method UpgradeBlock(inst: Installation, records: Records, e: Entry, env: Upgrade.Env) returns (r: Records)
    requires inst.Valid() && Preparing(inst.plan, inst.disk)
    modifies inst
    ensures inst.Valid() && old(inst.history) <= inst.history && Preparing(inst.plan, inst.disk)
    ensures OnlyPrepared(old(inst.disk), inst.disk)
    ensures WorkOf(inst.disk, r) == PlanBlock(WorkOf(old(inst.disk), records), e, env)
  {
    hide Inv, History, AppendBlock.PlanFor;
    r := records;
    var plan := AppendBlock.PlanManagedAppend(At(inst.disk.target, e.path), e.source, env.version, e.path,
                                              BlockInfo(records, e.path));
    if plan.conflict {
      WriteConflictText(inst, e.path + ".new", plan.proposed);
      return r;
    }
    if plan.updated.Some? {
      WriteInPlace(inst, e.path, plan.updated.value);
    }
    r := r[e.path := Rec(ManagedAppend, HashAt(inst.disk.target, e.path), Some(Sha(e.source)), plan.applied)];
  }

  method StageLoop(inst: Installation, records: Records, entries: seq<Entry>, env: Upgrade.Env) returns (r: Records)
    requires inst.Valid() && Preparing(inst.plan, inst.disk)
    modifies inst
    ensures inst.Valid() && old(inst.history) <= inst.history && Preparing(inst.plan, inst.disk)
    ensures OnlyPrepared(old(inst.disk), inst.disk)
    ensures WorkOf(inst.disk, r) == StageEntries(WorkOf(old(inst.disk), records), entries, env)
  {
    hide Inv, History, PlanBlock, StageFile;
    r := records;
    ghost var start := WorkOf(inst.disk, records);
    for i := 0 to |entries|
      invariant inst.Valid() && old(inst.history) <= inst.history && Preparing(inst.plan, inst.disk)
      invariant OnlyPrepared(old(inst.disk), inst.disk)
      invariant WorkOf(inst.disk, r) == StageEntries(start, entries[..i], env)
    {
      var e := entries[i];
      assert entries[..i + 1][..i] == entries[..i] && entries[..i + 1][i] == e;
      if e.policy == ManagedAppend {
        r := UpgradeBlock(inst, r, e, env);
      } else if e.policy in {HarnessOwned, Managed} {
        r := UpgradeFile(inst, r, e, env);
      }
    }
    assert entries[..|entries|] == entries;
  }

  method RetirePath(inst: Installation, records: Records, p: Path, current: set<Path>) returns (r: Records)
    requires inst.Valid() && Preparing(inst.plan, inst.disk)
    modifies inst
    ensures inst.Valid() && old(inst.history) <= inst.history && Preparing(inst.plan, inst.disk)
    ensures OnlyPrepared(old(inst.disk), inst.disk)
    ensures WorkOf(inst.disk, r) == StepRetire(WorkOf(old(inst.disk), records), p, current)
  {
    hide Inv, History, AppendBlock.RetirementFor;
    r := records;
    if p !in records || p in current || records[p].policy !in {HarnessOwned, Managed, ManagedAppend} {
      return r;
    }
    if records[p].policy == ManagedAppend {
      var plan := AppendBlock.PlanManagedAppendRetirement(At(inst.disk.target, p), p, BlockInfo(records, p));
      if plan.conflict {
        WriteConflictText(inst, p + ".retired", plan.proposed);
        return r;
      }
      if plan.updated.Some? {
        WriteInPlace(inst, p, plan.updated.value);
      }
      r := r - {p};
      return r;
    }
    var oldHash := records[p].sha;
    if p in inst.disk.target && oldHash.Some? && Sha(inst.disk.target[p]) != oldHash.value {
      Backup(inst, p, p + ".retired");
      return r;
    }
    RemoveInPlace(inst, p);
    r := r - {p};
  }

  method RetireLoop(inst: Installation, records: Records, paths: seq<Path>, current: set<Path>) returns (r: Records)
    requires inst.Valid() && Preparing(inst.plan, inst.disk)
    modifies inst
    ensures inst.Valid() && old(inst.history) <= inst.history && Preparing(inst.plan, inst.disk)
    ensures OnlyPrepared(old(inst.disk), inst.disk)
    ensures WorkOf(inst.disk, r) == RetireAll(WorkOf(old(inst.disk), records), paths, current)
  {
    hide Inv, History, StepRetire;
    r := records;
    ghost var start := WorkOf(inst.disk, records);
    for i := 0 to |paths|
      invariant inst.Valid() && old(inst.history) <= inst.history && Preparing(inst.plan, inst.disk)
      invariant OnlyPrepared(old(inst.disk), inst.disk)
      invariant WorkOf(inst.disk, r) == RetireAll(start, paths[..i], current)
    {
      assert paths[..i + 1][..i] == paths[..i] && paths[..i + 1][i] == paths[i];
      r := RetirePath(inst, r, paths[i], current);
    }
    assert paths[..|paths|] == paths;
  }

  method BuryLoop(inst: Installation, records: Records, graves: seq<(Path, GraveAction)>, current: set<Path>)
    returns (r: Records)
    requires inst.Valid() && Preparing(inst.plan, inst.disk)
    modifies inst
    ensures inst.Valid() && old(inst.history) <= inst.history && Preparing(inst.plan, inst.disk)
    ensures OnlyPrepared(old(inst.disk), inst.disk)
    ensures WorkOf(inst.disk, r) == BuryAll(WorkOf(old(inst.disk), records), graves, current)
  {
    hide Inv, History;
    r := records;
    ghost var start := WorkOf(inst.disk, records);
    for i := 0 to |graves|
      invariant inst.Valid() && old(inst.history) <= inst.history && Preparing(inst.plan, inst.disk)
      invariant OnlyPrepared(old(inst.disk), inst.disk)
      invariant WorkOf(inst.disk, r) == BuryAll(start, graves[..i], current)
    {
      assert graves[..i + 1][..i] == graves[..i] && graves[..i + 1][i] == graves[i];
      var (p, action) := graves[i];
      if p in r && p !in current {
        continue;
      }
      if p !in inst.disk.target {
        continue;
      }
      if action == Delete {
        RemoveInPlace(inst, p);
        r := r - {p};
      }
    }
    assert graves[..|graves|] == graves;
  }

  method NormalizeLoop(d: Disk, records: Records, entries: seq<Entry>) returns (r: Records)
    ensures WorkOf(d, r) == NormalizeOwned(WorkOf(d, records), entries)
  {
    r := records;
    for i := 0 to |entries|
      invariant WorkOf(d, r) == NormalizeOwned(WorkOf(d, records), entries[..i])
    {
      var e := entries[i];
      assert entries[..i + 1][..i] == entries[..i] && entries[..i + 1][i] == e;
      if e.policy == ProjectOwned && e.path in d.target {
        r := r[e.path := Rec(ProjectOwned, Some(Sha(d.target[e.path])), Some(Sha(e.source)), None)];
      }
    }
    assert entries[..|entries|] == entries;
  }

  /** The first phase: everything before a manifest is written. */
  method Prepare(inst: Installation, records: Records, job: Job) returns (r: Records)
    requires inst.Valid() && Before(inst.plan, inst.disk)
    modifies inst
    ensures inst.Valid() && old(inst.history) <= inst.history && Preparing(inst.plan, inst.disk)
    ensures inst.disk.final == old(inst.disk).final
    ensures WorkOf(inst.disk, r) == PassA(WorkOf(old(inst.disk), records), job)
  {
    hide Inv, History, StageEntries, RetireAll, BuryAll, NormalizeOwned;
    OpenStaging(inst);
    assert WorkOf(inst.disk, records) == WorkOf(old(inst.disk), records);
    var current := CurrentPaths(job.entries);
    r := StageLoop(inst, records, job.entries, job.env);
    r := RetireLoop(inst, r, job.recorded, current);
    r := BuryLoop(inst, r, job.graves, current);
    r := NormalizeLoop(inst.disk, r, job.entries);
  }

  method OpenStaging(inst: Installation)
    requires inst.Valid() && Before(inst.plan, inst.disk)
    modifies inst
    ensures inst.Valid() && old(inst.history) <= inst.history && Preparing(inst.plan, inst.disk)
    ensures inst.disk == old(inst.disk).(staging := Some(map[]))
  {
    hide Inv, History;
    inst.Do(MakeStaging);
  }

  /** With nothing staged the manifest is written without a sidecar. */
  method PublishUnstaged(inst: Installation, payload: Payload, sync: Bytes -> Bytes)
    requires inst.Valid() && Preparing(inst.plan, inst.disk) && Staged(inst.disk) == map[]
    requires payload.run == inst.plan.run && Mismatched(inst.disk.target, payload) == inst.plan.gap
    modifies inst
    ensures inst.Valid() && old(inst.history) <= inst.history && Clean(inst.disk)
    ensures inst.disk.target == Synced(old(inst.disk).target, sync) && inst.disk.conflicts == old(inst.disk).conflicts
    ensures inst.disk.final == Some(Rehashed(payload, inst.disk.target))
  {
    hide Inv, History, Mismatched;
    var target := Synced(inst.disk.target, sync);
    var hashed := Rehashed(payload, target);
    SyncedStillFits(inst.disk.target, payload, sync);
    if ROOMODES in inst.disk.target {
      inst.Do(SyncRoomodes(sync(inst.disk.target[ROOMODES])));
    }
    inst.Do(RemoveStagingDir);
    inst.Do(WriteManifest(hashed));
  }

  lemma SyncedStillFits(files: map<Path, Bytes>, m: Payload, sync: Bytes -> Bytes)
    ensures Mismatched(Synced(files, sync), Rehashed(m, Synced(files, sync))) == Mismatched(files, m)
  {
    var target := Synced(files, sync);
    assert Rehashed(m, target).owned - {ROOMODES} == m.owned - {ROOMODES};
    RoomodesIsNotCounted(files, if ROOMODES in files then sync(files[ROOMODES]) else "", m, m);
    RoomodesIsNotCounted(target, "", m, Rehashed(m, target));
  }

  /** Publication, with a sidecar when anything is staged. */
  method PublishPrepared(inst: Installation, payload: Payload, denv: InstallRuns.Env, sync: Bytes -> Bytes,
                         faults: Faults) returns (outcome: InstallOutcome)
    requires inst.Valid() && Preparing(inst.plan, inst.disk) && Lists(denv.listing, inst.disk)
    requires payload.run == inst.plan.run && Mismatched(Overlay(inst.disk), payload) == inst.plan.gap
    modifies inst
    ensures inst.Valid() && old(inst.history) <= inst.history && OnlyStagedChanged(old(inst.disk), inst.disk)
    ensures outcome != Installed ==> inst.disk.final == old(inst.disk).final
    ensures outcome == Installed ==>
              && Clean(inst.disk) && inst.disk.target == Synced(old(Overlay(inst.disk)), sync)
              && inst.disk.final == Some(Rehashed(payload, inst.disk.target))
              && Mismatched(inst.disk.target, inst.disk.final.value) == inst.plan.gap
  {
    hide Inv, History, Mismatched;
    SyncedStillFits(Overlay(inst.disk), payload, sync);
    if Staged(inst.disk) != map[] {
      outcome := inst.Publish(payload, denv, sync, faults);
    } else {
      assert Overlay(inst.disk) == inst.disk.target;
      PublishUnstaged(inst, payload, sync);
      outcome := Installed;
    }
  }

  lemma OverlayIsLanded(d: Disk, records: Records)
    ensures Overlay(d) == Landed(WorkOf(d, records))
    ensures Staged(d) == WorkOf(d, records).staged && d.conflicts == WorkOf(d, records).conflicts
    ensures d.target == WorkOf(d, records).target && records == WorkOf(d, records).records
  {
  }

  lemma NothingStagedBefore(plan: Plan, d: Disk)
    requires Before(plan, d)
    ensures Staged(d) == map[]
  {
  }

  /** One upgrade. Each path ends up with what it should hold, and each record says so. What it publishes is wrong about
      exactly the paths that keep an old hash. Whether it succeeds or fails, each user's file survives it, at its path or
      in the conflicts, and so does each conflict. */
  method RunUpgrade(inst: Installation, records: Records, job: Job, run: nat, denv: InstallRuns.Env,
                    sync: Bytes -> Bytes, faults: Faults) returns (outcome: InstallOutcome, r: Records)
    requires inst.Valid() && Before(inst.plan, inst.disk)
    requires inst.plan == Plan(run, KeptHashes(WorkOf(inst.disk, records), job))
    requires forall q :: q in records ==> q in job.recorded
    requires forall e :: e in job.entries ==> e.path in denv.listing
    modifies inst
    ensures inst.Valid() && old(inst.history) <= inst.history
    ensures outcome != Installed ==> inst.disk.final == old(inst.disk).final
    ensures inst.disk.conflicts == PassA(WorkOf(old(inst.disk), records), job).conflicts
    ensures RunId(job.env.runid) ==> ConflictsTold(old(inst.disk).target, records, job, inst.disk.conflicts)
    ensures forall p :: UserFile(WorkOf(old(inst.disk), records), job, p) ==>
              Survives(inst.disk.target, inst.disk.conflicts, p, old(inst.disk).target[p], job.env.runid)
    ensures outcome == Installed ==>
              var done := PassA(WorkOf(old(inst.disk), records), job);
              && Clean(inst.disk) && r == done.records
              && LandsRight(old(inst.disk).target, records, job, inst.disk.target)
              && SourcesRecorded(old(inst.disk).target, job, r)
              && RecordsRight(old(inst.disk).target, records, job, inst.disk.target, r)
              && inst.disk.target == Synced(Landed(done), sync)
              && inst.disk.final == Some(Rehashed(Payload(run, job.env.version, Owned(r)), inst.disk.target))
              && Mismatched(inst.disk.target, inst.disk.final.value)
                 == KeptHashes(WorkOf(old(inst.disk), records), job)
  {
    hide Inv, History, PassA, Mismatched, KeptHashes, UserFile, Survives, Composing, Clean, Synced, Rehashed, Owned, Landed,
      OnlyStagedChanged, Kept, Overlay, LandsRight, SourcesRecorded, ConflictsTold, RecordsRight, RunId;
    ghost var before := WorkOf(inst.disk, records);
    NothingStagedBefore(inst.plan, inst.disk);
    r := Prepare(inst, records, job);
    StagedAreEntries(before, job);
    PlannedGap(before, job, run);
    UpgradeLands.UpgradeLands(before, job, sync);
    UpgradeRecords(before, job, sync);
    if RunId(job.env.runid) {
      UpgradeTells(before, job);
    }
    ghost var prepared := inst.disk;
    OverlayIsLanded(inst.disk, r);
    outcome := PublishPrepared(inst, Payload(run, job.env.version, Owned(r)), denv, sync, faults);
    UserFilesSurvive(before, job, prepared, inst.disk, r);
  }

  /** Publication overwrites no user's file that has no backup. */
  lemma UserFilesSurvive(before: Work, job: Job, prepared: Disk, after: Disk, r: Records)
    requires before.staged == map[] && WorkOf(prepared, r) == PassA(before, job) && OnlyStagedChanged(prepared, after)
    ensures after.conflicts == PassA(before, job).conflicts
    ensures forall p :: UserFile(before, job, p) ==>
              Survives(after.target, after.conflicts, p, before.target[p], job.env.runid)
  {
    assert PassA(before, job).conflicts == prepared.conflicts;
    forall p | UserFile(before, job, p) ensures Survives(after.target, after.conflicts, p, before.target[p], job.env.runid) {
      UserFileIsKept(before, job, p);
      hide PassA;
    }
  }

  /** Only paths of entries are staged. */
  lemma StagedAreEntries(w: Work, job: Job)
    requires w.staged == map[]
    ensures forall p :: p in PassA(w, job).staged ==> exists e :: e in job.entries && e.path == p
  {
    var current := CurrentPaths(job.entries);
    var staged := StageEntries(w, job.entries, job.env);
    var retired := RetireAll(staged, job.recorded, current);
    forall p | p in PassA(w, job).staged ensures exists e :: e in job.entries && e.path == p {
      NormalizeKeepsFiles(BuryAll(retired, job.graves, current), job.entries);
      Buried(retired, job.graves, current, p);
      RetireKeepsStaged(staged, job.recorded, current);
      if p !in current {
        UntouchedRecord(w, job.entries, job.env, p);
      }
    }
  }
}
