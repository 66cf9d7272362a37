/** An aborted batch and the recovery that undoes it, taken together. */
module BatchRecovery {
  import opened Prelude
  import opened InstallDisk
  import opened InstallRuns

  /** What a rollback with nothing failing leaves at a path of the run: what was there, or its backup, or nothing. */
  ghost predicate NoneOfTheRuns(before: Disk, now: map<Path, Bytes>, backups: map<Path, Bytes>) {
    forall p :: p in Staged(before) ==> At(now, p) in {At(before.target, p), At(backups, p), None}
  }

  /** The backups are of what the run is about to overwrite. */
  ghost predicate BacksUpTarget(before: Disk, backups: map<Path, Bytes>) {
    forall p :: p in Staged(before) ==> At(backups, p) == At(before.target, p)
  }

  lemma Undone(before: Disk, aborted: Disk, now: map<Path, Bytes>, backups: map<Path, Bytes>, faults: Faults,
               listing: seq<Path>)
    requires Overlay(aborted) == Overlay(before) && Behind(before, aborted, 0) && StillStaged(before, aborted)
    requires Staged(aborted).Keys <= Staged(before).Keys && Completed(Rows(aborted)) !! Staged(aborted).Keys
    requires forall p :: p in listing ==> p in Staged(before)
    requires OnlyListed(Completed(Rows(before)), aborted, listing)
    requires Completed(Rows(before)) !! Staged(before).Keys
    requires UndoneTo(aborted.target, now, Completed(Rows(aborted)), backups, faults)
    requires !faults.quarantine && faults.renames == {}
    ensures NoneOfTheRuns(before, now, backups)
    ensures BacksUpTarget(before, backups) ==>
              forall p :: p !in Completed(Rows(before)) ==> At(now, p) == At(before.target, p)
  {
    var slack :| |slack| <= 0 && Journalled(before, aborted, slack);
    assert slack == {};
    forall p ensures p in Staged(before) ==> At(now, p) in {At(before.target, p), At(backups, p), None}
      ensures p !in Completed(Rows(before)) && BacksUpTarget(before, backups) ==> At(now, p) == At(before.target, p)
    {
      UntouchedAt(before, aborted, p);
      InstalledAt(before, aborted, p);
      hide Completed;
    }
  }

  lemma UntouchedAt(before: Disk, aborted: Disk, p: Path)
    requires Overlay(aborted) == Overlay(before) && Staged(aborted).Keys <= Staged(before).Keys
    ensures p !in Staged(before) ==> At(aborted.target, p) == At(before.target, p)
  {
    assert p in Overlay(aborted) <==> p in Overlay(before);
    if p in Overlay(before) {
      assert Overlay(aborted)[p] == Overlay(before)[p];
    }
  }

  lemma InstalledAt(before: Disk, aborted: Disk, p: Path)
    requires Overlay(aborted) == Overlay(before)
    ensures p in Staged(before) && p !in Staged(aborted) ==> p in aborted.target
  {
    assert p in Overlay(aborted) <==> p in Overlay(before);
  }

  /** A batch that a failing rename aborts, and the recovery that follows with nothing failing. No path holds bytes of the
      run any more; and if the backups are of what the run was about to overwrite, the target is as it was before. */
  method AbortThenRecover(inst: Installation, env: Env, faults: Faults) returns (action: RecoveryAction)
    requires inst.Valid() && inst.disk.staging.Some? && !inst.disk.aborted && inst.disk.pending.Some?
    requires forall p :: p in Staged(inst.disk) <==> p in env.listing
    requires !faults.marker && exists p :: p in Staged(inst.disk) && p in faults.renames
    modifies inst
    ensures inst.Valid() && Clean(inst.disk) && inst.disk.final == old(inst.disk).final && action == RolledBack
    ensures !EndsTorn(Rows(old(inst.disk))) ==> NoneOfTheRuns(old(inst.disk), inst.disk.target, env.backups)
    ensures !EndsTorn(Rows(old(inst.disk))) && BacksUpTarget(old(inst.disk), env.backups) ==>
              forall p :: p !in Completed(Rows(old(inst.disk))) ==>
                At(inst.disk.target, p) == At(old(inst.disk).target, p)
  {
    hide Behind, UndoneTo, NoneOfTheRuns, BacksUpTarget, StillStaged, SetAsideIn, InBatch, Inv, Completed, OnlyListed;
    ghost var before := inst.disk;
    JournalledAreGone(inst.plan, inst.disk);
    var batch := inst.AtomicInstallBatch(env.listing, true, faults);
    ghost var aborted := inst.disk;
    JournalledAreGone(inst.plan, inst.disk);
    action := inst.RecoverPendingManifest(env, NO_FAULTS);
    if !EndsTorn(Rows(before)) {
      Undone(before, aborted, inst.disk.target, env.backups, NO_FAULTS, env.listing);
    }
  }

  // ------------------------------------------------------------ the exception

  /** A rename is found in the journal afterwards exactly when the journal did not end in a torn line. */
  lemma RenameIsJournalledExactly(plan: Plan, d: Disk, p: Path)
    requires Inv(plan, d) && d.journal.Some? && p in Staged(d) && !d.aborted
    ensures Enabled(plan, d, Rename(p)) && Enabled(plan, Apply(d, Rename(p)), WriteRow(Done(p)))
    ensures p in Completed(Rows(Apply(Apply(d, Rename(p)), WriteRow(Done(p))))) <==> !EndsTorn(Rows(d))
  {
    RowCompletes(Rows(d), Done(p));
    JournalledAreGone(plan, d);
  }
}
