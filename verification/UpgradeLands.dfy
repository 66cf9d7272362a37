/** What an upgrade leaves at each path, told from the files, the records and the shipped entries alone. */
module UpgradeLands {
  import opened Prelude
  import opened InstallDisk
  import opened InstallRuns
  import opened Upgrade
  import AppendBlock

  /** The file is as it was installed, and from the source that is shipped now. */
  predicate UpToDate(files: map<Path, Bytes>, records: Records, e: Entry) {
    && e.path in files && e.path in records
    && records[e.path].sha == Some(Sha(files[e.path])) && records[e.path].source == Some(Sha(e.source))
  }

  /** What an upgrade makes of a shipped path: the shipped bytes for the harness's own files, unless they are up to date;
      the planned text for a managed block; nothing for the project's files and seeds. */
  ghost function ShippedAt(files: map<Path, Bytes>, records: Records, e: Entry, env: Upgrade.Env): Option<Bytes> {
    match e.policy
    case HarnessOwned | Managed => if !env.force && UpToDate(files, records, e) then At(files, e.path) else Some(e.source)
    case ManagedAppend =>
      var plan := AppendBlock.PlanFor(At(files, e.path), e.source, env.version, e.path, BlockInfo(records, e.path));
      if plan.conflict || plan.updated.None? then At(files, e.path) else plan.updated
    case ProjectOwned | Seed | Exclude => At(files, e.path)
  }

  /** What becomes of a recorded path that is no longer shipped: a file of the harness's goes unless its recorded hash
      shows a change, a managed block goes as planned, anything else stays. */
  ghost function RetiredAt(files: map<Path, Bytes>, records: Records, p: Path): Option<Bytes>
    requires p in records
  {
    match records[p].policy
    case HarnessOwned | Managed =>
      if p in files && records[p].sha.Some? && records[p].sha != Some(Sha(files[p])) then At(files, p) else None
    case ManagedAppend =>
      var plan := AppendBlock.RetirementFor(At(files, p), p, BlockInfo(records, p));
      if plan.conflict || plan.updated.None? then At(files, p) else plan.updated
    case ProjectOwned | Seed | Exclude => At(files, p)
  }

  /** What becomes of a path that is neither shipped nor recorded. */
  function UnknownAt(files: map<Path, Bytes>, graves: seq<(Path, GraveAction)>, p: Path): Option<Bytes> {
    if (p, Delete) in graves then None else At(files, p)
  }

  // ----------------------------------------------------------------- shipped paths

  /** One path of a work. */
  predicate SameAt(w: Work, w': Work, p: Path) {
    At(w'.target, p) == At(w.target, p) && At(w'.records, p) == At(w.records, p) && At(w'.staged, p) == At(w.staged, p)
  }

  /** What is at a path once the staged files have landed. */
  function LandedAt(w: Work, p: Path): Option<Bytes> {
    if p in w.staged then Some(w.staged[p]) else At(w.target, p)
  }

  predicate SourceRecorded(records: Records, e: Entry) {
    e.policy in {HarnessOwned, Managed} ==> e.path in records && records[e.path].source == Some(Sha(e.source))
  }

  lemma StepShips(w: Work, e: Entry, env: Upgrade.Env)
    requires e.path !in w.staged
    ensures SourceRecorded(StepEntry(w, e, env).records, e)
    ensures LandedAt(StepEntry(w, e, env), e.path) == ShippedAt(w.target, w.records, e, env)
  {
    hide AppendBlock.PlanFor;
  }

  /** The file and the record of a block, as the planner's own runs have them. */
  ghost function BlockAt(files: map<Path, Bytes>, records: Records, p: Path): AppendBlock.Managed {
    AppendBlock.Managed(At(files, p), BlockInfo(records, p))
  }

  lemma StepUpdatesBlock(w: Work, e: Entry, env: Upgrade.Env)
    requires e.policy == ManagedAppend
    ensures BlockAt(StepEntry(w, e, env).target, StepEntry(w, e, env).records, e.path)
         == AppendBlock.Updated(BlockAt(w.target, w.records, e.path), e.source, env.version, e.path)
  {
    hide AppendBlock.PlanFor;
  }

  lemma SameBlockAt(w: Work, w': Work, p: Path)
    requires At(w'.target, p) == At(w.target, p) && At(w'.records, p) == At(w.records, p)
    ensures BlockAt(w'.target, w'.records, p) == BlockAt(w.target, w.records, p)
  {
  }

  lemma {:induction false} StagingUpdatesBlock(w: Work, entries: seq<Entry>, env: Upgrade.Env, i: nat)
    requires i < |entries| && Sole(entries, i) && entries[i].policy == ManagedAppend
    ensures
      var w', p := StageEntries(w, entries, env), entries[i].path;
      && BlockAt(w'.target, w'.records, p)
         == AppendBlock.Updated(BlockAt(w.target, w.records, p), entries[i].source, env.version, p)
      && At(w'.staged, p) == At(w.staged, p)
  {
    var front, last := entries[..|entries| - 1], entries[|entries| - 1];
    var before := StageEntries(w, front, env);
    if i < |front| {
      assert forall j :: 0 <= j < |front| ==> front[j] == entries[j];
      StagingUpdatesBlock(w, front, env, i);
      StepElsewhere(before, last, env, entries[i].path);
      SameBlockAt(before, StepEntry(before, last, env), entries[i].path);
    } else {
      StagingElsewhere(w, front, env, last.path);
      SameBlockAt(w, before, last.path);
      StepUpdatesBlock(before, last, env);
      BlocksStageNothing(before, last, env);
    }
    hide StepEntry, AppendBlock.Updated, BlockAt;
  }

  lemma BlocksStageNothing(w: Work, e: Entry, env: Upgrade.Env)
    requires e.policy == ManagedAppend
    ensures StepEntry(w, e, env).staged == w.staged
  {
    hide AppendBlock.PlanFor;
  }

  lemma StepElsewhere(w: Work, e: Entry, env: Upgrade.Env, p: Path)
    requires p != e.path
    ensures SameAt(w, StepEntry(w, e, env), p)
  {
    hide AppendBlock.PlanFor;
  }

  lemma {:induction false} StagingElsewhere(w: Work, entries: seq<Entry>, env: Upgrade.Env, p: Path)
    requires forall e :: e in entries ==> e.path != p
    ensures SameAt(w, StageEntries(w, entries, env), p)
  {
    hide StepEntry;
    if entries != [] {
      var front, last := entries[..|entries| - 1], entries[|entries| - 1];
      assert last in entries;
      StagingElsewhere(w, front, env, p);
      StepElsewhere(StageEntries(w, front, env), last, env, p);
    }
  }

  lemma {:induction false} StagingShips(w: Work, entries: seq<Entry>, env: Upgrade.Env, i: nat)
    requires i < |entries| && Sole(entries, i) && w.staged == map[]
    ensures LandedAt(StageEntries(w, entries, env), entries[i].path) == ShippedAt(w.target, w.records, entries[i], env)
    ensures SourceRecorded(StageEntries(w, entries, env).records, entries[i])
  {
    var front, last := entries[..|entries| - 1], entries[|entries| - 1];
    var before := StageEntries(w, front, env);
    if i < |front| {
      assert forall j :: 0 <= j < |front| ==> front[j] == entries[j];
      StagingShips(w, front, env, i);
      StepElsewhere(before, last, env, entries[i].path);
    } else {
      StagingElsewhere(w, front, env, last.path);
      StepShips(before, last, env);
      SameShipped(w, before, last, env);
    }
    hide StepEntry, ShippedAt;
  }

  lemma SameShipped(w: Work, w': Work, e: Entry, env: Upgrade.Env)
    requires SameAt(w, w', e.path)
    ensures ShippedAt(w'.target, w'.records, e, env) == ShippedAt(w.target, w.records, e, env)
  {
    hide AppendBlock.PlanFor;
  }

  lemma ShippedLands(w: Work, job: Job, i: nat)
    requires w.staged == map[] && i < |job.entries| && Sole(job.entries, i) && job.entries[i].policy != Exclude
    requires (job.entries[i].path, Delete) !in job.graves
    ensures LandedAt(PassA(w, job), job.entries[i].path) == ShippedAt(w.target, w.records, job.entries[i], job.env)
    ensures SourceRecorded(PassA(w, job).records, job.entries[i])
  {
    var e, current := job.entries[i], CurrentPaths(job.entries);
    var staged := StageEntries(w, job.entries, job.env);
    var retired := RetireAll(staged, job.recorded, current);
    assert e in job.entries && e.path in current;
    StagingShips(w, job.entries, job.env, i);
    RetiredElsewhere(staged, job.recorded, current, e.path);
    Buried(retired, job.graves, current, e.path);
    NormalizeKeepsFiles(BuryAll(retired, job.graves, current), job.entries);
    if e.policy in {HarnessOwned, Managed} {
      forall f | f in job.entries && f.policy == ProjectOwned ensures f.path != e.path {
        var k :| 0 <= k < |job.entries| && job.entries[k] == f;
      }
      assert At(PassA(w, job).records, e.path) == At(staged.records, e.path);
    }
    hide StageEntries, RetireAll, BuryAll, NormalizeOwned, ShippedAt, CurrentPaths;
  }

  // --------------------------------------------------------------- the other paths

  /** Whether a retirement leaves the record: the path could not be retired, or is not the harness's to retire. */
  ghost predicate KeepsRecord(files: map<Path, Bytes>, records: Records, p: Path)
    requires p in records
  {
    match records[p].policy
    case HarnessOwned | Managed => p in files && records[p].sha.Some? && records[p].sha != Some(Sha(files[p]))
    case ManagedAppend => AppendBlock.RetirementFor(At(files, p), p, BlockInfo(records, p)).conflict
    case ProjectOwned | Seed | Exclude => true
  }

  lemma RetireShows(w: Work, p: Path, current: set<Path>)
    requires p in w.records && p !in current
    ensures p in StepRetire(w, p, current).records <==> KeepsRecord(w.target, w.records, p)
    ensures At(StepRetire(w, p, current).target, p) == RetiredAt(w.target, w.records, p)
    ensures
      var w' := StepRetire(w, p, current);
      p in w'.records ==> w'.records == w.records && At(w'.target, p) == At(w.target, p)
  {
    hide AppendBlock.RetirementFor;
  }

  /** A path once retired stays as it is. */
  ghost predicate IsRetired(start: Work, w: Work, p: Path)
    requires p in start.records
  {
    && At(w.target, p) == RetiredAt(start.target, start.records, p)
    && (p in w.records <==> KeepsRecord(start.target, start.records, p))
    && (p in w.records ==> At(w.records, p) == At(start.records, p) && At(w.target, p) == At(start.target, p))
  }

  lemma RetireOnce(start: Work, w: Work, p: Path, current: set<Path>)
    requires p in start.records && p !in current
    requires At(w.target, p) == At(start.target, p) && At(w.records, p) == At(start.records, p)
    ensures IsRetired(start, StepRetire(w, p, current), p)
  {
    RetireShows(w, p, current);
    SameRetired(start, w, p);
    hide StepRetire, RetiredAt, KeepsRecord;
  }

  lemma SameRetired(start: Work, w: Work, p: Path)
    requires p in start.records && At(w.target, p) == At(start.target, p) && At(w.records, p) == At(start.records, p)
    ensures p in w.records && RetiredAt(w.target, w.records, p) == RetiredAt(start.target, start.records, p)
    ensures KeepsRecord(w.target, w.records, p) <==> KeepsRecord(start.target, start.records, p)
  {
    hide AppendBlock.RetirementFor;
  }

  lemma RetireAgain(start: Work, w: Work, q: Path, p: Path, current: set<Path>)
    requires p in start.records && p !in current && IsRetired(start, w, p)
    ensures IsRetired(start, StepRetire(w, q, current), p)
  {
    if q == p {
      if p in w.records {
        RetireOnce(start, w, p, current);
      }
    } else {
      RetireElsewhere(w, q, current, p);
    }
    hide AppendBlock.RetirementFor, RetiredAt, KeepsRecord;
  }

  lemma {:induction false} RetiringRetires(w: Work, paths: seq<Path>, current: set<Path>, p: Path)
    requires p in paths && p in w.records && p !in current
    ensures IsRetired(w, RetireAll(w, paths, current), p)
  {
    var front, last := paths[..|paths| - 1], paths[|paths| - 1];
    assert paths == front + [last];
    hide StepRetire, IsRetired;
    if p in front {
      RetiringRetires(w, front, current, p);
      RetireAgain(w, RetireAll(w, front, current), last, p, current);
    } else {
      RetiredElsewhere(w, front, current, p);
      RetireOnce(w, RetireAll(w, front, current), p, current);
    }
  }

  lemma {:induction false} UnknownStays(w: Work, paths: seq<Path>, current: set<Path>, p: Path)
    requires p !in w.records
    ensures
      var w' := RetireAll(w, paths, current);
      p !in w'.records && At(w'.target, p) == At(w.target, p) && At(w'.staged, p) == At(w.staged, p)
  {
    if paths != [] {
      var front, last := paths[..|paths| - 1], paths[|paths| - 1];
      UnknownStays(w, front, current, p);
      UnknownStep(RetireAll(w, front, current), last, current, p);
    }
  }

  lemma UnknownStep(w: Work, q: Path, current: set<Path>, p: Path)
    requires p !in w.records
    ensures
      var w' := StepRetire(w, q, current);
      p !in w'.records && At(w'.target, p) == At(w.target, p) && w'.staged == w.staged
  {
    hide AppendBlock.RetirementFor;
  }

  lemma OthersLand(w: Work, job: Job, p: Path)
    requires w.staged == map[] && p !in CurrentPaths(job.entries)
    requires p in w.records ==> p in job.recorded && (p, Delete) !in job.graves
    ensures LandedAt(PassA(w, job), p) == if p in w.records then RetiredAt(w.target, w.records, p)
                                          else UnknownAt(w.target, job.graves, p)
    ensures p in w.records ==>
              At(PassA(w, job).records, p) == if KeepsRecord(w.target, w.records, p) then At(w.records, p) else None
  {
    var current := CurrentPaths(job.entries);
    var staged := StageEntries(w, job.entries, job.env);
    var retired := RetireAll(staged, job.recorded, current);
    UntouchedRecord(w, job.entries, job.env, p);
    if p in w.records {
      RetiringRetires(staged, job.recorded, current, p);
      SameRetired(w, staged, p);
    } else {
      UnknownStays(staged, job.recorded, current, p);
    }
    RetireKeepsStaged(staged, job.recorded, current);
    Buried(retired, job.graves, current, p);
    NormalizeKeepsFiles(BuryAll(retired, job.graves, current), job.entries);
    Normalized(BuryAll(retired, job.graves, current), job.entries, p);
    NotOwnedNow(job.entries, p);
    hide StageEntries, RetireAll, BuryAll, NormalizeOwned, RetiredAt, CurrentPaths, KeepsRecord, OwnedBy;
  }

  /** The `i`-th entry alone is about its path, and the path is not also on the list to delete. */
  ghost predicate Ships(job: Job, i: nat)
    requires i < |job.entries|
  {
    var e := job.entries[i];
    Sole(job.entries, i) && e.policy != Exclude && (e.path, Delete) !in job.graves && e.path != ROOMODES
  }

  /** The harness's own entries are recorded with the source they were shipped from, and a project's files with the hash
      they have and the source shipped now. */
  ghost predicate SourcesRecorded(files: map<Path, Bytes>, job: Job, records: Records) {
    forall i :: 0 <= i < |job.entries| && Ships(job, i) ==>
      && SourceRecorded(records, job.entries[i])
      && (job.entries[i].policy == ProjectOwned && job.entries[i].path in files ==>
            At(records, job.entries[i].path) == Some(ProjectRecord(files, job.entries[i])))
  }

  function ProjectRecord(files: map<Path, Bytes>, e: Entry): Rec
    requires e.path in files
  {
    Rec(ProjectOwned, Some(Sha(files[e.path])), Some(Sha(e.source)), None)
  }

  lemma {:induction false} NormalizingRecords(w: Work, entries: seq<Entry>, i: nat)
    requires i < |entries| && Sole(entries, i) && entries[i].policy == ProjectOwned && entries[i].path in w.target
    ensures At(NormalizeOwned(w, entries).records, entries[i].path) == Some(ProjectRecord(w.target, entries[i]))
  {
    var front, last := entries[..|entries| - 1], entries[|entries| - 1];
    NormalizeKeepsFiles(w, front);
    if i < |front| {
      assert forall j :: 0 <= j < |front| ==> front[j] == entries[j];
      NormalizingRecords(w, front, i);
      assert last.path != entries[i].path;
    }
  }

  lemma ProjectIsRecorded(w: Work, job: Job, i: nat)
    requires w.staged == map[] && i < |job.entries| && Ships(job, i)
    requires job.entries[i].policy == ProjectOwned && job.entries[i].path in w.target
    ensures At(PassA(w, job).records, job.entries[i].path) == Some(ProjectRecord(w.target, job.entries[i]))
  {
    var e, current := job.entries[i], CurrentPaths(job.entries);
    var staged := StageEntries(w, job.entries, job.env);
    var retired := RetireAll(staged, job.recorded, current);
    assert e in job.entries && e.path in current;
    StagingLeavesTarget(w, job.entries, job.env, i);
    RetiredElsewhere(staged, job.recorded, current, e.path);
    Buried(retired, job.graves, current, e.path);
    NormalizingRecords(BuryAll(retired, job.graves, current), job.entries, i);
    hide StageEntries, RetireAll, BuryAll, NormalizeOwned, CurrentPaths;
  }

  lemma {:induction false} StagingLeavesTarget(w: Work, entries: seq<Entry>, env: Upgrade.Env, i: nat)
    requires i < |entries| && Sole(entries, i) && entries[i].policy == ProjectOwned
    ensures At(StageEntries(w, entries, env).target, entries[i].path) == At(w.target, entries[i].path)
  {
    var front, last := entries[..|entries| - 1], entries[|entries| - 1];
    if i < |front| {
      assert forall j :: 0 <= j < |front| ==> front[j] == entries[j];
      StagingLeavesTarget(w, front, env, i);
      StepElsewhere(StageEntries(w, front, env), last, env, entries[i].path);
    } else {
      StagingElsewhere(w, front, env, last.path);
    }
    hide AppendBlock.PlanFor;
  }

  /** Every path, `.roomodes` apart, holds what it should: shipped, retired or unknown. Paths also on the list to delete
      are left out where they are shipped or recorded. */
  ghost predicate LandsRight(files: map<Path, Bytes>, records: Records, job: Job, now: map<Path, Bytes>) {
    && (forall i :: 0 <= i < |job.entries| && Ships(job, i) ==>
          At(now, job.entries[i].path) == ShippedAt(files, records, job.entries[i], job.env))
    && (forall p :: p in records && p !in CurrentPaths(job.entries) && (p, Delete) !in job.graves && p != ROOMODES ==>
          At(now, p) == RetiredAt(files, records, p))
    && (forall p :: p !in records && p !in CurrentPaths(job.entries) && p != ROOMODES ==>
          At(now, p) == UnknownAt(files, job.graves, p))
  }

  lemma LandedIs(w: Work, sync: Bytes -> Bytes, p: Path)
    requires p != ROOMODES
    ensures At(Synced(Landed(w), sync), p) == LandedAt(w, p)
  {
  }

  /** After the upgrade's first phase, once the staged files are in place, every path is right. */
  lemma UpgradeLands(w: Work, job: Job, sync: Bytes -> Bytes)
    requires w.staged == map[] && forall q :: q in w.records ==> q in job.recorded
    ensures LandsRight(w.target, w.records, job, Synced(Landed(PassA(w, job)), sync))
    ensures SourcesRecorded(w.target, job, PassA(w, job).records)
  {
    var done := PassA(w, job);
    var now := Synced(Landed(done), sync);
    hide PassA, ShippedAt, RetiredAt, UnknownAt, CurrentPaths, SourceRecorded;
    forall i | 0 <= i < |job.entries| && Ships(job, i)
      ensures At(now, job.entries[i].path) == ShippedAt(w.target, w.records, job.entries[i], job.env)
      ensures SourceRecorded(done.records, job.entries[i])
      ensures job.entries[i].policy == ProjectOwned && job.entries[i].path in w.target ==>
                At(done.records, job.entries[i].path) == Some(ProjectRecord(w.target, job.entries[i]))
    {
      ShippedLands(w, job, i);
      if job.entries[i].policy == ProjectOwned && job.entries[i].path in w.target {
        ProjectIsRecorded(w, job, i);
      }
      LandedIs(done, sync, job.entries[i].path);
    }
    forall p | p !in CurrentPaths(job.entries) && p != ROOMODES && (p in w.records ==> (p, Delete) !in job.graves)
      ensures p in w.records ==> At(now, p) == RetiredAt(w.target, w.records, p)
      ensures p !in w.records ==> At(now, p) == UnknownAt(w.target, job.graves, p)
    {
      OthersLand(w, job, p);
      LandedIs(done, sync, p);
    }
  }

  // ------------------------------------------------------------------ the conflicts

  function NewName(p: Path): Path {
    p + ".new"
  }

  function RetiredName(p: Path): Path {
    p + ".retired"
  }

  /** What a retirement puts under `.retired`: the changed file, or the block that cannot be taken out. */
  ghost function RetirementConflict(files: map<Path, Bytes>, records: Records, p: Path): Option<Bytes>
    requires p in records
  {
    match records[p].policy
    case HarnessOwned | Managed =>
      if p in files && records[p].sha.Some? && records[p].sha != Some(Sha(files[p])) then At(files, p) else None
    case ManagedAppend =>
      var plan := AppendBlock.RetirementFor(At(files, p), p, BlockInfo(records, p));
      if plan.conflict then Some(plan.proposed) else None
    case ProjectOwned | Seed | Exclude => None
  }

  /** What an update of a block puts under `.new`: the block it could not put in. */
  ghost function ShippingConflict(files: map<Path, Bytes>, records: Records, e: Entry, env: Upgrade.Env): Option<Bytes> {
    if e.policy != ManagedAppend then None
    else
      var plan := AppendBlock.PlanFor(At(files, e.path), e.source, env.version, e.path, BlockInfo(records, e.path));
      if plan.conflict then Some(plan.proposed) else None
  }

  ghost predicate Unshippable(files: map<Path, Bytes>, records: Records, e: Entry, env: Upgrade.Env) {
    ShippingConflict(files, records, e, env).Some?
  }

  /** Every conflict is set aside for the user, with its bytes. */
  ghost predicate ConflictsTold(files: map<Path, Bytes>, records: Records, job: Job, conflicts: map<Path, Bytes>) {
    && (forall i :: 0 <= i < |job.entries| && Sole(job.entries, i) && Unshippable(files, records, job.entries[i], job.env) ==>
          At(conflicts, NewName(job.entries[i].path)) == ShippingConflict(files, records, job.entries[i], job.env))
    && (forall p :: p in records && p !in CurrentPaths(job.entries) && RetirementConflict(files, records, p).Some? ==>
          At(conflicts, RetiredName(p)) == RetirementConflict(files, records, p))
  }

  /** Every record, too: each block as the planner's runs leave it, and retired paths with a record exactly when they could
      not be retired. */
  ghost predicate RecordsRight(files: map<Path, Bytes>, records: Records, job: Job, now: map<Path, Bytes>, now': Records) {
    && (forall i :: 0 <= i < |job.entries| && Ships(job, i) && job.entries[i].policy == ManagedAppend ==>
          var e := job.entries[i];
          BlockAt(now, now', e.path)
          == AppendBlock.Updated(BlockAt(files, records, e.path), e.source, job.env.version, e.path))
    && (forall p :: p in records && p !in CurrentPaths(job.entries) && (p, Delete) !in job.graves ==>
          At(now', p) == if KeepsRecord(files, records, p) then At(records, p) else None)
  }

  lemma BlockIsRecorded(w: Work, job: Job, i: nat, sync: Bytes -> Bytes)
    requires w.staged == map[] && i < |job.entries| && Ships(job, i) && job.entries[i].policy == ManagedAppend
    ensures
      var done, e := PassA(w, job), job.entries[i];
      BlockAt(Synced(Landed(done), sync), done.records, e.path)
      == AppendBlock.Updated(BlockAt(w.target, w.records, e.path), e.source, job.env.version, e.path)
  {
    var e, current, done := job.entries[i], CurrentPaths(job.entries), PassA(w, job);
    var staged := StageEntries(w, job.entries, job.env);
    var retired := RetireAll(staged, job.recorded, current);
    assert e in job.entries && e.path in current;
    StagingUpdatesBlock(w, job.entries, job.env, i);
    RetiredElsewhere(staged, job.recorded, current, e.path);
    Buried(retired, job.graves, current, e.path);
    NormalizeKeepsFiles(BuryAll(retired, job.graves, current), job.entries);
    forall f | f in job.entries && f.policy == ProjectOwned ensures f.path != e.path {
      var k :| 0 <= k < |job.entries| && job.entries[k] == f;
    }
    LandedIs(done, sync, e.path);
    hide StageEntries, RetireAll, BuryAll, NormalizeOwned, CurrentPaths, AppendBlock.Updated;
  }

  /** After an upgrade every record is right. */
  lemma UpgradeRecords(w: Work, job: Job, sync: Bytes -> Bytes)
    requires w.staged == map[] && forall q :: q in w.records ==> q in job.recorded
    ensures RecordsRight(w.target, w.records, job, Synced(Landed(PassA(w, job)), sync), PassA(w, job).records)
  {
    var done := PassA(w, job);
    hide PassA, KeepsRecord, BlockAt, AppendBlock.Updated, CurrentPaths, Synced, Landed;
    forall i | 0 <= i < |job.entries| && Ships(job, i) && job.entries[i].policy == ManagedAppend
      ensures
        var e := job.entries[i];
        BlockAt(Synced(Landed(done), sync), done.records, e.path)
        == AppendBlock.Updated(BlockAt(w.target, w.records, e.path), e.source, job.env.version, e.path)
    {
      BlockIsRecorded(w, job, i, sync);
    }
    forall p | p in w.records && p !in CurrentPaths(job.entries) && (p, Delete) !in job.graves
      ensures At(done.records, p) == if KeepsRecord(w.target, w.records, p) then At(w.records, p) else None
    {
      OthersLand(w, job, p);
    }
  }

  lemma NamesEndApart(p: Path, q: Path)
    ensures p + ".retired" != q + ".new"
    ensures p + ".retired" == q + ".retired" ==> p == q
    ensures p + ".new" == q + ".new" ==> p == q
  {
    var retired, new_ := p + ".retired", q + ".new";
    assert retired[|retired| - 1] == 'd' && new_[|new_| - 1] == 'w';
    if p + ".retired" == q + ".retired" {
      assert p == (p + ".retired")[..|p|] && q == (q + ".retired")[..|q|];
    }
    if p + ".new" == q + ".new" {
      assert p == (p + ".new")[..|p|] && q == (q + ".new")[..|q|];
    }
  }

  lemma RetireTells(w: Work, q: Path, current: set<Path>, p: Path)
    requires p !in current
    ensures
      var w' := StepRetire(w, q, current);
      if q == p && p in w.records && RetirementConflict(w.target, w.records, p).Some?
      then At(w'.conflicts, RetiredName(p)) == RetirementConflict(w.target, w.records, p)
      else At(w'.conflicts, RetiredName(p)) == At(w.conflicts, RetiredName(p))
  {
    NamesEndApart(p, q);
    hide AppendBlock.RetirementFor;
  }

  lemma SameConflict(start: Work, w: Work, p: Path)
    requires p in start.records && At(w.target, p) == At(start.target, p) && At(w.records, p) == At(start.records, p)
    ensures p in w.records
    ensures RetirementConflict(w.target, w.records, p) == RetirementConflict(start.target, start.records, p)
  {
    hide AppendBlock.RetirementFor;
  }

  lemma {:induction false} RetiringTells(w: Work, paths: seq<Path>, current: set<Path>, p: Path)
    requires p in paths && p in w.records && p !in current && RetirementConflict(w.target, w.records, p).Some?
    ensures At(RetireAll(w, paths, current).conflicts, RetiredName(p)) == RetirementConflict(w.target, w.records, p)
  {
    var front, last := paths[..|paths| - 1], paths[|paths| - 1];
    var before := RetireAll(w, front, current);
    InFrontOrLast(paths, p);
    OneMoreRetired(w, paths, current);
    hide StepRetire, RetirementConflict, IsRetired, RetiredName, RetireAll;
    if p in front {
      RetiringTells(w, front, current, p);
      RetiringRetires(w, front, current, p);
      TellsAgain(w, before, last, current, p);
    } else {
      RetiredElsewhere(w, front, current, p);
      TellsFirst(w, before, current, p);
    }
  }

  lemma InFrontOrLast(paths: seq<Path>, p: Path)
    requires p in paths
    ensures p in paths[..|paths| - 1] || p == paths[|paths| - 1]
  {
  }

  lemma OneMoreRetired(w: Work, paths: seq<Path>, current: set<Path>)
    requires paths != []
    ensures RetireAll(w, paths, current)
         == StepRetire(RetireAll(w, paths[..|paths| - 1], current), paths[|paths| - 1], current)
  {
    hide StepRetire;
  }

  lemma TellsFirst(start: Work, w: Work, current: set<Path>, p: Path)
    requires p in start.records && p !in current && RetirementConflict(start.target, start.records, p).Some?
    requires At(w.target, p) == At(start.target, p) && At(w.records, p) == At(start.records, p)
    ensures At(StepRetire(w, p, current).conflicts, RetiredName(p)) == RetirementConflict(start.target, start.records, p)
  {
    SameConflict(start, w, p);
    RetireTells(w, p, current, p);
    hide StepRetire, RetirementConflict, RetiredName;
  }

  lemma TellsAgain(start: Work, w: Work, q: Path, current: set<Path>, p: Path)
    requires p in start.records && p !in current && IsRetired(start, w, p)
    requires RetirementConflict(start.target, start.records, p).Some?
    requires At(w.conflicts, RetiredName(p)) == RetirementConflict(start.target, start.records, p)
    ensures At(StepRetire(w, q, current).conflicts, RetiredName(p)) == RetirementConflict(start.target, start.records, p)
  {
    StillConflicts(start, w, p);
    RetireTells(w, q, current, p);
    hide StepRetire, RetirementConflict, RetiredName, IsRetired;
  }

  lemma StillConflicts(start: Work, w: Work, p: Path)
    requires p in start.records && IsRetired(start, w, p)
    ensures p in w.records ==>
              RetirementConflict(w.target, w.records, p) == RetirementConflict(start.target, start.records, p)
  {
    if p in w.records {
      SameConflict(start, w, p);
    }
    hide RetirementConflict, RetiredAt, KeepsRecord;
  }

  lemma {:induction false} RetiringKeeps(w: Work, paths: seq<Path>, current: set<Path>, name: Path)
    requires forall q: Path :: RetiredName(q) != name
    ensures At(RetireAll(w, paths, current).conflicts, name) == At(w.conflicts, name)
  {
    hide AppendBlock.RetirementFor;
    if paths != [] {
      RetiringKeeps(w, paths[..|paths| - 1], current, name);
      assert RetiredName(paths[|paths| - 1]) != name;
    }
  }

  lemma StepTells(w: Work, e: Entry, env: Upgrade.Env)
    requires ShippingConflict(w.target, w.records, e, env).Some?
    ensures At(StepEntry(w, e, env).conflicts, NewName(e.path)) == ShippingConflict(w.target, w.records, e, env)
  {
    hide AppendBlock.PlanFor;
  }

  lemma StepKeepsTold(w: Work, e: Entry, env: Upgrade.Env, p: Path)
    requires e.path != p && RunId(env.runid)
    ensures At(StepEntry(w, e, env).conflicts, NewName(p)) == At(w.conflicts, NewName(p))
  {
    NamesEndApart(p, e.path);
    BackupNamesApart(e.path, p, env.runid);
    hide AppendBlock.PlanFor, RunId, BackupName;
  }

  lemma {:induction false} StagingTells(w: Work, entries: seq<Entry>, env: Upgrade.Env, i: nat)
    requires i < |entries| && Sole(entries, i) && RunId(env.runid)
    requires ShippingConflict(w.target, w.records, entries[i], env).Some?
    ensures At(StageEntries(w, entries, env).conflicts, NewName(entries[i].path))
         == ShippingConflict(w.target, w.records, entries[i], env)
  {
    var front, last := entries[..|entries| - 1], entries[|entries| - 1];
    hide StepEntry, ShippingConflict, RunId, NewName;
    if i < |front| {
      assert forall j :: 0 <= j < |front| ==> front[j] == entries[j];
      StagingTells(w, front, env, i);
      StepKeepsTold(StageEntries(w, front, env), last, env, entries[i].path);
    } else {
      StagingElsewhere(w, front, env, last.path);
      SameShippingConflict(w, StageEntries(w, front, env), last, env);
      StepTells(StageEntries(w, front, env), last, env);
    }
  }

  lemma SameShippingConflict(w: Work, w': Work, e: Entry, env: Upgrade.Env)
    requires SameAt(w, w', e.path)
    ensures ShippingConflict(w'.target, w'.records, e, env) == ShippingConflict(w.target, w.records, e, env)
  {
    hide AppendBlock.PlanFor;
  }

  /** Whatever could not be done is found in the conflicts, with its bytes. */
  lemma UpgradeTells(w: Work, job: Job)
    requires w.staged == map[] && RunId(job.env.runid) && forall q :: q in w.records ==> q in job.recorded
    ensures ConflictsTold(w.target, w.records, job, PassA(w, job).conflicts)
  {
    var current := CurrentPaths(job.entries);
    var staged := StageEntries(w, job.entries, job.env);
    var retired := RetireAll(staged, job.recorded, current);
    Buried(retired, job.graves, current, "");
    NormalizeKeepsFiles(BuryAll(retired, job.graves, current), job.entries);
    assert PassA(w, job).conflicts == retired.conflicts;
    hide StageEntries, RetireAll, PassA, ShippingConflict, RetirementConflict, RunId;
    forall i | 0 <= i < |job.entries| && Sole(job.entries, i) && Unshippable(w.target, w.records, job.entries[i], job.env)
      ensures At(retired.conflicts, NewName(job.entries[i].path))
           == ShippingConflict(w.target, w.records, job.entries[i], job.env)
    {
      var p := job.entries[i].path;
      StagingTells(w, job.entries, job.env, i);
      forall q: Path ensures RetiredName(q) != NewName(p) {
        NamesEndApart(q, p);
      }
      RetiringKeeps(staged, job.recorded, current, NewName(p));
    }
    forall p | p in w.records && p !in current && RetirementConflict(w.target, w.records, p).Some?
      ensures At(retired.conflicts, RetiredName(p)) == RetirementConflict(w.target, w.records, p)
    {
      UntouchedRecord(w, job.entries, job.env, p);
      SameConflict(w, staged, p);
      RetiringTells(staged, job.recorded, current, p);
    }
  }
}
