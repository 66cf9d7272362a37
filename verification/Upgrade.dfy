/** The upgrade: staging what changed, backing up what the user changed, retiring what is no longer shipped. */
module Upgrade {
  import opened Prelude
  import opened InstallDisk
  import opened InstallRuns
  import AppendBlock

  /** What the manifest records of one path. */
  datatype Rec = Rec(policy: Policy, sha: Option<Digest>, source: Option<Digest>, applied: Option<string>)

  type Records = map<Path, Rec>

  /** What an upgrade changes before anything is published. */
  datatype Work =
    Work(target: map<Path, Bytes>, conflicts: map<Path, Bytes>, staged: map<Path, Bytes>, records: Records)

  datatype GraveAction = Delete | Warn | Ignore

  datatype Env = Env(force: bool, runid: string, version: string, backupFails: set<Path>)


  function HashAt(files: map<Path, Bytes>, p: Path): Option<Digest> {
    if p in files then Some(Sha(files[p])) else None
  }

  function BackupName(p: Path, runid: string): Path {
    p + ".user-backup-" + runid
  }

  /** The record as the append-block planner sees it. */
  function BlockInfo(records: Records, p: Path): Option<AppendBlock.Info> {
    if p !in records then None
    else
      var r := records[p];
      Some(AppendBlock.Info(if r.policy == Managed then "managed" else if r.policy == ManagedAppend then "managed-append"
                            else "other", r.applied,
                            if r.sha.Some? then Some(r.sha.value.bytes) else None))
  }

  /** Locally modified, as the upgrade tells: no recorded hash, or another one than the file has. */
  predicate Modified(w: Work, p: Path) {
    p in w.target && (p !in w.records || w.records[p].sha != Some(Sha(w.target[p])))
  }

  /** The source has not changed since it was installed. */
  predicate SourceUnchanged(w: Work, e: Entry) {
    e.path in w.records && w.records[e.path].source == Some(Sha(e.source))
  }

  predicate BacksUp(w: Work, e: Entry, env: Env) {
    !env.force && Modified(w, e.path) && e.path !in env.backupFails
  }

  predicate Skips(w: Work, e: Entry, env: Env) {
    e.path in w.target && !env.force && !Modified(w, e.path) && SourceUnchanged(w, e)
  }

  /** A harness-owned or managed entry. */
  function StageFile(w: Work, e: Entry, env: Env): Work {
    if Skips(w, e, env) then w
    else
      Work(w.target,
           if BacksUp(w, e, env) then w.conflicts[BackupName(e.path, env.runid) := w.target[e.path]] else w.conflicts,
           w.staged[e.path := e.source],
           w.records[e.path := Rec(e.policy,
                                   if e.policy == HarnessOwned then Some(Sha(e.source)) else HashAt(w.target, e.path),
                                   Some(Sha(e.source)), None)])
  }

  /** A managed-append entry. */
  ghost function PlanBlock(w: Work, e: Entry, env: Env): Work {
    var plan := AppendBlock.PlanFor(At(w.target, e.path), e.source, env.version, e.path, BlockInfo(w.records, e.path));
    if plan.conflict then w.(conflicts := w.conflicts[e.path + ".new" := plan.proposed])
    else
      var target := if plan.updated.Some? then w.target[e.path := plan.updated.value] else w.target;
      w.(target := target,
         records := w.records[e.path := Rec(ManagedAppend, HashAt(target, e.path), Some(Sha(e.source)), plan.applied)])
  }

  ghost function StepEntry(w: Work, e: Entry, env: Env): Work {
    if e.policy == ManagedAppend then PlanBlock(w, e, env)
    else if e.policy in {HarnessOwned, Managed} then StageFile(w, e, env)
    else w
  }

  ghost function StageEntries(w: Work, entries: seq<Entry>, env: Env): Work {
    if entries == [] then w
    else StepEntry(StageEntries(w, entries[..|entries| - 1], env), entries[|entries| - 1], env)
  }

  function CurrentPaths(entries: seq<Entry>): set<Path> {
    set e | e in entries && e.policy != Exclude :: e.path
  }

  /** A recorded path that is no longer shipped. */
  ghost function StepRetire(w: Work, p: Path, current: set<Path>): Work {
    if p !in w.records || p in current || w.records[p].policy !in {HarnessOwned, Managed, ManagedAppend} then w
    else if w.records[p].policy == ManagedAppend then
      var plan := AppendBlock.RetirementFor(At(w.target, p), p, BlockInfo(w.records, p));
      if plan.conflict then w.(conflicts := w.conflicts[p + ".retired" := plan.proposed])
      else w.(target := if plan.updated.Some? then w.target[p := plan.updated.value] else w.target,
              records := w.records - {p})
    else if p in w.target && w.records[p].sha.Some? && w.records[p].sha != Some(Sha(w.target[p])) then
      w.(conflicts := w.conflicts[p + ".retired" := w.target[p]])
    else w.(target := w.target - {p}, records := w.records - {p})
  }

  ghost function RetireAll(w: Work, paths: seq<Path>, current: set<Path>): Work {
    if paths == [] then w
    else StepRetire(RetireAll(w, paths[..|paths| - 1], current), paths[|paths| - 1], current)
  }

  /** A path of an earlier version, shipped or not. */
  function StepGrave(w: Work, grave: (Path, GraveAction), current: set<Path>): Work {
    var (p, action) := grave;
    if (p in w.records && p !in current) || p !in w.target || action != Delete then w
    else w.(target := w.target - {p}, records := w.records - {p})
  }

  ghost function BuryAll(w: Work, graves: seq<(Path, GraveAction)>, current: set<Path>): Work {
    if graves == [] then w
    else StepGrave(BuryAll(w, graves[..|graves| - 1], current), graves[|graves| - 1], current)
  }

  function StepOwned(w: Work, e: Entry): Work {
    if e.policy == ProjectOwned && e.path in w.target then
      w.(records := w.records[e.path := Rec(ProjectOwned, Some(Sha(w.target[e.path])), Some(Sha(e.source)), None)])
    else w
  }

  ghost function NormalizeOwned(w: Work, entries: seq<Entry>): Work {
    if entries == [] then w else StepOwned(NormalizeOwned(w, entries[..|entries| - 1]), entries[|entries| - 1])
  }

  /** What one upgrade is given. `recorded` lists the recorded paths in the order they are retired. */
  datatype Job = Job(entries: seq<Entry>, recorded: seq<Path>, graves: seq<(Path, GraveAction)>, env: Env)

  ghost function PassA(w: Work, job: Job): Work {
    var current := CurrentPaths(job.entries);
    NormalizeOwned(BuryAll(RetireAll(StageEntries(w, job.entries, job.env), job.recorded, current), job.graves, current),
                   job.entries)
  }

  /** The files once the staged ones are in place. */
  function Landed(w: Work): map<Path, Bytes> {
    w.target + w.staged
  }

  /** The recorded hashes of the harness-owned paths. */
  function Owned(records: Records): map<Path, Digest> {
    map p | p in records && records[p].policy == HarnessOwned && records[p].sha.Some? :: records[p].sha.value
  }

  // ------------------------------------------------------------ user bytes survive

  /** `secrets`-made run ids end in six hex digits after a dash. */
  predicate RunId(runid: string) {
    && |runid| >= 7 && runid[|runid| - 7] == '-'
    && ('0' <= runid[|runid| - 1] <= '9' || 'a' <= runid[|runid| - 1] <= 'f')
  }

  /** No other conflict file has the name of a backup. */
  lemma BackupNamesApart(p: Path, q: Path, runid: string)
    requires RunId(runid)
    ensures q + ".new" != BackupName(p, runid) && q + ".retired" != BackupName(p, runid)
    ensures BackupName(q, runid) == BackupName(p, runid) ==> q == p
  {
    var name := BackupName(p, runid);
    assert name[|name| - 1] == runid[|runid| - 1] && name[|name| - 7] == runid[|runid| - 7];
    assert (q + ".new")[|q + ".new"| - 1] == 'w';
    assert (q + ".retired")[|q + ".retired"| - 7] == 'r';
    var other := BackupName(q, runid);
    assert other[..|q|] == q && name[..|p|] == p;
  }

  /** The bytes a user left at `p` are still there, or will be overwritten but have their backup. */
  ghost predicate Safe(w: Work, p: Path, bytes: Bytes, runid: string) {
    && At(w.target, p) == Some(bytes)
    && (p in w.staged ==> At(w.conflicts, BackupName(p, runid)) == Some(bytes))
    && (p !in w.staged ==> Modified(w, p))
  }

  lemma EntryKeepsSafe(w: Work, e: Entry, env: Env, p: Path, bytes: Bytes)
    requires RunId(env.runid) && !env.force && p !in env.backupFails && Safe(w, p, bytes, env.runid)
    requires e.path == p ==> e.policy != ManagedAppend
    ensures Safe(StepEntry(w, e, env), p, bytes, env.runid)
  {
    BackupNamesApart(p, e.path, env.runid);
    hide AppendBlock.PlanFor, BackupName, RunId;
  }

  lemma {:induction false} EntriesKeepSafe(w: Work, entries: seq<Entry>, env: Env, p: Path, bytes: Bytes)
    requires RunId(env.runid) && !env.force && p !in env.backupFails && Safe(w, p, bytes, env.runid)
    requires forall e :: e in entries && e.path == p ==> e.policy != ManagedAppend
    ensures Safe(StageEntries(w, entries, env), p, bytes, env.runid)
  {
    hide StepEntry, Safe, RunId;
    if entries != [] {
      EntriesKeepSafe(w, entries[..|entries| - 1], env, p, bytes);
      assert entries[|entries| - 1] in entries;
      EntryKeepsSafe(StageEntries(w, entries[..|entries| - 1], env), entries[|entries| - 1], env, p, bytes);
    }
  }

  /** Retirement spares this path: it is not recorded as the harness's, or its recorded hash shows the change. */
  ghost predicate Spared(w: Work, p: Path, bytes: Bytes) {
    p in w.records ==>
      || w.records[p].policy in {ProjectOwned, Seed, Exclude}
      || (w.records[p].policy in {HarnessOwned, Managed} && w.records[p].sha.Some? && w.records[p].sha != Some(Sha(bytes)))
  }

  /** Past staging: the bytes are at the path or in the backup, and retirement spares a path no longer shipped. */
  ghost predicate Kept(w: Work, p: Path, bytes: Bytes, runid: string, shipped: bool) {
    && At(w.target, p) == Some(bytes)
    && (p in w.staged ==> At(w.conflicts, BackupName(p, runid)) == Some(bytes))
    && (!shipped ==> Spared(w, p, bytes))
  }

  lemma RetireKeeps(w: Work, q: Path, current: set<Path>, p: Path, bytes: Bytes, runid: string)
    requires RunId(runid) && Kept(w, p, bytes, runid, p in current)
    ensures Kept(StepRetire(w, q, current), p, bytes, runid, p in current)
  {
    BackupNamesApart(p, q, runid);
    hide AppendBlock.RetirementFor, BackupName, RunId;
  }

  lemma {:induction false} RetireAllKeeps(w: Work, paths: seq<Path>, current: set<Path>, p: Path, bytes: Bytes, runid: string)
    requires RunId(runid) && Kept(w, p, bytes, runid, p in current)
    ensures Kept(RetireAll(w, paths, current), p, bytes, runid, p in current)
  {
    hide StepRetire, Kept, RunId;
    if paths != [] {
      RetireAllKeeps(w, paths[..|paths| - 1], current, p, bytes, runid);
      RetireKeeps(RetireAll(w, paths[..|paths| - 1], current), paths[|paths| - 1], current, p, bytes, runid);
    }
  }

  lemma {:induction false} BuryAllKeeps(w: Work, graves: seq<(Path, GraveAction)>, current: set<Path>, p: Path, bytes: Bytes,
                                        runid: string)
    requires (p, Delete) !in graves && Kept(w, p, bytes, runid, p in current)
    ensures Kept(BuryAll(w, graves, current), p, bytes, runid, p in current)
  {
    if graves != [] {
      BuryAllKeeps(w, graves[..|graves| - 1], current, p, bytes, runid);
      var last := graves[|graves| - 1];
      assert last in graves && last == (last.0, last.1);
    }
  }

  lemma {:induction false} NormalizeKeepsFiles(w: Work, entries: seq<Entry>)
    ensures NormalizeOwned(w, entries).target == w.target && NormalizeOwned(w, entries).staged == w.staged
    ensures NormalizeOwned(w, entries).conflicts == w.conflicts
    ensures forall p :: (forall e :: e in entries && e.policy == ProjectOwned ==> e.path != p) ==>
              At(NormalizeOwned(w, entries).records, p) == At(w.records, p)
    ensures forall p :: At(NormalizeOwned(w, entries).records, p) == At(w.records, p)
              || (p in NormalizeOwned(w, entries).records && NormalizeOwned(w, entries).records[p].policy == ProjectOwned)
  {
    if entries != [] {
      NormalizeKeepsFiles(w, entries[..|entries| - 1]);
      assert entries[|entries| - 1] in entries;
    }
  }

  lemma {:induction false} UntouchedRecord(w: Work, entries: seq<Entry>, env: Env, p: Path)
    requires p !in CurrentPaths(entries)
    ensures At(StageEntries(w, entries, env).records, p) == At(w.records, p)
    ensures p !in w.staged ==> p !in StageEntries(w, entries, env).staged
    ensures At(StageEntries(w, entries, env).target, p) == At(w.target, p)
  {
    hide AppendBlock.PlanFor;
    if entries != [] {
      var front := entries[..|entries| - 1];
      assert CurrentPaths(front) <= CurrentPaths(entries);
      assert entries[|entries| - 1] in entries;
      UntouchedRecord(w, front, env, p);
    }
  }

  /** A file with bytes of the user's that an upgrade must not lose: it has no recorded hash or another one, there is no
      force, its backup works, it is not on the list of paths to delete, no block is kept inside it, and if it is no longer
      shipped, retirement spares it. */
  ghost predicate UserFile(w: Work, job: Job, p: Path) {
    && RunId(job.env.runid) && !job.env.force && p !in job.env.backupFails && (p, Delete) !in job.graves
    && p != ROOMODES && Modified(w, p)
    && (forall e :: e in job.entries && e.path == p ==> e.policy != ManagedAppend)
    && (p !in CurrentPaths(job.entries) ==> Spared(w, p, w.target[p]))
  }

  /** The bytes are at the path or in the backup. */
  predicate Survives(files: map<Path, Bytes>, conflicts: map<Path, Bytes>, p: Path, bytes: Bytes, runid: string) {
    At(files, p) == Some(bytes) || At(conflicts, BackupName(p, runid)) == Some(bytes)
  }

  /** After the first phase a user's file is untouched, and if it will be overwritten its backup is there. */
  lemma UserFileIsKept(w: Work, job: Job, p: Path)
    requires UserFile(w, job, p) && w.staged == map[]
    ensures Kept(PassA(w, job), p, w.target[p], job.env.runid, true)
  {
    var current := CurrentPaths(job.entries);
    var bytes := w.target[p];
    EntriesKeepSafe(w, job.entries, job.env, p, bytes);
    var staged := StageEntries(w, job.entries, job.env);
    if p !in current {
      UntouchedRecord(w, job.entries, job.env, p);
    }
    RetireAllKeeps(staged, job.recorded, current, p, bytes, job.env.runid);
    var retired := RetireAll(staged, job.recorded, current);
    BuryAllKeeps(retired, job.graves, current, p, bytes, job.env.runid);
    NormalizeKeepsFiles(BuryAll(retired, job.graves, current), job.entries);
  }

  /** The bytes a user left survive the upgrade, at the path or in the conflicts. */
  lemma UserBytesSurvive(w: Work, job: Job, p: Path, sync: Bytes -> Bytes)
    requires UserFile(w, job, p) && w.staged == map[]
    ensures
      var done := PassA(w, job);
      Survives(Synced(Landed(done), sync), done.conflicts, p, w.target[p], job.env.runid)
  {
    UserFileIsKept(w, job, p);
    hide PassA, UserFile;
  }

  /** A retired file that differs from what was installed stays exactly when its record has a hash to tell by. */
  lemma RetiredStaysExactly(w: Work, job: Job, p: Path)
    requires w.staged == map[] && p !in CurrentPaths(job.entries) && p in job.recorded && (p, Delete) !in job.graves
    requires p in w.records && w.records[p].policy in {HarnessOwned, Managed} && Modified(w, p)
    ensures At(PassA(w, job).target, p) == Some(w.target[p]) <==> w.records[p].sha.Some?
  {
    var current := CurrentPaths(job.entries);
    var staged := StageEntries(w, job.entries, job.env);
    var retired := RetireAll(staged, job.recorded, current);
    var buried := BuryAll(retired, job.graves, current);
    UntouchedRecord(w, job.entries, job.env, p);
    RetiredHere(staged, job.recorded, current, p);
    Buried(retired, job.graves, current, p);
    NormalizeKeepsFiles(buried, job.entries);
  }

  // ----------------------------------------------------------- a manifest that fits

  predicate OwnedRecord(records: Records, p: Path) {
    p in records && records[p].policy == HarnessOwned
  }

  /** Recorded as harness-owned with a hash that the file, if there is one, does not have. */
  ghost predicate Misrecorded(w: Work, p: Path) {
    OwnedRecord(w.records, p) && w.records[p].sha.Some? && p != ROOMODES && HashAt(w.target, p) != w.records[p].sha
  }

  /** The plan of a managed-append entry. */
  ghost function PlanOf(w: Work, e: Entry, version: string): AppendBlock.Plan {
    AppendBlock.PlanFor(At(w.target, e.path), e.source, version, e.path, BlockInfo(w.records, e.path))
  }

  /** An entry that neither stages its path nor rewrites its record. */
  ghost predicate LeavesAlone(w: Work, e: Entry, version: string) {
    e.policy in {Seed, Exclude, ProjectOwned} || (e.policy == ManagedAppend && PlanOf(w, e, version).conflict)
  }

  ghost predicate AllLeaveAlone(w: Work, entries: seq<Entry>, version: string, p: Path) {
    forall e :: e in entries && e.path == p ==> LeavesAlone(w, e, version)
  }

  predicate OwnedBy(entries: seq<Entry>, p: Path) {
    exists e :: e in entries && e.path == p && e.policy == ProjectOwned
  }

  /** The recorded paths whose old hash an upgrade publishes although the file does not have it. A path no longer shipped
      is one when its file is there and changed. A path still shipped is one when it is shipped only as seed, as
      project-owned with the file missing, or as managed-append with a plan that conflicts, and is not deleted. */
  ghost predicate KeepsOldHash(w: Work, job: Job, p: Path) {
    && Misrecorded(w, p)
    && if p !in CurrentPaths(job.entries) then p in w.target
       else
         && AllLeaveAlone(w, job.entries, job.env.version, p)
         && (p in w.target ==> !OwnedBy(job.entries, p) && (p, Delete) !in job.graves)
  }

  ghost function KeptHashes(w: Work, job: Job): set<Path> {
    set p | p in w.records && KeepsOldHash(w, job, p)
  }

  /** One path through the staging of the entries seen so far. `start` is the work before any of them, `alone` says that
      all of them left the path alone. */
  ghost predicate Fits(start: Work, w: Work, p: Path, alone: bool) {
    && (OwnedRecord(w.records, p) && p in w.staged ==> w.records[p].sha == Some(Sha(w.staged[p])))
    && (OwnedRecord(w.records, p) && p !in w.staged ==>
          At(w.records, p) == At(start.records, p) && At(w.target, p) == At(start.target, p))
    && (alone ==> p !in w.staged && At(w.records, p) == At(start.records, p) && At(w.target, p) == At(start.target, p))
    && (!alone && Misrecorded(start, p) && p !in w.staged ==> !OwnedRecord(w.records, p))
  }

  lemma EntryFits(start: Work, w: Work, e: Entry, env: Env, p: Path, alone: bool)
    requires Fits(start, w, p, alone)
    ensures Fits(start, StepEntry(w, e, env), p, alone && (e.path == p ==> LeavesAlone(start, e, env.version)))
  {
    if e.path == p && e.policy == ManagedAppend {
      BlockFits(start, w, e, env, alone);
    } else {
      hide AppendBlock.PlanFor;
    }
  }

  lemma BlockFits(start: Work, w: Work, e: Entry, env: Env, alone: bool)
    requires Fits(start, w, e.path, alone) && e.policy == ManagedAppend
    ensures Fits(start, StepEntry(w, e, env), e.path, alone && LeavesAlone(start, e, env.version))
  {
    hide AppendBlock.PlanFor;
    if alone {
      assert BlockInfo(w.records, e.path) == BlockInfo(start.records, e.path);
      assert PlanOf(w, e, env.version) == PlanOf(start, e, env.version);
    }
  }

  lemma {:induction false} EntriesFit(start: Work, entries: seq<Entry>, env: Env, p: Path)
    requires start.staged == map[]
    ensures Fits(start, StageEntries(start, entries, env), p, AllLeaveAlone(start, entries, env.version, p))
  {
    hide StepEntry, Fits, LeavesAlone;
    if entries == [] {
      NothingStagedFits(start, p);
    } else {
      var front, last := entries[..|entries| - 1], entries[|entries| - 1];
      assert entries == front + [last];
      EntriesFit(start, front, env, p);
      EntryFits(start, StageEntries(start, front, env), last, env, p, AllLeaveAlone(start, front, env.version, p));
      assert AllLeaveAlone(start, entries, env.version, p) <==>
        AllLeaveAlone(start, front, env.version, p) && (last.path == p ==> LeavesAlone(start, last, env.version));
    }
  }

  lemma NothingStagedFits(start: Work, p: Path)
    requires start.staged == map[]
    ensures Fits(start, start, p, true)
  {
  }

  /** Retirement of one path changes only that path. */
  lemma RetireElsewhere(w: Work, q: Path, current: set<Path>, p: Path)
    requires p != q || p in current
    ensures
      var w' := StepRetire(w, q, current);
      At(w'.target, p) == At(w.target, p) && At(w'.records, p) == At(w.records, p) && w'.staged == w.staged
  {
    hide AppendBlock.RetirementFor;
  }

  lemma {:induction false} RetiredElsewhere(w: Work, paths: seq<Path>, current: set<Path>, p: Path)
    requires p !in paths || p in current
    ensures
      var w' := RetireAll(w, paths, current);
      At(w'.target, p) == At(w.target, p) && At(w'.records, p) == At(w.records, p) && w'.staged == w.staged
  {
    hide StepRetire;
    if paths != [] {
      RetiredElsewhere(w, paths[..|paths| - 1], current, p);
      RetireElsewhere(RetireAll(w, paths[..|paths| - 1], current), paths[|paths| - 1], current, p);
    }
  }

  /** What becomes of a recorded harness-owned path that is no longer shipped. */
  ghost predicate RetiredRight(start: Work, w: Work, p: Path)
    requires p in start.records
  {
    && w.staged == start.staged
    && if p in start.target && start.records[p].sha.Some? && start.records[p].sha != Some(Sha(start.target[p]))
       then At(w.target, p) == At(start.target, p) && At(w.records, p) == At(start.records, p)
       else p !in w.records && p !in w.target
  }

  lemma RetireOnce(start: Work, w: Work, p: Path, current: set<Path>)
    requires p in start.records && start.records[p].policy in {HarnessOwned, Managed} && p !in current
    requires At(w.target, p) == At(start.target, p) && At(w.records, p) == At(start.records, p) && w.staged == start.staged
    ensures RetiredRight(start, StepRetire(w, p, current), p)
  {
  }

  lemma RetireAgain(start: Work, w: Work, q: Path, p: Path, current: set<Path>)
    requires p in start.records && start.records[p].policy in {HarnessOwned, Managed} && p !in current && RetiredRight(start, w, p)
    ensures RetiredRight(start, StepRetire(w, q, current), p)
  {
    hide AppendBlock.RetirementFor;
  }

  lemma {:induction false} RetiredHere(w: Work, paths: seq<Path>, current: set<Path>, p: Path)
    requires p in paths && p in w.records && w.records[p].policy in {HarnessOwned, Managed} && p !in current
    ensures RetiredRight(w, RetireAll(w, paths, current), p)
  {
    hide StepRetire, RetiredRight;
    var front, last := paths[..|paths| - 1], paths[|paths| - 1];
    assert paths == front + [last];
    if p in front {
      RetiredHere(w, front, current, p);
      RetireAgain(w, RetireAll(w, front, current), last, p, current);
    } else {
      RetiredElsewhere(w, front, current, p);
      RetireOnce(w, RetireAll(w, front, current), p, current);
    }
  }

  /** A path is buried when it is on the list to delete, its file is there, and retirement did not pass over it. */
  ghost predicate IsBuried(w: Work, graves: seq<(Path, GraveAction)>, current: set<Path>, p: Path) {
    (p, Delete) in graves && p in w.target && !(p in w.records && p !in current)
  }

  /** A buried path loses its record; any other keeps both file and record. */
  lemma {:induction false} Buried(w: Work, graves: seq<(Path, GraveAction)>, current: set<Path>, p: Path)
    ensures
      var w' := BuryAll(w, graves, current);
      && w'.staged == w.staged && w'.conflicts == w.conflicts
      && (if IsBuried(w, graves, current, p) then p !in w'.records && p !in w'.target
          else At(w'.target, p) == At(w.target, p) && At(w'.records, p) == At(w.records, p))
  {
    if graves != [] {
      var front, last := graves[..|graves| - 1], graves[|graves| - 1];
      Buried(w, front, current, p);
      assert graves == front + [last] && last == (last.0, last.1);
    }
  }

  /** What becomes of the record of a project-owned path. */
  lemma {:induction false} Normalized(w: Work, entries: seq<Entry>, p: Path)
    ensures
      var w' := NormalizeOwned(w, entries);
      if p in w.target && OwnedBy(entries, p) then p in w'.records && w'.records[p].policy == ProjectOwned
      else At(w'.records, p) == At(w.records, p)
  {
    if entries != [] {
      var front, last := entries[..|entries| - 1], entries[|entries| - 1];
      Normalized(w, front, p);
      NormalizeKeepsFiles(w, front);
      assert entries == front + [last];
      assert OwnedBy(entries, p) <==> OwnedBy(front, p) || (last.path == p && last.policy == ProjectOwned);
    }
  }

  /** What a path is recorded as in the end, and whether its bytes will match. */
  lemma PathFits(w: Work, job: Job, p: Path)
    requires w.staged == map[] && (p in w.records ==> p in job.recorded)
    ensures
      var done := PassA(w, job);
      && (p in Owned(done.records) && p != ROOMODES ==>
            (Agrees(Landed(done), p, Owned(done.records)[p]) <==> !KeepsOldHash(w, job, p)))
      && (KeepsOldHash(w, job, p) ==> p in Owned(done.records))
  {
    if p in CurrentPaths(job.entries) {
      ShippedFits(w, job, p);
    } else {
      UnshippedFits(w, job, p);
    }
  }

  lemma ShippedFits(w: Work, job: Job, p: Path)
    requires w.staged == map[] && p in CurrentPaths(job.entries)
    ensures
      var done := PassA(w, job);
      && (p in Owned(done.records) && p != ROOMODES ==>
            (Agrees(Landed(done), p, Owned(done.records)[p]) <==> !KeepsOldHash(w, job, p)))
      && (KeepsOldHash(w, job, p) ==> p in Owned(done.records))
  {
    var current := CurrentPaths(job.entries);
    var staged := StageEntries(w, job.entries, job.env);
    var retired := RetireAll(staged, job.recorded, current);
    var buried := BuryAll(retired, job.graves, current);
    EntriesFit(w, job.entries, job.env, p);
    RetiredElsewhere(staged, job.recorded, current, p);
    Buried(retired, job.graves, current, p);
    NormalizeKeepsFiles(buried, job.entries);
    Normalized(buried, job.entries, p);
    hide StageEntries, RetireAll, BuryAll, NormalizeOwned, AllLeaveAlone, CurrentPaths, OwnedBy;
  }

  lemma UnshippedFits(w: Work, job: Job, p: Path)
    requires w.staged == map[] && p !in CurrentPaths(job.entries) && (p in w.records ==> p in job.recorded)
    ensures
      var done := PassA(w, job);
      && (p in Owned(done.records) && p != ROOMODES ==>
            (Agrees(Landed(done), p, Owned(done.records)[p]) <==> !KeepsOldHash(w, job, p)))
      && (KeepsOldHash(w, job, p) ==> p in Owned(done.records))
  {
    var current := CurrentPaths(job.entries);
    var staged := StageEntries(w, job.entries, job.env);
    var retired := RetireAll(staged, job.recorded, current);
    var buried := BuryAll(retired, job.graves, current);
    UntouchedRecord(w, job.entries, job.env, p);
    NotOwnedNow(job.entries, p);
    if OwnedRecord(w.records, p) {
      RetiredHere(staged, job.recorded, current, p);
    } else {
      NotHarnessOwned(staged, job.recorded, current, p);
    }
    RetireKeepsStaged(staged, job.recorded, current);
    Buried(retired, job.graves, current, p);
    NormalizeKeepsFiles(buried, job.entries);
    Normalized(buried, job.entries, p);
    hide StageEntries, RetireAll, BuryAll, NormalizeOwned, AllLeaveAlone, CurrentPaths;
  }

  lemma NotOwnedNow(entries: seq<Entry>, p: Path)
    requires p !in CurrentPaths(entries)
    ensures !OwnedBy(entries, p)
  {
  }

  lemma RetireOnlyRemoves(w: Work, q: Path, current: set<Path>, p: Path)
    ensures OwnedRecord(StepRetire(w, q, current).records, p) ==> OwnedRecord(w.records, p)
  {
    hide AppendBlock.RetirementFor;
  }

  lemma {:induction false} NotHarnessOwned(w: Work, paths: seq<Path>, current: set<Path>, p: Path)
    requires !OwnedRecord(w.records, p)
    ensures !OwnedRecord(RetireAll(w, paths, current).records, p)
  {
    hide StepRetire, OwnedRecord;
    if paths != [] {
      NotHarnessOwned(w, paths[..|paths| - 1], current, p);
      RetireOnlyRemoves(RetireAll(w, paths[..|paths| - 1], current), paths[|paths| - 1], current, p);
    }
  }

  lemma {:induction false} RetireKeepsStaged(w: Work, paths: seq<Path>, current: set<Path>)
    ensures RetireAll(w, paths, current).staged == w.staged
  {
    hide AppendBlock.RetirementFor;
    if paths != [] {
      RetireKeepsStaged(w, paths[..|paths| - 1], current);
    }
  }

  /** After the staging of an upgrade, whatever policies changed and however often a path is listed, the harness-owned
      paths whose bytes will differ from the hash about to be published are exactly those that keep an old one. */
  lemma PlannedGap(w: Work, job: Job, run: nat)
    requires w.staged == map[] && forall q :: q in w.records ==> q in job.recorded
    ensures
      var done := PassA(w, job);
      Mismatched(Landed(done), Payload(run, job.env.version, Owned(done.records))) == KeptHashes(w, job)
  {
    var done := PassA(w, job);
    forall p
      ensures p in Owned(done.records) && p != ROOMODES ==>
                (Agrees(Landed(done), p, Owned(done.records)[p]) <==> !KeepsOldHash(w, job, p))
      ensures KeepsOldHash(w, job, p) ==> p in Owned(done.records) && p in w.records && p != ROOMODES
    {
      PathFits(w, job, p);
    }
    hide PassA, KeepsOldHash;
  }

  /** So a manifest can be published wrong: one retired file with one edit is enough. */
  lemma EditedRetiredFileIsRecordedWrong(env: Env, run: nat)
    ensures
      var w := Work(map["docs/old.md" := "mine"], map[], map[],
                    map["docs/old.md" := Rec(HarnessOwned, Some(Sha("shipped")), None, None)]);
      var done := PassA(w, Job([], ["docs/old.md"], [], env));
      Mismatched(Landed(done), Payload(run, env.version, Owned(done.records))) == {"docs/old.md"}
  {
    var w := Work(map["docs/old.md" := "mine"], map[], map[],
                  map["docs/old.md" := Rec(HarnessOwned, Some(Sha("shipped")), None, None)]);
    var job := Job([], ["docs/old.md"], [], env);
    PlannedGap(w, job, run);
    assert CurrentPaths([]) == {};
    assert "mine" != "shipped";
    assert "docs/old.md" != ROOMODES;
    hide PassA;
    assert KeptHashes(w, job) == {"docs/old.md"};
  }

  /** And so is one file that a new version ships as a seed. */
  lemma FileBecomeSeedIsRecordedWrong(env: Env, run: nat)
    ensures
      var w := Work(map["docs/a.md" := "mine"], map[], map[],
                    map["docs/a.md" := Rec(HarnessOwned, Some(Sha("shipped")), None, None)]);
      var done := PassA(w, Job([Entry("docs/a.md", Seed, "new")], ["docs/a.md"], [], env));
      Mismatched(Landed(done), Payload(run, env.version, Owned(done.records))) == {"docs/a.md"}
  {
    var w := Work(map["docs/a.md" := "mine"], map[], map[],
                  map["docs/a.md" := Rec(HarnessOwned, Some(Sha("shipped")), None, None)]);
    var entries := [Entry("docs/a.md", Seed, "new")];
    var job := Job(entries, ["docs/a.md"], [], env);
    PlannedGap(w, job, run);
    assert entries[0] in entries && CurrentPaths(entries) == {"docs/a.md"};
    assert "mine" != "shipped";
    assert "docs/a.md" != ROOMODES;
    hide PassA;
    assert AllLeaveAlone(w, entries, env.version, "docs/a.md") && !OwnedBy(entries, "docs/a.md");
    assert KeptHashes(w, job) == {"docs/a.md"};
  }

  // ------------------------------------------------------------- upgrading once more

  ghost predicate DistinctPaths(entries: seq<Entry>) {
    forall i, j :: 0 <= i < j < |entries| ==> entries[i].path != entries[j].path
  }

  /** A managed-append entry the planner accepts: good names, no marker line in the payload, not a converted file. */
  ghost predicate GoodBlock(w: Work, e: Entry, version: string) {
    && AppendBlock.Admissible(AppendBlock.Update(e.source, version), e.path)
    && (e.path in w.records ==> w.records[e.path].policy != Managed)
    && e.path != ROOMODES
  }

  /** An entry with nothing left to do. */
  ghost predicate Settled(w: Work, e: Entry, version: string) {
    && (e.policy == HarnessOwned ==> e.path in w.target && !Modified(w, e.path) && SourceUnchanged(w, e))
    && (e.policy == ManagedAppend ==> PlanOf(w, e, version).updated == None)
  }

  /** An entry just dealt with: settled once the staged files have landed. */
  ghost predicate Handled(w: Work, e: Entry, version: string) {
    && (e.policy == HarnessOwned ==>
          && e.path in w.records && w.records[e.path].source == Some(Sha(e.source))
          && w.records[e.path].sha == HashAt(Landed(w), e.path) && e.path in Landed(w))
    && (e.policy == ManagedAppend ==> e.path !in w.staged && PlanOf(w, e, version).updated == None)
  }

  lemma BlockIsHandled(w: Work, e: Entry, env: Env)
    requires e.policy == ManagedAppend && GoodBlock(w, e, env.version) && e.path !in w.staged
    ensures Handled(StepEntry(w, e, env), e, env.version)
  {
    var m := AppendBlock.Managed(At(w.target, e.path), BlockInfo(w.records, e.path));
    var plan := PlanOf(w, e, env.version);
    if plan.conflict {
      ConflictPlansNothing(m.file, e.source, env.version, e.path, m.info);
      hide AppendBlock.PlanFor;
    } else {
      AppendBlock.ReplanIsNoop(m, e.source, env.version, e.path);
      var m' := AppendBlock.Updated(m, e.source, env.version, e.path);
      PlanNeedsAFile(m.file, e.source, env.version, e.path, m.info);
      hide AppendBlock.PlanFor;
      var w' := StepEntry(w, e, env);
      assert m'.file.Some? && At(w'.target, e.path) == m'.file;
      assert BlockInfo(w'.records, e.path) == m'.info;
    }
  }

  lemma ConflictPlansNothing(file: Option<string>, source: string, version: string, path: string,
                             info: Option<AppendBlock.Info>)
    ensures
      var plan := AppendBlock.PlanFor(file, source, version, path, info);
      plan.conflict ==> plan.updated == None
  {
    hide AppendBlock.Parse, AppendBlock.Render;
  }

  lemma PlanNeedsAFile(file: Option<string>, source: string, version: string, path: string, info: Option<AppendBlock.Info>)
    ensures
      var plan := AppendBlock.PlanFor(file, source, version, path, info);
      file.None? ==> plan.updated.Some?
  {
    hide AppendBlock.Parse, AppendBlock.Render;
  }

  lemma FileIsHandled(w: Work, e: Entry, env: Env)
    requires e.policy == HarnessOwned && e.path !in w.staged
    ensures Handled(StepEntry(w, e, env), e, env.version)
  {
    hide AppendBlock.PlanFor;
  }

  lemma OtherEntry(w: Work, e: Entry, f: Entry, env: Env)
    requires e.path != f.path && Handled(w, e, env.version)
    ensures Handled(StepEntry(w, f, env), e, env.version)
  {
    hide AppendBlock.PlanFor;
    var w' := StepEntry(w, f, env);
    assert At(w'.target, e.path) == At(w.target, e.path) && At(w'.records, e.path) == At(w.records, e.path);
    assert At(w'.staged, e.path) == At(w.staged, e.path);
  }

  lemma {:induction false} EntriesAreHandled(w: Work, entries: seq<Entry>, env: Env, i: nat)
    requires DistinctPaths(entries) && i < |entries| && w.staged == map[]
    requires forall e :: e in entries && e.policy == ManagedAppend ==> GoodBlock(w, e, env.version)
    ensures Handled(StageEntries(w, entries, env), entries[i], env.version)
  {
    var front, last := entries[..|entries| - 1], entries[|entries| - 1];
    var e := entries[i];
    assert e in entries && last in entries;
    hide StepEntry, Handled, GoodBlock;
    if i < |front| {
      assert front[i] == e;
      EntriesAreHandled(w, front, env, i);
      OtherEntry(StageEntries(w, front, env), e, last, env);
    } else {
      NotYet(entries);
      UntouchedRecord(w, front, env, e.path);
      var before := StageEntries(w, front, env);
      if e.policy == HarnessOwned {
        FileIsHandled(before, e, env);
      } else if e.policy == ManagedAppend {
        StillGood(w, before, e, env.version);
        BlockIsHandled(before, e, env);
      } else {
        NothingToHandle(StageEntries(w, entries, env), e, env.version);
      }
    }
  }

  lemma NothingToHandle(w: Work, e: Entry, version: string)
    requires e.policy != HarnessOwned && e.policy != ManagedAppend
    ensures Handled(w, e, version)
  {
  }

  lemma StillGood(w: Work, w': Work, e: Entry, version: string)
    requires GoodBlock(w, e, version) && At(w'.records, e.path) == At(w.records, e.path)
    ensures GoodBlock(w', e, version)
  {
  }

  lemma NotYet(entries: seq<Entry>)
    requires DistinctPaths(entries) && entries != []
    ensures entries[|entries| - 1].path !in CurrentPaths(entries[..|entries| - 1])
  {
    var front := entries[..|entries| - 1];
    forall f | f in front ensures f.path != entries[|entries| - 1].path {
      var k :| 0 <= k < |front| && front[k] == f;
      assert entries[k] == f;
    }
  }

  /** The work a later upgrade starts from: files landed, `.roomodes` regenerated and its hash patched. */
  function AfterLanding(done: Work, sync: Bytes -> Bytes): Work {
    var target := Synced(Landed(done), sync);
    Work(target, done.conflicts, map[],
         if ROOMODES in target && ROOMODES in done.records
         then done.records[ROOMODES := done.records[ROOMODES].(sha := Some(Sha(target[ROOMODES])))]
         else done.records)
  }

  lemma HandledIsSettled(w: Work, e: Entry, version: string, sync: Bytes -> Bytes)
    requires Handled(w, e, version) && (e.policy == ManagedAppend ==> e.path != ROOMODES)
    ensures Settled(AfterLanding(w, sync), e, version)
  {
    hide AppendBlock.PlanFor;
    var w' := AfterLanding(w, sync);
    if e.policy == ManagedAppend {
      assert At(w'.target, e.path) == At(w.target, e.path) && At(w'.records, e.path) == At(w.records, e.path);
    }
  }

  /** After the rest of the first phase an entry is as it was after staging. */
  lemma RestLeavesEntry(w: Work, job: Job, i: nat)
    requires DistinctPaths(job.entries) && i < |job.entries| && (job.entries[i].path, Delete) !in job.graves
    requires job.entries[i].policy in {HarnessOwned, ManagedAppend}
    requires Handled(StageEntries(w, job.entries, job.env), job.entries[i], job.env.version)
    ensures Handled(PassA(w, job), job.entries[i], job.env.version)
  {
    var e := job.entries[i];
    var current := CurrentPaths(job.entries);
    var staged := StageEntries(w, job.entries, job.env);
    var retired := RetireAll(staged, job.recorded, current);
    var buried := BuryAll(retired, job.graves, current);
    assert e in job.entries && e.path in current;
    RetiredElsewhere(staged, job.recorded, current, e.path);
    Buried(retired, job.graves, current, e.path);
    NormalizeKeepsFiles(buried, job.entries);
    forall f | f in job.entries && f.policy == ProjectOwned ensures f.path != e.path {
      var k :| 0 <= k < |job.entries| && job.entries[k] == f;
    }
    hide AppendBlock.PlanFor, StageEntries, RetireAll, BuryAll, NormalizeOwned;
    SameAt(staged, PassA(w, job), e, job.env.version);
  }

  lemma SameAt(w: Work, w': Work, e: Entry, version: string)
    requires At(w'.target, e.path) == At(w.target, e.path) && At(w'.records, e.path) == At(w.records, e.path)
    requires w'.staged == w.staged && Handled(w, e, version)
    ensures Handled(w', e, version)
  {
    hide AppendBlock.PlanFor;
  }

  lemma SettledAt(w: Work, w': Work, e: Entry, version: string)
    requires At(w'.target, e.path) == At(w.target, e.path) && At(w'.records, e.path) == At(w.records, e.path)
    requires Settled(w, e, version)
    ensures Settled(w', e, version)
  {
    hide AppendBlock.PlanFor;
  }

  lemma SettledStep(w: Work, e: Entry, env: Env)
    requires !env.force && Settled(w, e, env.version)
    ensures StepEntry(w, e, env).target == w.target
    ensures e.policy == HarnessOwned ==> StepEntry(w, e, env).staged == w.staged
    ensures forall p :: p != e.path ==> (p in StepEntry(w, e, env).staged <==> p in w.staged)
  {
    hide AppendBlock.PlanFor;
  }

  /** Staging settled entries stages no harness-owned file and changes no file in place. */
  lemma {:induction false} SettledStagesNothing(w: Work, entries: seq<Entry>, env: Env)
    requires DistinctPaths(entries) && w.staged == map[] && !env.force
    requires forall e :: e in entries ==> Settled(w, e, env.version)
    ensures StageEntries(w, entries, env).target == w.target
    ensures forall e :: e in entries && e.policy == HarnessOwned ==> e.path !in StageEntries(w, entries, env).staged
  {
    if entries != [] {
      var front, last := entries[..|entries| - 1], entries[|entries| - 1];
      hide StepEntry, Settled;
      assert last in entries && entries == front + [last];
      SettledStagesNothing(w, front, env);
      NotYet(entries);
      UntouchedRecord(w, front, env, last.path);
      var before := StageEntries(w, front, env);
      SettledAt(w, before, last, env.version);
      SettledStep(before, last, env);
      forall e | e in front ensures e.path != last.path {
        var k :| 0 <= k < |front| && front[k] == e;
        assert entries[k] == e;
      }
    }
  }

  /** A second upgrade from the same source with no edits in between, whatever the first one found: it stages no
      harness-owned file and rewrites no managed block. */
  lemma SecondUpgradeIsQuiet(w: Work, job: Job, sync: Bytes -> Bytes, again: Env)
    requires DistinctPaths(job.entries) && w.staged == map[]
    requires forall e :: e in job.entries && e.policy == ManagedAppend ==> GoodBlock(w, e, job.env.version)
    requires forall e :: e in job.entries ==> (e.path, Delete) !in job.graves
    requires !again.force && again.version == job.env.version
    ensures
      var w2 := AfterLanding(PassA(w, job), sync);
      var staged := StageEntries(w2, job.entries, again);
      && staged.target == w2.target
      && forall e :: e in job.entries && e.policy == HarnessOwned ==> e.path !in staged.staged
  {
    var w2 := AfterLanding(PassA(w, job), sync);
    forall e | e in job.entries ensures Settled(w2, e, again.version) {
      var i :| 0 <= i < |job.entries| && job.entries[i] == e;
      if e.policy in {HarnessOwned, ManagedAppend} {
        EntriesAreHandled(w, job.entries, job.env, i);
        RestLeavesEntry(w, job, i);
        HandledIsSettled(PassA(w, job), e, job.env.version, sync);
      }
    }
    hide PassA, Settled;
    SettledStagesNothing(w2, job.entries, again);
  }
}
