/** The installer and its recovery, as programs over the disk of `InstallDisk`. A crash is a stop after any operation:
    `Restart` picks up the disk from any point of an earlier history. */
module InstallRuns {
  import opened Prelude
  import opened InstallDisk

  datatype Policy = HarnessOwned | Managed | ManagedAppend | ProjectOwned | Seed | Exclude

  datatype Entry = Entry(path: Path, policy: Policy, source: Bytes)

  /** Which file operations fail this time. */
  datatype Faults = Faults(renames: set<Path>, marker: bool, finalize: bool, quarantine: bool)

  const NO_FAULTS := Faults({}, false, false, false)

  datatype BatchResult = BatchResult(completed: set<Path>, failed: Option<Path>, aborted: bool)

  datatype InstallOutcome = Refused | InstallFailed | Installed

  datatype RecoveryAction = Finalized | RolledBack | Resumed | Quarantined | Noop

  /** What the directory scan and the clock tell a recovery: the order files are listed in, the backup found for a
      path, the time stamp, and whether the marker goes first when a tree is removed. */
  datatype Env = Env(listing: seq<Path>, backups: map<Path, Bytes>, stamp: string, markerFirst: bool)

  predicate Lists(listing: seq<Path>, d: Disk) {
    forall p :: p in Staged(d) ==> p in listing
  }

  function SafeName(rel: Path): Path {
    seq(|rel|, i requires 0 <= i < |rel| => if rel[i] == '/' || rel[i] == '\\' then '_' else rel[i])
  }

  /** Entries that keep `init` from overwriting what is there. */
  predicate Existing(entries: seq<Entry>, target: map<Path, Bytes>) {
    exists e :: e in entries && e.policy in {HarnessOwned, Managed} && e.path in target
  }

  /** The staged file of a path: the source of the last harness-owned entry for it. */
  function StagedBy(entries: seq<Entry>): map<Path, Bytes> {
    if entries == [] then map[]
    else
      var last := entries[|entries| - 1];
      var rest := StagedBy(entries[..|entries| - 1]);
      if last.policy == HarnessOwned then rest[last.path := last.source] else rest
  }

  function HashAll(files: map<Path, Bytes>): map<Path, Digest> {
    map p | p in files :: Sha(files[p])
  }

  /** Paths an install may write. */
  predicate MayWrite(entries: seq<Entry>, installed: map<Path, Bytes>, p: Path) {
    p == ROOMODES
    || exists e :: e in entries && e.path == p && e.policy != Exclude
                   && (e.policy in {ProjectOwned, Seed} ==> p !in installed)
  }

  function Synced(files: map<Path, Bytes>, sync: Bytes -> Bytes): map<Path, Bytes> {
    if ROOMODES in files then files[ROOMODES := sync(files[ROOMODES])] else files
  }

  function Rehashed(m: Payload, files: map<Path, Bytes>): Payload {
    if ROOMODES in files && ROOMODES in m.owned then m.(owned := m.owned[ROOMODES := Sha(files[ROOMODES])]) else m
  }

  lemma {:induction false} StagedMayBeWritten(entries: seq<Entry>, before: map<Path, Bytes>)
    ensures forall p :: p in StagedBy(entries) ==> MayWrite(entries, before, p)
  {
    if entries != [] {
      var last := entries[|entries| - 1];
      var front := entries[..|entries| - 1];
      StagedMayBeWritten(front, before);
      forall p | p in StagedBy(entries) ensures MayWrite(entries, before, p) {
        if last.policy == HarnessOwned && p == last.path {
          assert last in entries;
        } else {
          assert MayWrite(front, before, p);
          assert forall e :: e in front ==> e in entries;
        }
      }
    }
  }

  /** What `managed-append` makes of the text of a file, if there is one. */
  type Append = (Path, Bytes, Option<Bytes>) -> Bytes

  /** No other entry has the path of the `i`-th. */
  ghost predicate Sole(entries: seq<Entry>, i: nat)
    requires i < |entries|
  {
    forall j :: 0 <= j < |entries| && entries[j].path == entries[i].path ==> j == i
  }

  /** What an install writes in place for one entry, given what is there: a block into a managed-append file, a project's
      file or a seed only where there is none, a managed file always. */
  function Placed(e: Entry, was: Option<Bytes>, append: Append): Option<Bytes> {
    match e.policy
    case ManagedAppend => Some(append(e.path, e.source, was))
    case ProjectOwned | Seed => if was.Some? then was else Some(e.source)
    case Managed => Some(e.source)
    case HarnessOwned | Exclude => was
  }

  /** Of the first `n` entries each with a path of its own is in place, and paths of none of them are as before. */
  ghost predicate PlacedSoFar(entries: seq<Entry>, n: nat, before: map<Path, Bytes>, now: map<Path, Bytes>, append: Append)
    requires n <= |entries|
  {
    && (forall i :: 0 <= i < n && Sole(entries, i) ==>
          At(now, entries[i].path) == Placed(entries[i], At(before, entries[i].path), append))
    && (forall p :: (forall i :: 0 <= i < n ==> entries[i].path != p) ==> At(now, p) == At(before, p))
  }

  /** Every entry with a path of its own has what it ships in place: its source, and for the policies that keep a file
      what they keep. `.roomodes` is regenerated afterwards. */
  ghost predicate AllInPlace(entries: seq<Entry>, before: map<Path, Bytes>, now: map<Path, Bytes>, append: Append) {
    forall i :: 0 <= i < |entries| && Sole(entries, i) && entries[i].path != ROOMODES ==>
      At(now, entries[i].path)
      == if entries[i].policy == HarnessOwned then Some(entries[i].source)
         else Placed(entries[i], At(before, entries[i].path), append)
  }

  lemma EntriesInPlace(entries: seq<Entry>, before: map<Path, Bytes>, d: Disk, append: Append, sync: Bytes -> Bytes)
    requires PlacedSoFar(entries, |entries|, before, d.target, append) && Staged(d) == StagedBy(entries)
    ensures AllInPlace(entries, before, Synced(Overlay(d), sync), append)
  {
    forall i | 0 <= i < |entries| && Sole(entries, i) && entries[i].path != ROOMODES
      ensures At(Synced(Overlay(d), sync), entries[i].path)
           == if entries[i].policy == HarnessOwned then Some(entries[i].source)
              else Placed(entries[i], At(before, entries[i].path), append)
    {
      StagedSource(entries, i);
      assert At(Synced(Overlay(d), sync), entries[i].path) == At(Overlay(d), entries[i].path);
    }
  }

  /** The path has a block to put in. */
  ghost predicate Blocked(entries: seq<Entry>, p: Path) {
    exists e :: e in entries && e.path == p && e.policy == ManagedAppend
  }

  /** Where `init` is not refused, it may write over a file that is there only to put a block in. */
  lemma NothingOverwritten(entries: seq<Entry>, target: map<Path, Bytes>)
    requires !Existing(entries, target)
    ensures forall p :: p in target && p != ROOMODES ==> (MayWrite(entries, target, p) <==> Blocked(entries, p))
    ensures forall p :: p in StagedBy(entries) ==> p !in target
  {
    StagedMeansOwned(entries);
  }

  lemma {:induction false} StagedMeansOwned(entries: seq<Entry>)
    ensures forall p :: p in StagedBy(entries) ==> exists e :: e in entries && e.path == p && e.policy == HarnessOwned
  {
    if entries != [] {
      var front, last := entries[..|entries| - 1], entries[|entries| - 1];
      StagedMeansOwned(front);
      assert last in entries && forall e :: e in front ==> e in entries;
      forall p | p in StagedBy(entries) ensures exists e :: e in entries && e.path == p && e.policy == HarnessOwned {
        if p in StagedBy(front) {
          var e :| e in front && e.path == p && e.policy == HarnessOwned;
          assert e in entries;
        } else {
          assert last.path == p && last.policy == HarnessOwned;
        }
      }
    }
  }

  lemma FilesStay(entries: seq<Entry>, before: map<Path, Bytes>, prepared: Disk, after: Disk)
    requires OnlyStagedChanged(prepared, after) && Staged(prepared) == StagedBy(entries)
    requires forall p :: p in StagedBy(entries) ==> p !in before
    requires forall p :: p in before && p != ROOMODES ==> (MayWrite(entries, before, p) <==> Blocked(entries, p))
    requires forall p :: p in before && !MayWrite(entries, before, p) ==>
               p in prepared.target && prepared.target[p] == before[p]
    ensures forall p :: p in before && p != ROOMODES && !Blocked(entries, p) ==> p in after.target && after.target[p] == before[p]
    ensures forall p :: p in before && !MayWrite(entries, before, p) ==> p in after.target && after.target[p] == before[p]
  {
    ModesMayBeWritten(entries, before);
    hide MayWrite, Blocked;
  }

  /** What is recorded is in place: each staged path with its bytes, `.roomodes` with the bytes it was given. */
  lemma RecordedInPlace(staged: map<Path, Bytes>, overlay: map<Path, Bytes>, m: Payload, sync: Bytes -> Bytes,
                        now: map<Path, Bytes>)
    requires m.owned == HashAll(staged) && now == Synced(overlay, sync)
    requires forall p :: p in staged ==> p in overlay && overlay[p] == staged[p]
    ensures Rehashed(m, now).owned.Keys == staged.Keys && Rehashed(m, now).run == m.run && Rehashed(m, now).version == m.version
    ensures forall p :: p in staged ==> Agrees(now, p, Rehashed(m, now).owned[p])
    ensures forall p :: p in staged && p != ROOMODES ==> now[p] == staged[p]
  {
  }

  lemma OverlayHolds(d: Disk)
    ensures forall p :: p in Staged(d) ==> p in Overlay(d) && Overlay(d)[p] == Staged(d)[p]
  {
  }

  lemma ModesMayBeWritten(entries: seq<Entry>, before: map<Path, Bytes>)
    ensures MayWrite(entries, before, ROOMODES)
  {
  }

  lemma NothingPlaced(entries: seq<Entry>, files: map<Path, Bytes>, append: Append)
    ensures PlacedSoFar(entries, 0, files, files, append)
  {
  }

  /** Placing an entry removes no file and changes none that an install may not write. */
  lemma AllowedStays(entries: seq<Entry>, e: Entry, before: map<Path, Bytes>, was: map<Path, Bytes>, now: map<Path, Bytes>,
                     append: Append)
    requires e in entries && before.Keys <= was.Keys
    requires forall p :: At(now, p) == if p == e.path then Placed(e, At(was, p), append) else At(was, p)
    requires forall p :: p in before && !MayWrite(entries, before, p) ==> p in was && was[p] == before[p]
    ensures before.Keys <= now.Keys
    ensures forall p :: p in before && !MayWrite(entries, before, p) ==> p in now && now[p] == before[p]
  {
    forall p | p in was ensures p in now && (p != e.path ==> now[p] == was[p]) {
      assert At(now, p).Some?;
    }
    forall p | p in before && !MayWrite(entries, before, p) ensures p in now && now[p] == before[p] {
      assert p in was;
      assert At(now, p) == At(was, p);
    }
  }

  lemma PlacedOne(entries: seq<Entry>, n: nat, before: map<Path, Bytes>, was: map<Path, Bytes>, now: map<Path, Bytes>,
                  append: Append)
    requires n < |entries| && PlacedSoFar(entries, n, before, was, append)
    requires forall p :: At(now, p) == if p == entries[n].path then Placed(entries[n], At(was, p), append) else At(was, p)
    ensures PlacedSoFar(entries, n + 1, before, now, append)
  {
    hide Placed;
    forall i | 0 <= i < n + 1 && Sole(entries, i)
      ensures At(now, entries[i].path) == Placed(entries[i], At(before, entries[i].path), append)
    {
      if i == n {
        assert forall j :: 0 <= j < n ==> entries[j].path != entries[n].path;
      } else {
        assert entries[i].path != entries[n].path;
      }
    }
  }

  lemma {:induction false} StagedSource(entries: seq<Entry>, i: nat)
    requires i < |entries| && Sole(entries, i)
    ensures At(StagedBy(entries), entries[i].path) == if entries[i].policy == HarnessOwned then Some(entries[i].source) else None
  {
    var front := entries[..|entries| - 1];
    if i < |front| {
      assert forall j :: 0 <= j < |front| ==> front[j] == entries[j];
      StagedSource(front, i);
      assert entries[|entries| - 1].path != entries[i].path;
    } else {
      OnlyStagedPaths(front, entries[i].path);
    }
  }

  lemma {:induction false} OnlyStagedPaths(entries: seq<Entry>, p: Path)
    requires forall j :: 0 <= j < |entries| ==> entries[j].path != p
    ensures p !in StagedBy(entries)
  {
    if entries != [] {
      OnlyStagedPaths(entries[..|entries| - 1], p);
    }
  }

  lemma HashAllMatches(d: Disk, m: Payload)
    requires m.owned == HashAll(Staged(d))
    ensures Mismatched(Overlay(d), m) == {}
  {
  }

  /** Nothing but staged paths and `.roomodes` has other bytes, and the conflicts are the same. */
  ghost predicate OnlyStagedChanged(before: Disk, after: Disk) {
    && after.conflicts == before.conflicts
    && forall p :: p !in Staged(before) && p != ROOMODES ==>
         && (p in after.target <==> p in before.target)
         && (p in after.target ==> after.target[p] == before.target[p])
  }

  /** A batch moves bytes from staging into the target and changes none. */
  lemma BatchTouchesStaged(before: Disk, after: Disk)
    requires Overlay(after) == Overlay(before) && Staged(after).Keys <= Staged(before).Keys
    requires after.conflicts == before.conflicts
    ensures OnlyStagedChanged(before, after)
  {
    forall p | p !in Staged(before) && p != ROOMODES
      ensures p in after.target <==> p in before.target
      ensures p in after.target ==> after.target[p] == before.target[p]
    {
      assert p in Overlay(after) <==> p in after.target;
      assert p in Overlay(before) <==> p in before.target;
      if p in after.target {
        assert Overlay(after)[p] == after.target[p] && Overlay(before)[p] == before.target[p];
      }
    }
  }

  predicate Clean(d: Disk) {
    d.pending.None? && d.staging.None? && d.journal.None? && !d.sentinel && !d.aborted
  }

  predicate Resumable(d: Disk) {
    d.pending.Some? && !d.aborted && !d.sentinel && d.journal.Some? && d.staging.Some?
  }

  predicate Orphan(d: Disk) {
    d.pending.Some? && !d.aborted && !d.sentinel && !(d.journal.Some? && d.staging.Some?)
  }

  /** A recovery can complete the install. */
  predicate Finishable(d: Disk) {
    d.pending.Some? && !d.aborted && (d.sentinel || (d.journal.Some? && d.staging.Some?))
  }

  lemma NoMarkerWithoutTree(plan: Plan, d: Disk)
    requires Inv(plan, d)
    ensures d.staging.None? ==> !d.aborted
  {
  }

  lemma SentinelMeansInstalled(plan: Plan, d: Disk)
    requires Inv(plan, d)
    ensures d.sentinel ==> Overlay(d) == d.target
  {
  }

  lemma FileGone(listing: seq<Path>, i: nat, now: map<Path, Bytes>)
    requires i < |listing| && Through(listing, i, now)
    ensures Through(listing, i + 1, now - {listing[i]})
  {
    OneFurther(now, now, {}, NO_FAULTS, listing, i);
  }

  /** What has left staging was completed, and its rename did not fail. */
  ghost predicate Moved(before: map<Path, Bytes>, now: map<Path, Bytes>, completed: set<Path>, faults: Faults) {
    && now.Keys <= before.Keys
    && forall p :: p in before && p !in now ==> p in completed && p !in faults.renames
  }

  /** The first `i` listed files have left staging. */
  ghost predicate Through(listing: seq<Path>, i: nat, now: map<Path, Bytes>)
    requires i <= |listing|
  {
    forall p :: p in now && p in listing ==> p in listing[i..]
  }

  lemma StartMoving(before: map<Path, Bytes>, completed: set<Path>, faults: Faults, listing: seq<Path>)
    ensures Moved(before, before, completed, faults) && Through(listing, 0, before)
  {
    assert listing[0..] == listing;
  }

  /** Going past a file that is no longer in staging. */
  lemma OneFurther(before: map<Path, Bytes>, now: map<Path, Bytes>, completed: set<Path>, faults: Faults,
                   listing: seq<Path>, i: nat)
    requires i < |listing| && Moved(before, now, completed, faults) && Through(listing, i, now)
    ensures listing[i] in now ==> listing[i] in before
    ensures listing[i] !in now ==> Through(listing, i + 1, now) && Moved(before, now, completed + {listing[i]}, faults)
    ensures Through(listing, i + 1, now - {listing[i]})
  {
    forall p | p in listing[i..] ensures p == listing[i] || p in listing[i + 1..] {
      assert listing[i..] == [listing[i]] + listing[i + 1..];
    }
  }

  lemma MovedOne(before: map<Path, Bytes>, now: map<Path, Bytes>, completed: set<Path>, faults: Faults, rel: Path)
    requires Moved(before, now, completed, faults) && rel !in faults.renames
    ensures Moved(before, now - {rel}, completed + {rel}, faults)
  {
  }

  lemma MovedIsLess(before: map<Path, Bytes>, now: map<Path, Bytes>, completed: set<Path>, faults: Faults)
    requires Moved(before, now, completed, faults)
    ensures now.Keys <= before.Keys
  {
  }

  lemma AllMoved(before: Disk, now: Disk, completed: set<Path>, faults: Faults, listing: seq<Path>)
    requires Moved(Staged(before), Staged(now), completed, faults) && Through(listing, |listing|, Staged(now))
    requires Lists(listing, before) && Overlay(now) == Overlay(before)
    ensures Staged(now) == map[] && now.target == Overlay(before)
    ensures Staged(before).Keys <= completed && Staged(before).Keys !! faults.renames
  {
    assert forall p :: p in Staged(now) ==> p in Staged(before) && p in listing;
    assert listing[|listing|..] == [];
    assert Staged(now) == map[];
  }

  function At<V>(m: map<Path, V>, p: Path): Option<V> {
    if p in m then Some(m[p]) else None
  }

  /** What a rollback puts at a path that a completed rename installed: its backup; nothing, when there is none to put
      back; or what is there, when neither can be done. */
  function UndoneAt(files: map<Path, Bytes>, p: Path, backups: map<Path, Bytes>, faults: Faults): Option<Bytes> {
    if p !in files then None
    else if p in backups && p !in faults.renames then Some(backups[p])
    else if !faults.quarantine then None
    else Some(files[p])
  }

  /** `done` are the paths undone so far; the others have the bytes they had. */
  ghost predicate UndoneTo(before: map<Path, Bytes>, now: map<Path, Bytes>, done: set<Path>, backups: map<Path, Bytes>,
                           faults: Faults) {
    forall p :: At(now, p) == if p in done then UndoneAt(before, p, backups, faults) else At(before, p)
  }

  lemma UndidOne(before: map<Path, Bytes>, was: map<Path, Bytes>, now: map<Path, Bytes>, done: set<Path>, rel: Path,
                 backups: map<Path, Bytes>, faults: Faults)
    requires UndoneTo(before, was, done, backups, faults)
    requires now - {rel} == was - {rel} && At(now, rel) == UndoneAt(was, rel, backups, faults)
    ensures UndoneTo(before, now, done + {rel}, backups, faults)
  {
    forall p | p != rel ensures At(now, p) == At(was, p) {
      assert p in now <==> p in now - {rel};
      assert p in was <==> p in was - {rel};
      if p in now {
        assert (now - {rel})[p] == now[p] && (was - {rel})[p] == was[p];
      }
    }
  }

  lemma CompletedSoFar(rows: seq<Record>, i: nat)
    requires i < |rows|
    ensures Completed(rows[..i + 1]) == Completed(rows[..i]) + if rows[i].Done? then {rows[i].path} else {}
  {
    assert rows[..i + 1] == rows[..i] + [rows[i]];
  }

  lemma NothingUndone(files: map<Path, Bytes>, backups: map<Path, Bytes>, faults: Faults)
    ensures UndoneTo(files, files, Completed([]), backups, faults)
    ensures forall conflicts, stamp :: SetAsideIn(files, files, conflicts, Completed([]), stamp)
  {
  }

  function ConflictName(p: Path, stamp: string): Path {
    SafeName(p) + "." + stamp
  }

  /** Only paths that differ in nothing but their separators share a name in the conflicts; and such paths do. */
  lemma ConflictNamesApart(p: Path, q: Path, stamp: string)
    ensures ConflictName(p, stamp) == ConflictName(q, stamp) <==> SafeName(p) == SafeName(q)
    ensures ConflictName("docs/a.md", stamp) == ConflictName("docs_a.md", stamp)
  {
    if ConflictName(p, stamp) == ConflictName(q, stamp) {
      assert SafeName(p) == ConflictName(p, stamp)[..|SafeName(p)|];
      assert SafeName(q) == ConflictName(q, stamp)[..|SafeName(q)|];
    }
    assert SafeName("docs/a.md") == SafeName("docs_a.md");
  }

  /** No other of these paths has its name. */
  ghost predicate Alone(p: Path, done: set<Path>) {
    forall q :: q in done && SafeName(q) == SafeName(p) ==> q == p
  }

  /** The bytes moved out of the target are in the conflicts, those of paths whose names are their own. */
  ghost predicate SetAsideIn(before: map<Path, Bytes>, now: map<Path, Bytes>, conflicts: map<Path, Bytes>, done: set<Path>,
                             stamp: string) {
    forall p :: p in done && p in before && p !in now && Alone(p, done) ==> At(conflicts, ConflictName(p, stamp)) == Some(before[p])
  }

  lemma SetOneAside(before: map<Path, Bytes>, was: map<Path, Bytes>, now: map<Path, Bytes>, conflicts: map<Path, Bytes>,
                    conflicts': map<Path, Bytes>, done: set<Path>, rel: Path, stamp: string, backups: map<Path, Bytes>,
                    faults: Faults)
    requires UndoneTo(before, was, done, backups, faults) && SetAsideIn(before, was, conflicts, done, stamp)
    requires now - {rel} == was - {rel} && At(now, rel) == UndoneAt(was, rel, backups, faults)
    requires conflicts' == if rel in was && rel !in now then conflicts[ConflictName(rel, stamp) := was[rel]] else conflicts
    ensures SetAsideIn(before, now, conflicts', done + {rel}, stamp)
  {
    forall p | p in done + {rel} && p in before && p !in now && Alone(p, done + {rel})
      ensures At(conflicts', ConflictName(p, stamp)) == Some(before[p])
    {
      ConflictNamesApart(p, rel, stamp);
      assert At(was, rel) == if rel in done then UndoneAt(before, rel, backups, faults) else At(before, rel);
      if p != rel {
        assert p in was <==> p in was - {rel};
        assert p in now <==> p in now - {rel};
        assert Alone(p, done);
      } else if rel in done && rel !in was {
        assert Alone(p, done);
      }
    }
  }

  /** The journal's last line is torn, so that the row written next is lost. */
  predicate EndsTorn(rows: seq<Record>) {
    rows != [] && rows[|rows| - 1] == Torn
  }

  function Tears(d: Disk): nat {
    if EndsTorn(Rows(d)) then 1 else 0
  }

  /** Everything that has left staging, but for `slack`, is in the journal. */
  ghost predicate Journalled(before: Disk, d: Disk, slack: set<Path>) {
    Staged(before).Keys - Staged(d).Keys <= Completed(Rows(d)) + slack
  }

  /** At most `n` files have left staging and are not in the journal. */
  ghost predicate Behind(before: Disk, d: Disk, n: nat) {
    exists slack: set<Path> :: |slack| <= n && Journalled(before, d, slack)
  }

  /** The files that may be missing from the journal so far. */
  ghost predicate InStep(before: Disk, d: Disk, lost: set<Path>) {
    Journalled(before, d, lost) && |lost| + Tears(d) <= Tears(before)
  }

  lemma RowCompletes(rows: seq<Record>, row: Record)
    requires row != Torn
    ensures !EndsTorn(AppendRow(rows, row))
    ensures Completed(AppendRow(rows, row)) == Completed(rows) + if row.Done? && !EndsTorn(rows) then {row.path} else {}
  {
    if EndsTorn(rows) {
      assert rows == rows[..|rows| - 1] + [Torn];
    }
  }

  /** Nothing is staged; the journal is still there, or all is cleaned up. */
  predicate Ended(d: Disk, e: Disk) {
    !InBatch(e) || (e.journal == d.journal && Staged(e) == map[])
  }

  /** Any row written keeps step. */
  lemma RowKeepsStep(before: Disk, d: Disk, row: Record, lost: set<Path>)
    requires d.journal.Some? && row != Torn && InStep(before, d, lost)
    ensures InStep(before, d.(journal := Some(AppendRow(Rows(d), row))), lost)
  {
    RowCompletes(Rows(d), row);
  }

  /** A rename is one file behind, and its own row catches up, or is the one that a torn line swallows. */
  lemma MoveKeepsStep(before: Disk, d: Disk, moved: Disk, done: Disk, rel: Path, lost: set<Path>) returns (lost': set<Path>)
    requires InStep(before, d, lost) && rel in Staged(d) && d.journal.Some?
    requires Staged(moved) == Staged(d) - {rel} && moved.journal == d.journal
    requires done == moved.(journal := Some(AppendRow(Rows(moved), Done(rel))))
    ensures Behind(before, moved, Tears(before) + 1)
    ensures InStep(before, done, lost')
  {
    RenameIsOneBehind(before, d, moved, rel, lost);
    RowCatchesUp(before, d, moved, done, rel, lost);
    hide Journalled, Behind, Completed, EndsTorn, Tears, Staged, Rows;
    lost' := if EndsTorn(Rows(d)) then lost + {rel} else lost;
    OneBigger(lost, rel);
    BehindBy(before, moved, Tears(before) + 1, lost + {rel});
  }

  lemma BehindBy(before: Disk, d: Disk, n: nat, slack: set<Path>)
    requires |slack| <= n && Journalled(before, d, slack)
    ensures Behind(before, d, n)
  {
    hide Journalled;
  }

  lemma RowCatchesUp(before: Disk, d: Disk, moved: Disk, done: Disk, rel: Path, lost: set<Path>)
    requires Journalled(before, d, lost) && Staged(moved) == Staged(d) - {rel} && moved.journal == d.journal && d.journal.Some?
    requires done == moved.(journal := Some(AppendRow(Rows(moved), Done(rel))))
    ensures Journalled(before, done, if EndsTorn(Rows(d)) then lost + {rel} else lost)
    ensures Tears(done) == 0 && Tears(d) == (if EndsTorn(Rows(d)) then 1 else 0)
  {
    RowCompletes(Rows(moved), Done(rel));
    hide AppendRow, Completed, EndsTorn;
    assert Staged(done) == Staged(moved) && Rows(done) == AppendRow(Rows(moved), Done(rel)) && Rows(moved) == Rows(d);
  }

  lemma RenameIsOneBehind(before: Disk, d: Disk, moved: Disk, rel: Path, lost: set<Path>)
    requires Journalled(before, d, lost) && Staged(moved) == Staged(d) - {rel} && moved.journal == d.journal
    ensures Journalled(before, moved, lost + {rel})
  {
    assert Rows(moved) == Rows(d);
    hide Completed;
    forall p | p in Staged(before).Keys - Staged(moved).Keys ensures p in Completed(Rows(moved)) + (lost + {rel}) {
      assert p != rel ==> p in Staged(before).Keys - Staged(d).Keys;
    }
  }

  lemma OneBigger(a: set<Path>, p: Path)
    ensures |a + {p}| <= |a| + 1
  {
    if p in a {
      assert a + {p} == a;
    }
  }

  lemma StepIsBehind(before: Disk, d: Disk, lost: set<Path>)
    requires InStep(before, d, lost)
    ensures Behind(before, d, Tears(before)) && Behind(before, d, Tears(before) + 1)
  {
  }

  ghost predicate KeepsUp(before: Disk, states: seq<Disk>, from: nat) {
    forall i :: from <= i < |states| && InBatch(states[i]) ==> Behind(before, states[i], Tears(before) + 1)
  }

  lemma NothingMoved(before: Disk, d: Disk)
    requires Staged(d) == Staged(before) && Rows(d) == Rows(before)
    ensures InStep(before, d, {}) && Behind(before, d, Tears(before) + 1)
  {
    assert Journalled(before, d, {});
  }

  /** The flag set by an abort has no part in this. */
  lemma SameIsBehind(before: Disk, d: Disk, d': Disk)
    requires d' == d.(aborted := true)
    ensures Behind(before, d, Tears(before)) ==> Behind(before, d', Tears(before))
    ensures Behind(before, d, Tears(before) + 1) ==> Behind(before, d', Tears(before) + 1)
  {
    assert forall slack :: Journalled(before, d, slack) ==> Journalled(before, d', slack);
  }

  lemma StartsUp(before: Disk, d: Disk, states: seq<Disk>, from: nat)
    requires from <= |states| <= from + 1 && (|states| == from + 1 ==> states[from] == d)
    requires Behind(before, d, Tears(before) + 1)
    ensures KeepsUp(before, states, from)
  {
    hide Behind;
  }

  lemma GoesUp(before: Disk, past: seq<Disk>, states: seq<Disk>, from: nat)
    requires KeepsUp(before, past, from) && past <= states
    requires forall i :: |past| <= i < |states| ==> Behind(before, states[i], Tears(before) + 1)
    ensures KeepsUp(before, states, from)
  {
  }

  lemma CleansUp(before: Disk, past: seq<Disk>, states: seq<Disk>, from: nat, d: Disk)
    requires KeepsUp(before, past, from) && past <= states
    requires Behind(before, d, Tears(before) + 1) && Staged(d) == map[]
    requires forall i :: |past| <= i < |states| ==> Ended(d, states[i])
    ensures KeepsUp(before, states, from)
  {
    hide Behind;
    forall i | |past| <= i < |states| && InBatch(states[i]) ensures Behind(before, states[i], Tears(before) + 1) {
      AllMovedIsBehind(before, d, states[i], Tears(before) + 1);
    }
  }

  lemma UpThroughout(before: Disk, states: seq<Disk>, from: nat)
    requires KeepsUp(before, states, from)
    ensures forall i :: from <= i < |states| && InBatch(states[i]) ==> Behind(before, states[i], Tears(before) + 1)
  {
  }

  lemma AllMovedIsBehind(before: Disk, d: Disk, e: Disk, n: nat)
    requires Behind(before, d, n) && e.journal == d.journal && Staged(e) == map[] && Staged(d) == map[]
    ensures Behind(before, e, n)
  {
    var slack :| |slack| <= n && Journalled(before, d, slack);
    assert Journalled(before, e, slack);
  }

  /** What is still staged is as it was, and so is the target there. */
  ghost predicate StillStaged(before: Disk, d: Disk) {
    forall p :: p in Staged(d) ==> At(Staged(before), p) == Some(Staged(d)[p]) && At(d.target, p) == At(before.target, p)
  }

  lemma StillStagedAfter(before: Disk, d: Disk, d': Disk, rel: Path)
    requires StillStaged(before, d) && rel in Staged(d)
    requires Staged(d') == Staged(d) - {rel} && d'.target == d.target[rel := Staged(d)[rel]]
    ensures StillStaged(before, d')
  {
  }

  lemma SameStillStaged(before: Disk, d: Disk, d': Disk)
    requires StillStaged(before, d) && d'.target == d.target && Staged(d') == Staged(d)
    ensures StillStaged(before, d') && Overlay(d') == Overlay(d)
  {
  }

  lemma AllStillStaged(d: Disk)
    ensures StillStaged(d, d)
  {
  }

  /** Only listed files have been added to the journal. */
  ghost predicate OnlyListed(already: set<Path>, d: Disk, listing: seq<Path>) {
    forall p :: p in Completed(Rows(d)) ==> p in already || p in listing
  }

  lemma ListedOnly(already: set<Path>, d: Disk, d': Disk, listing: seq<Path>, rel: Path)
    requires OnlyListed(already, d, listing) && rel in listing && Completed(Rows(d')) <= Completed(Rows(d)) + {rel}
    ensures OnlyListed(already, d', listing)
  {
  }

  lemma FewerListed(already: set<Path>, d: Disk, d': Disk, listing: seq<Path>)
    requires OnlyListed(already, d, listing) && Completed(Rows(d')) <= Completed(Rows(d))
    ensures OnlyListed(already, d', listing)
  {
  }

  lemma NoneListed(d: Disk, d': Disk, listing: seq<Path>)
    requires Rows(d') == Rows(d)
    ensures OnlyListed(Completed(Rows(d)), d', listing)
  {
  }

  /** Not yet cleaned up. */
  predicate InBatch(d: Disk) {
    d.staging.Some? || d.journal.Some?
  }

  class Installation {
    ghost const plan: Plan
    var disk: Disk
    ghost var history: seq<Disk>

    ghost predicate Valid()
      reads this
    {
      && History(plan, history) && Before(plan, history[0])
      && history[|history| - 1] == disk && Inv(plan, disk)
    }

    constructor (ghost plan: Plan, disk: Disk)
      requires Before(plan, disk)
      ensures Valid() && this.plan == plan && this.disk == disk && history == [disk]
    {
      this.plan := plan;
      this.disk := disk;
      history := [disk];
    }

    /** A new process on the disk an earlier one left after any of its operations, a journal line perhaps half
        written. */
    constructor Restart(ghost plan: Plan, ghost h: seq<Disk>, ghost k: nat, disk: Disk, ghost torn: bool)
      requires History(plan, h) && Before(plan, h[0]) && k < |h|
      requires disk == if torn && h[k].journal.Some? then Apply(h[k], TearRow) else h[k]
      ensures Valid() && this.plan == plan && this.disk == disk
      ensures h[..k + 1] <= history
    {
      this.plan := plan;
      this.disk := disk;
      var cut := h[..k + 1];
      history := if torn && h[k].journal.Some? then cut + [disk] else cut;
      HistoryKeepsInv(plan, h, k);
      Prefix(plan, h, k);
      if torn && h[k].journal.Some? {
        StepKeepsInv(plan, h[k], TearRow);
        Extend(plan, cut, TearRow);
      }
    }

    /** At every point of every history of these programs, crashes and restarts included, a published manifest of this
        run is wrong about no path but those it was composed wrong for. */
    lemma NeverPublishedWrong(i: nat)
      requires Valid() && i < |history| && Published(plan, history[i])
      ensures Mismatched(history[i].target, history[i].final.value) == plan.gap
    {
      hide Inv;
      CrashConsistency(plan, history, i);
    }

    /** One file operation. */
    method Do(a: Action)
      requires Valid() && Enabled(plan, disk, a)
      modifies this
      ensures Valid() && disk == Apply(old(disk), a)
      ensures history == old(history) + [disk]
    {
      hide Inv, Enabled, Apply;
      StepKeepsInv(plan, disk, a);
      Extend(plan, history, a);
      disk := Apply(disk, a);
      history := history + [disk];
    }

    method WriteJournalRow(row: Record)
      requires Valid() && disk.journal.Some? && (row.Done? ==> row.path !in Staged(disk))
      modifies this
      ensures Valid() && history == old(history) + [disk]
      ensures disk == old(disk).(journal := Some(AppendRow(old(Rows(disk)), row)))
    {
      hide Inv, History;
      Do(WriteRow(row));
    }

    method RenameStaged(p: Path)
      requires Valid() && p in Staged(disk) && !disk.aborted
      modifies this
      ensures Valid() && history == old(history) + [disk]
      ensures disk == old(disk).(target := disk.target, staging := disk.staging)
      ensures disk.staging.Some? && Staged(disk) == old(Staged(disk)) - {p} && Overlay(disk) == old(Overlay(disk))
      ensures disk.target == old(disk).target[p := old(Staged(disk))[p]]
    {
      hide Inv, History;
      RenameKeepsOverlay(disk, p);
      Do(Rename(p));
    }

    method OpenJournalFile()
      requires Valid()
      modifies this
      ensures Valid() && disk.journal.Some?
      ensures disk == old(disk).(journal := Some(old(Rows(disk))))
      ensures history == if old(disk.journal.Some?) then old(history) else old(history) + [disk]
    {
      hide Inv, History;
      if disk.journal.None? {
        Do(OpenJournal);
      }
    }

    method Abort()
      requires Valid() && Staged(disk) != map[]
      modifies this
      ensures Valid() && history == old(history) + [disk]
      ensures disk == old(disk).(aborted := true)
    {
      hide Inv, History;
      Do(MarkAborted);
    }

    method EndBatch(deferCleanup: bool)
      requires Valid() && disk.staging == Some(map[]) && !disk.aborted
      modifies this
      ensures Valid() && old(history) <= history
      ensures forall i :: old(|history|) <= i < |history| ==> Ended(old(disk), history[i])
      ensures disk == old(disk).(staging := if deferCleanup then Some(map[]) else None,
                                 journal := if deferCleanup then disk.journal else None,
                                 sentinel := old(disk).sentinel || deferCleanup)
      ensures deferCleanup ==> disk.journal == old(disk.journal)
    {
      hide Inv, History;
      if deferCleanup {
        Do(WriteSentinel);
      } else {
        Do(RemoveStagingDir);
        Do(RemoveJournal);
      }
    }

    /** Every state since `begun` keeps up with the renames, and this one but for `lost`. */
    ghost predicate Tracked(before: Disk, begun: nat, lost: set<Path>)
      reads this
    {
      begun <= |history| && disk.journal.Some? && InStep(before, disk, lost) && KeepsUp(before, history, begun)
    }

    /** One rename and its row. */
    method MoveOne(rel: Path, ghost before: Disk, ghost begun: nat, ghost lost: set<Path>) returns (ghost lost': set<Path>)
      requires Valid() && rel in Staged(disk) && !disk.aborted && Tracked(before, begun, lost)
      modifies this
      ensures Valid() && old(history) <= history && Tracked(before, begun, lost')
      ensures disk == old(disk).(target := disk.target, staging := disk.staging, journal := disk.journal)
      ensures disk.staging.Some? && disk.journal.Some?
      ensures Staged(disk) == old(Staged(disk)) - {rel} && Overlay(disk) == old(Overlay(disk))
      ensures Completed(Rows(disk)) <= old(Completed(Rows(disk))) + {rel}
      ensures disk.target == old(disk).target[rel := old(Staged(disk))[rel]]
    {
      hide Inv, History, InStep, Behind, Enabled, Apply, KeepsUp;
      ghost var start, past := disk, history;
      RenameStaged(rel);
      ghost var moved := disk;
      WriteJournalRow(Done(rel));
      RowCompletes(Rows(moved), Done(rel));
      assert Overlay(disk) == Overlay(moved);
      lost' := MoveKeepsStep(before, start, moved, disk, rel, lost);
      StepIsBehind(before, disk, lost');
      GoesUp(before, past, history, begun);
    }

    /** A row that goes with no rename. */
    method Note(row: Record, ghost before: Disk, ghost begun: nat, ghost lost: set<Path>)
      requires Valid() && disk.journal.Some? && row != Torn && (row.Done? ==> row.path !in Staged(disk))
      requires Tracked(before, begun, lost)
      modifies this
      ensures Valid() && old(history) <= history && Tracked(before, begun, lost)
      ensures disk == old(disk).(journal := disk.journal) && disk.journal.Some?
      ensures Completed(Rows(disk)) <= old(Completed(Rows(disk))) + if row.Done? then {row.path} else {}
    {
      hide Inv, History, Behind, InStep, Enabled, Apply, KeepsUp;
      ghost var past := history;
      RowCompletes(Rows(disk), row);
      RowKeepsStep(before, disk, row, lost);
      WriteJournalRow(row);
      StepIsBehind(before, disk, lost);
      GoesUp(before, past, history, begun);
    }

    function IsStaged(rel: Path): bool
      reads this
    {
      rel in Staged(disk)
    }

    /** Past the first `i` listed files. */
    ghost predicate Going(before: Disk, begun: nat, lost: set<Path>, already: set<Path>, listing: seq<Path>, i: nat,
                          completed: set<Path>, faults: Faults)
      requires i <= |listing|
      reads this
    {
      && Tracked(before, begun, lost) && disk.staging.Some? && !disk.aborted
      && disk == before.(target := disk.target, staging := disk.staging, journal := disk.journal)
      && Overlay(disk) == Overlay(before) && StillStaged(before, disk)
      && already == Completed(Rows(before)) && already !! Staged(before).Keys && OnlyListed(already, disk, listing)
      && Moved(Staged(before), Staged(disk), completed, faults) && Through(listing, i, Staged(disk))
    }

    method BeginBatch(ghost before: Disk, already: set<Path>, listing: seq<Path>, faults: Faults)
      requires Valid() && disk == before && disk.staging.Some? && !disk.aborted
      requires already == Completed(Rows(before)) && already !! Staged(before).Keys
      modifies this
      ensures Valid() && old(history) <= history && Going(before, |old(history)|, {}, already, listing, 0, already, faults)
    {
      hide Inv, History, Behind, InStep, Enabled, Apply, KeepsUp, Moved, Through;
      ghost var begun := |history|;
      NothingMoved(before, before.(journal := Some(Rows(before))));
      OpenJournalFile();
      StartsUp(before, disk, history, begun);
      AllStillStaged(before);
      SameStillStaged(before, before, disk);
      NoneListed(before, disk, listing);
      StartMoving(Staged(before), already, faults, listing);
    }

    /** A listed file that is not staged, or no longer; if it is in place it gets a row. */
    method PassOver(ghost before: Disk, ghost begun: nat, ghost lost: set<Path>, already: set<Path>, listing: seq<Path>, i: nat,
                    completed: set<Path>, faults: Faults)
      returns (completed': set<Path>)
      requires Valid() && i < |listing| && Going(before, begun, lost, already, listing, i, completed, faults)
      requires listing[i] in already || listing[i] !in Staged(disk)
      modifies this
      ensures Valid() && old(history) <= history && Going(before, begun, lost, already, listing, i + 1, completed', faults)
    {
      hide Inv, History, Enabled, Apply, Moved, Through, Tracked, StillStaged, OnlyListed, Overlay, Completed;
      var rel := listing[i];
      MovedIsLess(Staged(before), Staged(disk), completed, faults);
      OneFurther(Staged(before), Staged(disk), completed, faults, listing, i);
      completed' := completed;
      if rel !in already && rel in disk.target {
        completed' := completed + {rel};
        ghost var was := disk;
        TrackedHasJournal(before, begun, lost);
        Note(Done(rel), before, begun, lost);
        SameStillStaged(before, was, disk);
        ListedOnly(already, was, disk, listing, rel);
      }
    }

    /** A staged file: its rename and its row. */
    method MoveNext(ghost before: Disk, ghost begun: nat, ghost lost: set<Path>, already: set<Path>, listing: seq<Path>, i: nat,
                    completed: set<Path>, faults: Faults)
      returns (ghost lost': set<Path>)
      requires Valid() && i < |listing| && Going(before, begun, lost, already, listing, i, completed, faults)
      requires listing[i] in Staged(disk) && listing[i] !in faults.renames
      modifies this
      ensures Valid() && old(history) <= history
      ensures Going(before, begun, lost', already, listing, i + 1, completed + {listing[i]}, faults)
    {
      hide Inv, History, Enabled, Apply, Moved, Through, Tracked, StillStaged, OnlyListed, Overlay, Completed;
      var rel := listing[i];
      OneFurther(Staged(before), Staged(disk), completed, faults, listing, i);
      ghost var was := disk;
      TrackedHasJournal(before, begun, lost);
      lost' := MoveOne(rel, before, begun, lost);
      StillStagedAfter(before, was, disk, rel);
      ListedOnly(already, was, disk, listing, rel);
      MovedOne(Staged(before), Staged(was), completed, faults, rel);
    }

    lemma TrackedHasJournal(before: Disk, begun: nat, lost: set<Path>)
      requires Tracked(before, begun, lost)
      ensures disk.journal.Some? && InStep(before, disk, lost) && KeepsUp(before, history, begun)
    {
    }

    /** The first failing rename: its row and, unless that fails too, the abort marker. */
    method StopBatch(ghost before: Disk, ghost begun: nat, ghost lost: set<Path>, already: set<Path>, listing: seq<Path>, i: nat,
                     completed: set<Path>, faults: Faults)
      requires Valid() && i < |listing| && Going(before, begun, lost, already, listing, i, completed, faults)
      requires listing[i] in Staged(disk) && listing[i] in faults.renames
      modifies this
      ensures Valid() && old(history) <= history && Overlay(disk) == Overlay(before) && disk.aborted == !faults.marker
      ensures disk == before.(target := disk.target, staging := disk.staging, journal := disk.journal, aborted := disk.aborted)
      ensures listing[i] in Staged(before) && listing[i] in Staged(disk)
      ensures Staged(disk).Keys <= Staged(before).Keys && StillStaged(before, disk)
      ensures Behind(before, disk, Tears(before)) && OnlyListed(already, disk, listing)
      ensures forall k :: begun <= k < |history| && InBatch(history[k]) ==> Behind(before, history[k], Tears(before) + 1)
    {
      hide Inv, History, Behind, InStep, Enabled, Apply, KeepsUp, Moved, Through, StillStaged, OnlyListed, Overlay, Completed;
      var rel := listing[i];
      ghost var was := disk;
      MovedIsLess(Staged(before), Staged(disk), completed, faults);
      Note(Failed(rel), before, begun, lost);
      SameStillStaged(before, was, disk);
      ListedOnly(already, was, disk, listing, rel);
      StepIsBehind(before, disk, lost);
      if !faults.marker {
        ghost var past, noted := history, disk;
        SameIsBehind(before, disk, disk.(aborted := true));
        Abort();
        GoesUp(before, past, history, begun);
        SameStillStaged(before, noted, disk);
        ListedOnly(already, noted, disk, listing, rel);
      }
      UpThroughout(before, history, begun);
    }

    /** After the last file. */
    method FinishBatch(deferCleanup: bool, ghost before: Disk, ghost begun: nat, ghost lost: set<Path>, already: set<Path>,
                       listing: seq<Path>, completed: set<Path>, faults: Faults)
      requires Valid() && Lists(listing, before)
      requires Going(before, begun, lost, already, listing, |listing|, completed, faults)
      modifies this
      ensures Valid() && old(history) <= history && Overlay(disk) == Overlay(before)
      ensures disk == before.(target := Overlay(before),
                              staging := if deferCleanup then Some(map[]) else None,
                              journal := if deferCleanup then disk.journal else None,
                              sentinel := before.sentinel || deferCleanup)
      ensures Staged(before).Keys <= completed && Staged(before).Keys !! faults.renames
      ensures (deferCleanup ==> Behind(before, disk, Tears(before))) && OnlyListed(already, disk, listing)
      ensures forall k :: begun <= k < |history| && InBatch(history[k]) ==> Behind(before, history[k], Tears(before) + 1)
    {
      hide Inv, History, Behind, InStep, Enabled, Apply, KeepsUp, Moved, Through, StillStaged, OnlyListed, Overlay;
      AllMoved(before, disk, completed, faults, listing);
      StepIsBehind(before, disk, lost);
      ghost var past, moved := history, disk;
      EndBatch(deferCleanup);
      CleansUp(before, past, history, begun, moved);
      if deferCleanup {
        AllMovedIsBehind(before, moved, disk, Tears(before));
      }
      FewerListed(already, moved, disk, listing);
      SameStillStaged(before, moved, disk);
      UpThroughout(before, history, begun);
    }

    /** Rename every staged file into the target, journalling each; the first failing rename stops the batch. */
    method AtomicInstallBatch(listing: seq<Path>, deferCleanup: bool, faults: Faults) returns (result: BatchResult)
      requires Valid() && disk.staging.Some? && !disk.aborted && Lists(listing, disk)
      modifies this
      ensures Valid() && old(history) <= history
      ensures Overlay(disk) == old(Overlay(disk))
      ensures result.aborted <==> exists p :: p in old(Staged(disk)) && p in faults.renames
      // what has left staging is in the journal, up to the row that a torn last line swallows
      ensures result.aborted || deferCleanup ==> Behind(old(disk), disk, Tears(old(disk)))
      ensures forall i :: old(|history|) <= i < |history| && InBatch(history[i]) ==>
                Behind(old(disk), history[i], Tears(old(disk)) + 1)
      ensures OnlyListed(old(Completed(Rows(disk))), disk, listing)
      ensures result.aborted ==>
                && result.failed.Some? && result.failed.value in Staged(disk) && result.failed.value in faults.renames
                && disk.aborted == !faults.marker
                && disk == old(disk).(target := disk.target, staging := disk.staging, journal := disk.journal,
                                      aborted := disk.aborted)
                && Staged(disk).Keys <= old(Staged(disk)).Keys && StillStaged(old(disk), disk)
      ensures !result.aborted ==>
                && old(Staged(disk)).Keys <= result.completed
                && disk == old(disk).(target := old(Overlay(disk)),
                                      staging := if deferCleanup then Some(map[]) else None,
                                      journal := if deferCleanup then disk.journal else None,
                                      sentinel := old(disk).sentinel || deferCleanup)
    {
      hide Inv, History, Enabled, Apply, Going, Behind, KeepsUp, InBatch, Tears, StillStaged, OnlyListed, Overlay;
      JournalledAreGone(plan, disk);
      var already := Completed(Rows(disk));
      result := BatchResult(already, None, false);
      ghost var before, begun, lost: set<Path> := disk, |history|, {};
      BeginBatch(before, already, listing, faults);
      for i := 0 to |listing|
        invariant Valid() && old(history) <= history && Going(before, begun, lost, already, listing, i, result.completed, faults)
        invariant result.failed == None && !result.aborted
      {
        var rel := listing[i];
        if rel in already || !IsStaged(rel) {
          var completed := PassOver(before, begun, lost, already, listing, i, result.completed, faults);
          result := result.(completed := completed);
          continue;
        }
        if rel in faults.renames {
          StopBatch(before, begun, lost, already, listing, i, result.completed, faults);
          return BatchResult(result.completed, Some(rel), true);
        }
        lost := MoveNext(before, begun, lost, already, listing, i, result.completed, faults);
        result := result.(completed := result.completed + {rel});
      }
      FinishBatch(deferCleanup, before, begun, lost, already, listing, result.completed, faults);
    }

    // ---------------------------------------------------------------------- recovery

    method RemoveStagedFiles(listing: seq<Path>)
      requires Valid() && disk.pending.None? && disk.staging.Some? && Lists(listing, disk)
      modifies this
      ensures Valid() && old(history) <= history
      ensures disk == old(disk).(staging := Some(map[]))
    {
      hide Inv, History, Enabled;
      ghost var before := disk;
      StartMoving(Staged(disk), {}, NO_FAULTS, listing);
      for i := 0 to |listing|
        invariant Valid() && old(history) <= history
        invariant disk == before.(staging := disk.staging) && disk.staging.Some?
        invariant Through(listing, i, Staged(disk)) && Staged(disk).Keys <= Staged(before).Keys
      {
        hide Through;
        FileGone(listing, i, Staged(disk));
        RemoveIfStaged(listing[i]);
      }
      assert listing[|listing|..] == [];
      assert Staged(disk) == map[];
    }

    method RemoveIfStaged(p: Path)
      requires Valid() && disk.pending.None? && disk.staging.Some?
      modifies this
      ensures Valid() && old(history) <= history
      ensures disk == old(disk).(staging := Some(old(Staged(disk)) - {p}))
    {
      hide Inv, History;
      if p in Staged(disk) {
        Do(RemoveStaged(p));
      } else {
        assert Staged(disk) - {p} == Staged(disk);
      }
    }

    method RemoveMarkerFile()
      requires Valid() && disk.pending.None?
      modifies this
      ensures Valid() && old(history) <= history
      ensures disk == old(disk).(aborted := false)
    {
      hide Inv, History;
      if disk.aborted {
        Do(RemoveMarker);
      }
    }

    /** Remove a staging tree, the marker first or last as the directory happens to list it. */
    method RemoveTree(env: Env)
      requires Valid() && disk.pending.None? && Lists(env.listing, disk)
      modifies this
      ensures Valid() && old(history) <= history
      ensures disk == old(disk).(staging := None, aborted := false)
    {
      hide Inv, History;
      NoMarkerWithoutTree(plan, disk);
      if disk.staging.None? {
        return;
      }
      if env.markerFirst {
        RemoveMarkerFile();
      }
      RemoveStagedFiles(env.listing);
      RemoveMarkerFile();
      Do(RemoveStagingDir);
    }

    method CleanupPendingArtifacts(env: Env)
      requires Valid() && Lists(env.listing, disk)
      modifies this
      ensures Valid() && old(history) <= history
      ensures disk == old(disk).(sentinel := false, journal := None, pending := None, staging := None, aborted := false)
    {
      hide Inv, History;
      Do(RemoveSentinel);
      Do(RemoveJournal);
      Do(RemovePending);
      RemoveTree(env);
    }

    /** Undo one journalled rename: put its backup back, or move the installed file to the conflicts. */
    method UndoOne(rel: Path, env: Env, faults: Faults)
      requires Valid() && disk.aborted && rel in Completed(Rows(disk))
      modifies this
      ensures Valid() && old(history) <= history
      ensures disk == old(disk).(target := disk.target, conflicts := disk.conflicts)
      ensures disk.target - {rel} == old(disk).target - {rel}
      ensures At(disk.target, rel) == UndoneAt(old(disk).target, rel, env.backups, faults)
      ensures disk.conflicts == if rel in old(disk).target && rel !in disk.target
                                then old(disk).conflicts[ConflictName(rel, env.stamp) := old(disk).target[rel]]
                                else old(disk).conflicts
    {
      hide Inv, History;
      if rel in disk.target {
        if rel in env.backups && rel !in faults.renames {
          Do(RestoreBackup(rel, env.backups[rel]));
        } else if !faults.quarantine {
          Do(QuarantineInstalled(rel, ConflictName(rel, env.stamp)));
        }
      }
    }

    /** Undo the journalled renames: put each backup back, or move the installed file to the conflicts. */
    method RollBack(env: Env, faults: Faults)
      requires Valid() && disk.aborted
      modifies this
      ensures Valid() && old(history) <= history
      ensures disk == old(disk).(target := disk.target, conflicts := disk.conflicts)
      ensures UndoneTo(old(disk).target, disk.target, Completed(Rows(old(disk))), env.backups, faults)
      ensures SetAsideIn(old(disk).target, disk.target, disk.conflicts, Completed(Rows(old(disk))), env.stamp)
    {
      hide Inv, History, UndoneTo, SetAsideIn, UndoneAt;
      var rows := Rows(disk);
      ghost var before := disk;
      NothingUndone(before.target, env.backups, faults);
      for i := 0 to |rows|
        invariant Valid() && old(history) <= history
        invariant disk == before.(target := disk.target, conflicts := disk.conflicts)
        invariant UndoneTo(before.target, disk.target, Completed(rows[..i]), env.backups, faults)
        invariant SetAsideIn(before.target, disk.target, disk.conflicts, Completed(rows[..i]), env.stamp)
      {
        CompletedSoFar(rows, i);
        if rows[i].Done? {
          ghost var was, conflicts := disk.target, disk.conflicts;
          UndoOne(rows[i].path, env, faults);
          SetOneAside(before.target, was, disk.target, conflicts, disk.conflicts, Completed(rows[..i]), rows[i].path,
                      env.stamp, env.backups, faults);
          UndidOne(before.target, was, disk.target, Completed(rows[..i]), rows[i].path, env.backups, faults);
        } else {
          assert Completed(rows[..i + 1]) == Completed(rows[..i]);
        }
      }
      assert rows[..|rows|] == rows;
    }

    method PublishPending()
      requires Valid() && disk.pending.Some? && disk.sentinel && !disk.aborted
      modifies this
      ensures Valid() && old(history) <= history
      ensures disk == old(disk).(final := old(disk).pending, pending := None)
    {
      hide Inv, History;
      Do(Finalize);
    }

    /** Recover a pending manifest. The abort marker wins over the sentinel; the sentinel over the journal; a sidecar
        with none of them is an orphan. */
    method RecoverPendingManifest(env: Env, faults: Faults) returns (action: RecoveryAction)
      requires Valid() && disk.pending.Some? && Lists(env.listing, disk)
      modifies this
      ensures Valid() && old(history) <= history
      ensures old(disk).aborted ==>
                && action == RolledBack && disk.final == old(disk).final && Clean(disk)
                && UndoneTo(old(disk).target, disk.target, Completed(Rows(old(disk))), env.backups, faults)
                && SetAsideIn(old(disk).target, disk.target, disk.conflicts, Completed(Rows(old(disk))), env.stamp)
      ensures !old(disk).aborted && old(disk).sentinel ==>
                if faults.finalize then action == Noop && disk == old(disk)
                else && action == Finalized && Clean(disk)
                     && disk.target == old(disk).target && disk.final == old(disk).pending
      ensures Resumable(old(disk)) && !faults.finalize && old(Staged(disk)).Keys !! faults.renames ==>
                && action == Resumed && Clean(disk)
                && disk.target == old(Overlay(disk)) && disk.final == old(disk).pending
      ensures Resumable(old(disk)) && (faults.finalize || !(old(Staged(disk)).Keys !! faults.renames)) ==>
                && action == Noop && disk.final == old(disk).final && disk.pending == old(disk).pending
                && Overlay(disk) == old(Overlay(disk))
      ensures Orphan(old(disk)) ==>
                && action == Quarantined && disk.target == old(disk).target && disk.final == old(disk).final
                && disk == if faults.quarantine then old(disk) else Apply(old(disk), QuarantinePending)
    {
      hide Inv, History, Enabled;
      if disk.aborted {
        RollBack(env, faults);
        CleanupPendingArtifacts(env);
        return RolledBack;
      }
      if disk.sentinel {
        if faults.finalize {
          return Noop;
        }
        PublishPending();
        CleanupPendingArtifacts(env);
        return Finalized;
      }
      if disk.journal.Some? && disk.staging.Some? {
        var batch := AtomicInstallBatch(env.listing, true, faults);
        if batch.aborted || faults.finalize {
          return Noop;
        }
        PublishPending();
        CleanupPendingArtifacts(env);
        return Resumed;
      }
      SetAside(faults);
      return Quarantined;
    }

    method SetAside(faults: Faults)
      requires Valid() && disk.pending.Some?
      modifies this
      ensures Valid() && old(history) <= history
      ensures disk == if faults.quarantine then old(disk) else Apply(old(disk), QuarantinePending)
    {
      hide Inv, History;
      if !faults.quarantine {
        Do(QuarantinePending);
      }
    }

    /** Reconcile a staging directory that has no pending manifest. */
    method RecoverOne(env: Env, faults: Faults)
      requires Valid() && disk.pending.None? && disk.staging.Some? && Lists(env.listing, disk)
      modifies this
      ensures Valid() && old(history) <= history
      ensures disk.pending == None && disk.final == old(disk).final && disk.sentinel == old(disk).sentinel
      ensures old(disk).aborted ==>
                && disk.staging == None && disk.journal == None
                && UndoneTo(old(disk).target, disk.target, Completed(Rows(old(disk))), env.backups, faults)
                && SetAsideIn(old(disk).target, disk.target, disk.conflicts, Completed(Rows(old(disk))), env.stamp)
      ensures !old(disk).aborted ==> Overlay(disk) == old(Overlay(disk))
      ensures !old(disk).aborted && old(Staged(disk)).Keys !! faults.renames ==> disk.staging == None && disk.journal == None
    {
      hide Inv, History, Enabled;
      if disk.aborted {
        RollBack(env, faults);
        RemoveTree(env);
        DropJournal();
      } else {
        var batch := AtomicInstallBatch(env.listing, false, faults);
      }
    }

    method DropJournal()
      requires Valid()
      modifies this
      ensures Valid() && old(history) <= history
      ensures disk == old(disk).(journal := None)
    {
      hide Inv, History;
      if disk.journal.Some? {
        Do(RemoveJournal);
      }
    }

    /** One recovery: first the pending manifest, then a stale staging directory that had none. */
    method RecoverAbortedInstall(aged: bool, env: Env, faults: Faults) returns (action: RecoveryAction)
      requires Valid() && Lists(env.listing, disk)
      modifies this
      ensures Valid() && old(history) <= history
      ensures Finishable(old(disk)) && !faults.finalize && old(Staged(disk)).Keys !! faults.renames ==>
                Clean(disk) && disk.final == old(disk).pending && disk.target == old(Overlay(disk))
      ensures !Finishable(old(disk)) ==> disk.final == old(disk).final
      ensures disk.final == old(disk).final || (!old(disk).aborted && disk.final == old(disk).pending)
      ensures old(disk).aborted ==>
                && disk.staging.None? && disk.journal.None?
                && UndoneTo(old(disk).target, disk.target, Completed(Rows(old(disk))), env.backups, faults)
      ensures old(disk).pending.None? && old(disk).staging.Some? && !old(disk).aborted && aged
              && old(Staged(disk)).Keys !! faults.renames ==>
                disk.staging.None? && disk.journal.None? && disk.target == old(Overlay(disk))
      ensures old(disk).pending.None? && !old(disk).aborted && !(old(disk).staging.Some? && aged) ==> disk == old(disk)
    {
      hide Inv, History, Enabled, UndoneTo, SetAsideIn;
      var anyPending := disk.pending.Some?;
      SentinelMeansInstalled(plan, disk);
      NoMarkerWithoutTree(plan, disk);
      var stale := disk.staging.Some? && (disk.aborted || aged);
      action := Noop;
      if anyPending {
        action := RecoverPendingManifest(env, faults);
      } else if stale {
        RecoverOne(env, faults);
        assert disk.staging.None? ==> Overlay(disk) == disk.target;
      }
    }

    // ----------------------------------------------------------------------- install

    /** Stage every harness-owned entry; write the others in place. `append` is the text a managed-append entry gives
        its destination. */
    method StageAll(entries: seq<Entry>, append: Append)
      requires Valid() && Before(plan, disk)
      modifies this
      ensures Valid() && old(history) <= history
      ensures disk == old(disk).(target := disk.target, staging := Some(StagedBy(entries)))
      ensures forall p :: p in old(disk).target && !MayWrite(entries, old(disk).target, p) ==>
                p in disk.target && disk.target[p] == old(disk).target[p]
      ensures PlacedSoFar(entries, |entries|, old(disk).target, disk.target, append)
    {
      hide Inv, History, PlacedSoFar, Sole;
      ghost var before := disk;
      NothingPlaced(entries, disk.target, append);
      Do(MakeStaging);
      for i := 0 to |entries|
        invariant Valid() && old(history) <= history
        invariant disk == before.(target := disk.target, staging := Some(StagedBy(entries[..i])))
        invariant before.target.Keys <= disk.target.Keys
        invariant forall p :: p in before.target && !MayWrite(entries, before.target, p) ==>
                    p in disk.target && disk.target[p] == before.target[p]
        invariant PlacedSoFar(entries, i, before.target, disk.target, append)
      {
        var entry := entries[i];
        assert entries[..i + 1][..i] == entries[..i] && entries[..i + 1][i] == entry;
        assert entry in entries;
        ghost var was := disk.target;
        StageEntry(entry, append);
        PlacedOne(entries, i, before.target, was, disk.target, append);
        AllowedStays(entries, entry, before.target, was, disk.target, append);
      }
      assert entries[..|entries|] == entries;
    }

    method StageEntry(entry: Entry, append: Append)
      requires Valid() && Composing(plan, disk) && disk.staging.Some? && disk.journal.None? && !disk.sentinel
      modifies this
      ensures Valid() && old(history) <= history
      ensures disk == old(disk).(target := disk.target, staging := disk.staging)
      ensures disk.staging == if entry.policy == HarnessOwned then Some(old(Staged(disk))[entry.path := entry.source])
                              else old(disk).staging
      ensures forall p :: At(disk.target, p) ==
                if p == entry.path then Placed(entry, At(old(disk).target, p), append) else At(old(disk).target, p)
    {
      hide Inv, History;
      if entry.policy == Exclude {
        return;
      }
      if entry.policy == ManagedAppend {
        var was := if entry.path in disk.target then Some(disk.target[entry.path]) else None;
        Do(WriteDirect(entry.path, append(entry.path, entry.source, was)));
      } else if entry.policy in {ProjectOwned, Seed} && entry.path in disk.target {
        return;
      } else if entry.policy == HarnessOwned {
        Do(Stage(entry.path, entry.source));
      } else {
        Do(WriteDirect(entry.path, entry.source));
      }
    }

    method WriteSidecar(payload: Payload)
      requires Valid() && Composing(plan, disk) && payload.run == plan.run && Mismatched(Overlay(disk), payload) == plan.gap
      modifies this
      ensures Valid() && old(history) <= history
      ensures disk == old(disk).(pending := Some(payload))
    {
      hide Inv, History;
      Do(WritePending(payload));
    }

    /** Regenerate `.roomodes`, then rewrite the sidecar with its new hash. */
    method SyncModes(payload: Payload, sync: Bytes -> Bytes)
      requires Valid() && disk.pending == Some(payload)
      modifies this
      ensures Valid() && old(history) <= history
      ensures disk == old(disk).(target := Synced(old(disk).target, sync), pending := disk.pending)
      ensures disk.pending == Some(Rehashed(payload, disk.target))
    {
      hide Inv, History;
      if ROOMODES in disk.target {
        Do(SyncRoomodes(sync(disk.target[ROOMODES])));
        if ROOMODES in payload.owned {
          assert Rehashed(payload, disk.target).owned - {ROOMODES} == payload.owned - {ROOMODES};
          Do(RewritePending(Rehashed(payload, disk.target)));
        }
      }
    }

    method CleanupPublished()
      requires Valid() && disk.staging == Some(map[]) && !disk.aborted
      modifies this
      ensures Valid() && old(history) <= history
      ensures disk == old(disk).(sentinel := false, journal := None, staging := None)
    {
      hide Inv, History;
      Do(RemoveSentinel);
      Do(RemoveJournal);
      Do(RemoveStagingDir);
    }

    /** Sidecar, batch, `.roomodes`, publish, clean up: the last phases of install and of upgrade. */
    method Publish(payload: Payload, env: Env, sync: Bytes -> Bytes, faults: Faults) returns (outcome: InstallOutcome)
      requires Valid() && Composing(plan, disk) && disk.staging.Some? && Lists(env.listing, disk)
      requires disk.journal.None? && !disk.sentinel && !disk.aborted
      requires payload.run == plan.run && Mismatched(Overlay(disk), payload) == plan.gap
      modifies this
      ensures Valid() && old(history) <= history
      ensures outcome == Installed <==> old(Staged(disk)).Keys !! faults.renames && !faults.finalize
      ensures outcome != Installed ==> outcome == InstallFailed && disk.final == old(disk).final && disk.pending.Some?
      ensures OnlyStagedChanged(old(disk), disk)
      ensures outcome == Installed ==>
                && Clean(disk)
                && disk.target == Synced(old(Overlay(disk)), sync)
                && disk.final == Some(Rehashed(payload, disk.target))
    {
      hide Inv, History, Enabled, Apply, Behind, InBatch, Tears;
      ghost var before := disk;
      WriteSidecar(payload);
      var batch := AtomicInstallBatch(env.listing, true, faults);
      BatchTouchesStaged(before, disk);
      if batch.aborted {
        return InstallFailed;
      }
      SyncModes(payload, sync);
      if faults.finalize {
        return InstallFailed;
      }
      PublishPending();
      CleanupPublished();
      return Installed;
    }

    /** A fresh install: every path it records holds the recorded bytes, and nothing it may not write is touched. */
    method Install(entries: seq<Entry>, version: string, append: Append,
                   env: Env, sync: Bytes -> Bytes, faults: Faults, run: nat) returns (outcome: InstallOutcome)
      requires Valid() && Before(plan, disk) && plan == Plan(run, {})
      requires forall p :: p in StagedBy(entries) ==> p in env.listing
      modifies this
      ensures Valid() && old(history) <= history
      ensures outcome == Refused <==>
                exists e :: e in entries && e.policy in {HarnessOwned, Managed} && e.path in old(disk).target
      ensures outcome == Refused ==> disk == old(disk)
      ensures outcome != Refused ==> (outcome == Installed <==> StagedBy(entries).Keys !! faults.renames && !faults.finalize)
      ensures outcome == InstallFailed ==> disk.final == old(disk).final
      // whatever the outcome, no file that was there is touched, but for blocks in managed-append files and `.roomodes`
      ensures forall p :: p in old(disk).target && p != ROOMODES && !Blocked(entries, p) ==>
                p in disk.target && disk.target[p] == old(disk).target[p]
      ensures outcome == Installed ==>
                && Clean(disk) && Published(plan, disk) && disk.final.value.version == version
                && disk.final.value.owned.Keys == StagedBy(entries).Keys
                && (forall p :: p in StagedBy(entries) ==> Agrees(disk.target, p, disk.final.value.owned[p]))
                && (forall p :: p in StagedBy(entries) && p != ROOMODES ==> disk.target[p] == StagedBy(entries)[p])
                && (forall p :: p in old(disk).target && !MayWrite(entries, old(disk).target, p) ==>
                      p in disk.target && disk.target[p] == old(disk).target[p])
                && AllInPlace(entries, old(disk).target, disk.target, append)
    {
      hide Inv, History, Enabled, Apply, PlacedSoFar, AllInPlace, OnlyStagedChanged, MayWrite, Blocked,
        Mismatched, Synced, Rehashed, StagedBy, HashAll, Agrees, Overlay;
      if Existing(entries, disk.target) {
        return Refused;
      }
      ghost var before := disk;
      StageAll(entries, append);
      var staged := Staged(disk);
      var payload := Payload(run, version, HashAll(staged));
      HashAllMatches(disk, payload);
      StagedMayBeWritten(entries, before.target);
      EntriesInPlace(entries, before.target, disk, append, sync);
      NothingOverwritten(entries, before.target);
      ghost var prepared := disk;
      OverlayHolds(disk);
      outcome := Publish(payload, env, sync, faults);
      FilesStay(entries, before.target, prepared, disk);
      if outcome == Installed {
        RecordedInPlace(Staged(prepared), Overlay(prepared), payload, sync, disk.target);
      }
    }
  }

  lemma JournalledAreGone(plan: Plan, d: Disk)
    requires Inv(plan, d)
    ensures Completed(Rows(d)) !! Staged(d).Keys
  {
  }

  lemma Prefix(plan: Plan, h: seq<Disk>, k: nat)
    requires History(plan, h) && k < |h|
    ensures History(plan, h[..k + 1])
  {
  }

  lemma Extend(plan: Plan, h: seq<Disk>, a: Action)
    requires History(plan, h) && Enabled(plan, h[|h| - 1], a)
    ensures History(plan, h + [Apply(h[|h| - 1], a)])
  {
    hide Enabled, Apply;
    var next := Apply(h[|h| - 1], a);
    assert Linked(plan, h[|h| - 1], next);
    forall i | 0 <= i < |h| ensures Linked(plan, (h + [next])[i], (h + [next])[i + 1]) {
      if i < |h| - 1 {
        assert Linked(plan, h[i], h[i + 1]);
      }
    }
  }
}
