/** What an installation leaves on disk: one run's staging directory, journal, pending sidecar, sentinel and abort
    marker, the installed files, and the published manifest. Every action is one file operation, so a crash is a stop
    between two actions, and what a restarted process can rely on is the invariant of the disk alone. */
module InstallDisk {
  import opened Prelude

  type Path = string
  type Bytes = string

  /** SHA-256, modelled as injective. */
  datatype Digest = Sha(bytes: Bytes)

  const ROOMODES: Path := ".roomodes"

  /** A manifest as composed by a run: its version, and the recorded hash of every harness-owned path. */
  datatype Payload = Payload(run: nat, version: string, owned: map<Path, Digest>)

  /** A journal line. A crash in the middle of a write leaves a torn one, without its newline; what is written next ends
      up on the same line, which then reads as garbled and is skipped. */
  datatype Record = Done(path: Path) | Failed(path: Path) | Torn | Garbled

  datatype Disk = Disk(
    target: map<Path, Bytes>,
    staging: Option<map<Path, Bytes>>,
    aborted: bool,
    journal: Option<seq<Record>>,
    sentinel: bool,
    pending: Option<Payload>,
    final: Option<Payload>,
    conflicts: map<Path, Bytes>,
    orphans: seq<Payload>)

  /** The run being followed, and the harness-owned paths its manifest was composed wrong for. */
  datatype Plan = Plan(run: nat, gap: set<Path>)

  function Staged(d: Disk): map<Path, Bytes> {
    if d.staging.Some? then d.staging.value else map[]
  }

  /** The target once every staged file has been renamed into it. */
  function Overlay(d: Disk): map<Path, Bytes> {
    d.target + Staged(d)
  }

  predicate Agrees(files: map<Path, Bytes>, p: Path, digest: Digest) {
    p in files && Sha(files[p]) == digest
  }

  /** The harness-owned paths, `.roomodes` apart, that do not hold the recorded bytes. */
  function Mismatched(files: map<Path, Bytes>, m: Payload): set<Path> {
    set p | p in m.owned && p != ROOMODES && !Agrees(files, p, m.owned[p])
  }

  predicate Published(plan: Plan, d: Disk) {
    d.final.Some? && d.final.value.run == plan.run
  }

  /** A line written after a torn one is lost with it; the lines after that are whole again. */
  function AppendRow(rows: seq<Record>, row: Record): seq<Record> {
    if rows != [] && rows[|rows| - 1] == Torn then rows[..|rows| - 1] + [if row == Torn then Torn else Garbled]
    else rows + [row]
  }

  /** At most one line is lost to a tear, and it is the one written next. */
  lemma TearLosesOneRow(rows: seq<Record>, lost: Record, next: Record)
    requires lost != Torn && (rows == [] || rows[|rows| - 1] != Torn)
    ensures AppendRow(AppendRow(AppendRow(rows, Torn), lost), next) == rows + [Garbled, next]
    ensures Completed(AppendRow(AppendRow(AppendRow(rows, Torn), lost), next)) == Completed(rows + [next])
  {
    var torn := AppendRow(rows, Torn);
    assert torn[..|torn| - 1] == rows;
    assert AppendRow(torn, lost) == rows + [Garbled];
    assert rows + [Garbled] + [next] == rows + [Garbled, next];
  }

  function Completed(rows: seq<Record>): set<Path> {
    set row | row in rows && row.Done? :: row.path
  }

  function Rows(d: Disk): seq<Record> {
    if d.journal.Some? then d.journal.value else []
  }

  /** Two payloads that differ at most in the recorded hash of `.roomodes`. */
  predicate SameButRoomodes(a: Payload, b: Payload) {
    a.run == b.run && a.version == b.version && a.owned - {ROOMODES} == b.owned - {ROOMODES}
  }

  // ---------------------------------------------------------------------- actions

  datatype Action =
    | MakeStaging
    | Stage(path: Path, bytes: Bytes)
    | WriteDirect(path: Path, bytes: Bytes)
    | RemoveDirect(path: Path)
    | WritePending(payload: Payload)
    | OpenJournal
    | WriteRow(row: Record)
    | TearRow
    | Rename(path: Path)
    | MarkAborted
    | WriteSentinel
    | SyncRoomodes(bytes: Bytes)
    | RewritePending(payload: Payload)
    | Finalize
    | RemoveSentinel
    | RemoveJournal
    | RemovePending
    | QuarantinePending
    | RemoveStaged(path: Path)
    | RemoveMarker
    | RemoveStagingDir
    | RestoreBackup(path: Path, bytes: Bytes)
    | QuarantineInstalled(path: Path, name: Path)
    | WriteConflict(name: Path, bytes: Bytes)
    | WriteManifest(payload: Payload)

  /** Before its manifest is composed a run may still write anywhere. */
  predicate Composing(plan: Plan, d: Disk) {
    d.pending.None? && !Published(plan, d)
  }

  ghost predicate Enabled(plan: Plan, d: Disk, a: Action) {
    match a
    case MakeStaging => Composing(plan, d) && d.staging.None? && d.journal.None?
    case Stage(_, _) => Composing(plan, d) && d.staging.Some? && d.journal.None? && !d.sentinel
    case WriteDirect(_, _) => Composing(plan, d)
    case RemoveDirect(_) => Composing(plan, d)
    case WritePending(payload) =>
      Composing(plan, d) && payload.run == plan.run && Mismatched(Overlay(d), payload) == plan.gap
    case OpenJournal => d.journal.None?
    case WriteRow(row) => d.journal.Some? && (row.Done? ==> row.path !in Staged(d))
    case TearRow => d.journal.Some?
    case Rename(p) => p in Staged(d) && !d.aborted
    case MarkAborted => Staged(d) != map[]
    case WriteSentinel => d.staging == Some(map[]) && !d.aborted
    case SyncRoomodes(_) => ROOMODES in d.target
    case RewritePending(payload) => d.pending.Some? && SameButRoomodes(payload, d.pending.value)
    case Finalize => d.pending.Some? && d.sentinel && !d.aborted
    case RemoveSentinel | RemoveJournal | RemovePending => true
    case QuarantinePending => d.pending.Some?
    case RemoveStaged(p) => d.pending.None? && p in Staged(d)
    case RemoveMarker => d.pending.None? && d.aborted
    case RemoveStagingDir => d.staging == Some(map[]) && !d.aborted
    case RestoreBackup(p, _) => d.aborted && p in Completed(Rows(d))
    case QuarantineInstalled(p, _) => d.aborted && p in Completed(Rows(d)) && p in d.target
    case WriteConflict(_, _) => true
    case WriteManifest(payload) =>
      Composing(plan, d) && payload.run == plan.run && Staged(d) == map[] && !d.aborted
      && Mismatched(d.target, payload) == plan.gap
  }

  function Apply(d: Disk, a: Action): Disk {
    match a
    case MakeStaging => d.(staging := Some(map[]))
    case Stage(p, b) => d.(staging := Some(Staged(d)[p := b]))
    case WriteDirect(p, b) => d.(target := d.target[p := b])
    case RemoveDirect(p) => d.(target := d.target - {p})
    case WritePending(payload) => d.(pending := Some(payload))
    case OpenJournal => d.(journal := Some([]))
    case WriteRow(row) => d.(journal := Some(AppendRow(Rows(d), row)))
    case TearRow => d.(journal := Some(AppendRow(Rows(d), Torn)))
    case Rename(p) =>
      if p in Staged(d) then d.(target := d.target[p := Staged(d)[p]], staging := Some(Staged(d) - {p})) else d
    case MarkAborted => d.(aborted := true)
    case WriteSentinel => d.(sentinel := true)
    case SyncRoomodes(b) => d.(target := d.target[ROOMODES := b])
    case RewritePending(payload) => d.(pending := Some(payload))
    case Finalize => d.(final := d.pending, pending := None)
    case RemoveSentinel => d.(sentinel := false)
    case RemoveJournal => d.(journal := None)
    case RemovePending => d.(pending := None)
    case QuarantinePending =>
      if d.pending.Some? then d.(pending := None, orphans := d.orphans + [d.pending.value]) else d
    case RemoveStaged(p) => d.(staging := Some(Staged(d) - {p}))
    case RemoveMarker => d.(aborted := false)
    case RemoveStagingDir => d.(staging := None)
    case RestoreBackup(p, b) => d.(target := d.target[p := b])
    case QuarantineInstalled(p, name) =>
      if p in d.target then d.(target := d.target - {p}, conflicts := d.conflicts[name := d.target[p]]) else d
    case WriteConflict(name, b) => d.(conflicts := d.conflicts[name := b])
    case WriteManifest(payload) => d.(final := Some(payload))
  }

  // -------------------------------------------------------------------- invariant

  ghost predicate Inv(plan: Plan, d: Disk) {
    && (d.aborted ==> d.staging.Some?)
    && (d.journal.Some? ==> Completed(Rows(d)) !! Staged(d).Keys)
    && (d.sentinel ==> !d.aborted && Staged(d) == map[])
    && (d.pending.Some? ==> d.pending.value.run == plan.run && !Published(plan, d))
    && (d.pending.Some? && !d.aborted ==> Mismatched(Overlay(d), d.pending.value) == plan.gap)
    && (Published(plan, d) ==> !d.aborted && Staged(d) == map[] && Mismatched(d.target, d.final.value) == plan.gap)
  }

  /** Before the run: nothing of it is on disk. */
  predicate Before(plan: Plan, d: Disk) {
    d.staging.None? && !d.aborted && d.journal.None? && !d.sentinel && d.pending.None? && !Published(plan, d)
  }

  lemma BeforeSatisfiesInv(plan: Plan, d: Disk)
    requires Before(plan, d)
    ensures Inv(plan, d)
  {
  }

  lemma RenameKeepsOverlay(d: Disk, p: Path)
    requires p in Staged(d)
    ensures Overlay(Apply(d, Rename(p))) == Overlay(d)
  {
  }

  lemma RowsStayDisjoint(d: Disk, row: Record)
    requires d.journal.Some? && Completed(Rows(d)) !! Staged(d).Keys && (row.Done? ==> row.path !in Staged(d))
    ensures Completed(AppendRow(Rows(d), row)) !! Staged(d).Keys
  {
  }

  /** Only `.roomodes` can tell apart two file maps or two payloads that agree elsewhere. */
  lemma RoomodesIsNotCounted(files: map<Path, Bytes>, bytes: Bytes, m: Payload, m': Payload)
    requires SameButRoomodes(m', m)
    ensures Mismatched(files[ROOMODES := bytes], m) == Mismatched(files, m)
    ensures Mismatched(files, m') == Mismatched(files, m)
  {
    forall p | p != ROOMODES
      ensures p in m'.owned <==> p in m.owned
      ensures p in m.owned ==> m'.owned[p] == m.owned[p]
    {
      assert p in m'.owned <==> p in m'.owned - {ROOMODES};
      assert p in m.owned <==> p in m.owned - {ROOMODES};
      if p in m.owned {
        assert (m'.owned - {ROOMODES})[p] == (m.owned - {ROOMODES})[p];
      }
    }
  }

  lemma SyncIsNotCounted(d: Disk, bytes: Bytes, m: Payload)
    ensures Mismatched(Overlay(Apply(d, SyncRoomodes(bytes))), m) == Mismatched(Overlay(d), m)
    ensures Mismatched(Apply(d, SyncRoomodes(bytes)).target, m) == Mismatched(d.target, m)
  {
    RoomodesIsNotCounted(d.target, bytes, m, m);
    forall p | p != ROOMODES ensures p in Overlay(Apply(d, SyncRoomodes(bytes))) <==> p in Overlay(d)
      ensures p in Overlay(d) ==> Overlay(Apply(d, SyncRoomodes(bytes)))[p] == Overlay(d)[p]
    {
    }
  }

  lemma StepKeepsInv(plan: Plan, d: Disk, a: Action)
    requires Inv(plan, d) && Enabled(plan, d, a)
    ensures Inv(plan, Apply(d, a))
  {
    match a
    case Rename(p) => RenameKeepsOverlay(d, p);
    case WriteRow(row) => RowsStayDisjoint(d, row);
    case TearRow => RowsStayDisjoint(d, Torn);
    case SyncRoomodes(b) =>
      if d.pending.Some? {
        SyncIsNotCounted(d, b, d.pending.value);
      }
      if d.final.Some? {
        SyncIsNotCounted(d, b, d.final.value);
      }
    case RewritePending(payload) => RoomodesIsNotCounted(Overlay(d), "", d.pending.value, payload);
    case Finalize => assert Overlay(d) == d.target;
    case RemoveStagingDir => assert Overlay(Apply(d, a)) == Overlay(d);
    case _ =>
  }

  // -------------------------------------------------------------------- whole runs

  ghost predicate Linked(plan: Plan, d: Disk, d': Disk) {
    exists a :: Enabled(plan, d, a) && d' == Apply(d, a)
  }

  /** A history of the disk: each state follows from the one before by one file operation. Crashes and restarts leave
      the disk alone, so one history may hold the steps of an install and of any number of recoveries. */
  ghost predicate History(plan: Plan, h: seq<Disk>) {
    && h != []
    && forall i :: 0 <= i < |h| - 1 ==> Linked(plan, h[i], h[i + 1])
  }

  lemma {:induction false} HistoryKeepsInv(plan: Plan, h: seq<Disk>, i: nat)
    requires History(plan, h) && Inv(plan, h[0]) && i < |h|
    ensures Inv(plan, h[i])
  {
    if i > 0 {
      HistoryKeepsInv(plan, h, i - 1);
      assert Linked(plan, h[i - 1], h[i - 1 + 1]);
      var a :| Enabled(plan, h[i - 1], a) && h[i] == Apply(h[i - 1], a);
      StepKeepsInv(plan, h[i - 1], a);
    }
  }

  /** Whenever the published manifest is this run's, the harness-owned paths whose bytes differ from the recorded hash
      are exactly those the manifest was composed wrong for; for an install there are none. */
  lemma CrashConsistency(plan: Plan, h: seq<Disk>, i: nat)
    requires History(plan, h) && Before(plan, h[0]) && i < |h| && Published(plan, h[i])
    ensures Mismatched(h[i].target, h[i].final.value) == plan.gap
    ensures plan.gap == {} ==>
              forall p :: p in h[i].final.value.owned && p != ROOMODES ==>
                p in h[i].target && Sha(h[i].target[p]) == h[i].final.value.owned[p]
  {
    BeforeSatisfiesInv(plan, h[0]);
    HistoryKeepsInv(plan, h, i);
    if plan.gap == {} {
      forall p | p in h[i].final.value.owned && p != ROOMODES
        ensures Agrees(h[i].target, p, h[i].final.value.owned[p])
      {
        assert p !in Mismatched(h[i].target, h[i].final.value);
      }
    }
  }

  /** The steps of a batch, its crashes and its resumes. */
  predicate BatchAction(a: Action) {
    a.OpenJournal? || a.WriteRow? || a.TearRow? || a.Rename? || a.WriteSentinel? || a.MarkAborted? || a.Finalize?
  }

  ghost predicate BatchLinked(plan: Plan, d: Disk, d': Disk) {
    exists a :: BatchAction(a) && Enabled(plan, d, a) && d' == Apply(d, a)
  }

  lemma BatchStep(plan: Plan, d: Disk, a: Action)
    requires Inv(plan, d) && BatchAction(a) && Enabled(plan, d, a)
    ensures Inv(plan, Apply(d, a)) && Overlay(Apply(d, a)) == Overlay(d)
  {
    hide Inv;
    StepKeepsInv(plan, d, a);
    if a.Rename? {
      RenameKeepsOverlay(d, a.path);
    }
  }

  /** Over any number of batches, crashed and resumed: target overlaid by staging never changes, every path the journal
      marks complete has left staging, and the sentinel is there only when staging holds no file. */
  lemma {:induction false} BatchConservation(plan: Plan, h: seq<Disk>, i: nat)
    requires h != [] && Inv(plan, h[0]) && i < |h|
    requires forall j :: 0 <= j < |h| - 1 ==> BatchLinked(plan, h[j], h[j + 1])
    ensures Inv(plan, h[i])
    ensures Overlay(h[i]) == Overlay(h[0])
    ensures Completed(Rows(h[i])) !! Staged(h[i]).Keys
    ensures h[i].sentinel ==> Staged(h[i]) == map[] && h[i].target == Overlay(h[0])
  {
    hide Enabled, Apply, Mismatched;
    if i > 0 {
      BatchConservation(plan, h, i - 1);
      assert BatchLinked(plan, h[i - 1], h[i - 1 + 1]);
      var a :| BatchAction(a) && Enabled(plan, h[i - 1], a) && h[i] == Apply(h[i - 1], a);
      BatchStep(plan, h[i - 1], a);
    }
    assert Staged(h[i]) == map[] ==> h[i].target == Overlay(h[i]);
  }
}
