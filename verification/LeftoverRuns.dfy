/** A second run on a directory where an earlier one left its staging, journal and sidecar. Nothing at the start of a run
    looks for leftovers, so the recovery of the earlier run may come at any time, before, during or after the second. */
module LeftoverRuns {
  import opened Prelude
  import opened InstallDisk
  import opened InstallRuns

  /** The files named after one run. */
  datatype Scratch = Scratch(
    staging: Option<map<Path, Bytes>>,
    aborted: bool,
    journal: Option<seq<Record>>,
    sentinel: bool,
    pending: Option<Payload>)

  /** What both runs share, and the files of each. */
  datatype Tree = Tree(
    target: map<Path, Bytes>,
    final: Option<Payload>,
    conflicts: map<Path, Bytes>,
    orphans: seq<Payload>,
    earlier: Scratch,
    later: Scratch)

  const NO_SCRATCH := Scratch(None, false, None, false, None)

  /** The disk as a run sees it that knows only its own files. */
  function Seen(t: Tree, own: Scratch): Disk {
    Disk(t.target, own.staging, own.aborted, own.journal, own.sentinel, own.pending, t.final, t.conflicts, t.orphans)
  }

  function Earlier(t: Tree): Disk {
    Seen(t, t.earlier)
  }

  function Later(t: Tree): Disk {
    Seen(t, t.later)
  }

  function OwnFiles(d: Disk): Scratch {
    Scratch(d.staging, d.aborted, d.journal, d.sentinel, d.pending)
  }

  function WithEarlier(t: Tree, d: Disk): Tree {
    Tree(d.target, d.final, d.conflicts, d.orphans, OwnFiles(d), t.later)
  }

  function WithLater(t: Tree, d: Disk): Tree {
    Tree(d.target, d.final, d.conflicts, d.orphans, t.earlier, OwnFiles(d))
  }

  /** What a recovery does, beyond what is possible at all: it starts nothing, journals only what it found staged, opens
      a journal only once there is no sidecar, and finishes a sidecar only when its journal is there. */
  predicate Recovers(d: Disk, a: Action, found: set<Path>) {
    match a
    case MakeStaging | Stage(_, _) | WriteDirect(_, _) | RemoveDirect(_) | WritePending(_) | WriteManifest(_) => false
    case SyncRoomodes(_) | RewritePending(_) => false
    case OpenJournal => d.pending.None? && d.staging.Some? && !d.aborted
    case WriteRow(row) => row.Done? ==> row.path in found
    case Rename(_) | MarkAborted => d.journal.Some?
    case WriteSentinel => d.pending.Some? && d.journal.Some?
    case RemoveSentinel | RemoveJournal => d.pending.None? || d.aborted
    case RemovePending => d.aborted
    case QuarantinePending => Orphan(d)
    case _ => true
  }

  ghost predicate RecoveryStep(b: Plan, found: set<Path>, t: Tree, t': Tree) {
    exists a :: Recovers(Earlier(t), a, found) && Enabled(b, Earlier(t), a) && t' == WithEarlier(t, Apply(Earlier(t), a))
  }

  ghost predicate RunStep(c: Plan, t: Tree, t': Tree) {
    exists a :: Enabled(c, Later(t), a) && t' == WithLater(t, Apply(Later(t), a))
  }

  /** Recovery of run `b` and the steps of run `c`, in any order. */
  ghost predicate TwoRuns(b: Plan, c: Plan, h: seq<Tree>) {
    && h != []
    && forall i :: 0 <= i < |h| - 1 ==>
         RecoveryStep(b, Staged(Earlier(h[0])).Keys, h[i], h[i + 1]) || RunStep(c, h[i], h[i + 1])
  }

  /** An earlier run has stopped at any point, and another one has yet to begin. */
  ghost predicate Stopped(b: Plan, c: Plan, t: Tree) {
    Inv(b, Earlier(t)) && Before(c, Later(t)) && t.later == NO_SCRATCH && b.run != c.run && ROOMODES !in c.gap
  }

  /** Either manifest, if it has been published since, is wrong only about what it was composed wrong for. */
  predicate Right(b: Plan, c: Plan, start: Tree, t: Tree) {
    && (Published(c, Later(t)) ==> Mismatched(t.target, t.final.value) == c.gap)
    && (Published(b, Earlier(t)) && !Published(b, Earlier(start)) ==> Mismatched(t.target, t.final.value) == b.gap)
  }

  /** What a caller can look for before starting: a file in staging; a journal with completed paths beside an abort
      marker or a staged file; or a sidecar that recovery would publish. `.roomodes` never counts. */
  ghost predicate Disturbs(d: Disk) {
    || (exists p :: p in Staged(d) && p != ROOMODES)
    || ((d.aborted || Staged(d) != map[]) && exists p :: p in Completed(Rows(d)) && p != ROOMODES)
    || (Finishable(d) && exists p :: p in d.pending.value.owned && p != ROOMODES)
  }

  // ------------------------------------------------------------ harmless leftovers

  predicate OnlyModes(paths: set<Path>) {
    paths <= {ROOMODES}
  }

  /** A leftover that does not disturb, as it stays while it is recovered. */
  ghost predicate Quiet(b: Plan, d: Disk) {
    && OnlyModes(Staged(d).Keys)
    && (d.aborted || Staged(d) != map[] ==> OnlyModes(Completed(Rows(d))))
    && (d.pending.Some? ==> d.pending.value.run == b.run)
    && (Finishable(d) ==> OnlyModes(d.pending.value.owned.Keys) && b.gap == {})
  }

  lemma QuietAtFirst(b: Plan, d: Disk)
    requires Inv(b, d) && !Disturbs(d)
    ensures Quiet(b, d)
  {
    if Finishable(d) {
      assert Mismatched(Overlay(d), d.pending.value) == {};
    }
  }

  lemma QuietStays(b: Plan, d: Disk, a: Action, found: set<Path>)
    requires Quiet(b, d) && Recovers(d, a, found) && Enabled(b, d, a) && OnlyModes(found)
    ensures Quiet(b, Apply(d, a))
  {
  }

  /** All that a harmless recovery does to what the other run sees. */
  lemma QuietTouchesModes(b: Plan, d: Disk, a: Action, found: set<Path>)
    requires Quiet(b, d) && Recovers(d, a, found) && Enabled(b, d, a)
    ensures Apply(d, a).target - {ROOMODES} == d.target - {ROOMODES}
    ensures
      || Apply(d, a).final == d.final
      || (Published(b, Apply(d, a)) && OnlyModes(Apply(d, a).final.value.owned.Keys) && b.gap == {})
  {
  }

  lemma OnlyModesDiffer(files: map<Path, Bytes>, files': map<Path, Bytes>, staged: map<Path, Bytes>, m: Payload)
    requires files - {ROOMODES} == files' - {ROOMODES}
    ensures Mismatched(files', m) == Mismatched(files, m)
    ensures Mismatched(files' + staged, m) == Mismatched(files + staged, m)
  {
    forall p | p != ROOMODES
      ensures p in files <==> p in files'
      ensures p in files ==> files[p] == files'[p]
    {
      assert p in files <==> p in files - {ROOMODES};
      assert p in files' <==> p in files' - {ROOMODES};
      if p in files {
        assert (files - {ROOMODES})[p] == (files' - {ROOMODES})[p];
      }
    }
  }

  lemma OthersStepKeepsInv(c: Plan, d: Disk, d': Disk)
    requires Inv(c, d) && d.target - {ROOMODES} == d'.target - {ROOMODES}
    requires OwnFiles(d') == OwnFiles(d) && (d'.final == d.final || !Published(c, d'))
    ensures Inv(c, d')
  {
    if d.pending.Some? {
      OnlyModesDiffer(d.target, d'.target, Staged(d), d.pending.value);
    }
    if d.final.Some? {
      OnlyModesDiffer(d.target, d'.target, Staged(d), d.final.value);
    }
  }

  ghost predicate TreeInv(b: Plan, c: Plan, start: Tree, t: Tree) {
    && Inv(c, Later(t)) && Quiet(b, Earlier(t))
    && (Published(b, Earlier(t)) && !Published(b, Earlier(start)) ==> OnlyModes(t.final.value.owned.Keys) && b.gap == {})
  }

  lemma RecoveryKeepsTreeInv(b: Plan, c: Plan, start: Tree, t: Tree, t': Tree, found: set<Path>)
    requires TreeInv(b, c, start, t) && b.run != c.run && OnlyModes(found) && RecoveryStep(b, found, t, t')
    ensures TreeInv(b, c, start, t')
  {
    var a :| Recovers(Earlier(t), a, found) && Enabled(b, Earlier(t), a) && t' == WithEarlier(t, Apply(Earlier(t), a));
    QuietStays(b, Earlier(t), a, found);
    QuietTouchesModes(b, Earlier(t), a, found);
    EarlierMoved(b, c, start, t, Apply(Earlier(t), a));
  }

  lemma EarlierMoved(b: Plan, c: Plan, start: Tree, t: Tree, d: Disk)
    requires TreeInv(b, c, start, t) && b.run != c.run && Quiet(b, d)
    requires d.target - {ROOMODES} == t.target - {ROOMODES}
    requires d.final == t.final || (Published(b, d) && OnlyModes(d.final.value.owned.Keys) && b.gap == {})
    ensures TreeInv(b, c, start, WithEarlier(t, d))
  {
    var t' := WithEarlier(t, d);
    hide Inv, Quiet;
    OthersStepKeepsInv(c, Later(t), Later(t'));
    assert Earlier(t') == d;
  }

  lemma PublishesOnlyItself(c: Plan, d: Disk, a: Action)
    requires Inv(c, d) && Enabled(c, d, a)
    ensures Apply(d, a).final == d.final || Published(c, Apply(d, a))
  {
  }

  lemma RunKeepsTreeInv(b: Plan, c: Plan, start: Tree, t: Tree, t': Tree)
    requires TreeInv(b, c, start, t) && b.run != c.run && RunStep(c, t, t')
    ensures TreeInv(b, c, start, t')
  {
    var a :| Enabled(c, Later(t), a) && t' == WithLater(t, Apply(Later(t), a));
    StepKeepsInv(c, Later(t), a);
    PublishesOnlyItself(c, Later(t), a);
    hide Inv, Enabled, Apply;
    assert Later(t') == Apply(Later(t), a);
    SameLeftover(b, Earlier(t), Earlier(t'));
  }

  lemma SameLeftover(b: Plan, d: Disk, d': Disk)
    requires Quiet(b, d) && OwnFiles(d') == OwnFiles(d)
    ensures Quiet(b, d')
  {
  }

  lemma {:induction false} TreeInvThroughout(b: Plan, c: Plan, h: seq<Tree>, i: nat)
    requires TwoRuns(b, c, h) && Stopped(b, c, h[0]) && !Disturbs(Earlier(h[0])) && i < |h|
    ensures TreeInv(b, c, h[0], h[i])
  {
    var found := Staged(Earlier(h[0])).Keys;
    if i == 0 {
      QuietAtFirst(b, Earlier(h[0]));
      BeforeSatisfiesInv(c, Later(h[0]));
    } else {
      TreeInvThroughout(b, c, h, i - 1);
      QuietAtFirst(b, Earlier(h[0]));
      assert RecoveryStep(b, found, h[i - 1], h[i - 1 + 1]) || RunStep(c, h[i - 1], h[i - 1 + 1]);
      hide TreeInv, Stopped, RecoveryStep, RunStep, Disturbs;
      if RunStep(c, h[i - 1], h[i]) {
        RunKeepsTreeInv(b, c, h[0], h[i - 1], h[i]);
      } else {
        RecoveryKeepsTreeInv(b, c, h[0], h[i - 1], h[i], found);
      }
    }
  }

  lemma TreeInvIsRight(b: Plan, c: Plan, start: Tree, t: Tree)
    requires TreeInv(b, c, start, t)
    ensures Right(b, c, start, t)
  {
  }

  // ------------------------------------------------------- leftovers that disturb

  function Last(h: seq<Tree>): Tree
    requires h != []
  {
    h[|h| - 1]
  }

  /** A history that begins at `start` and has got to `t`. */
  ghost predicate GotTo(b: Plan, c: Plan, h: seq<Tree>, start: Tree, t: Tree) {
    TwoRuns(b, c, h) && h[0] == start && Last(h) == t
  }

  lemma Recover(b: Plan, c: Plan, h: seq<Tree>, start: Tree, t: Tree, a: Action) returns (h': seq<Tree>)
    requires GotTo(b, c, h, start, t)
    requires Recovers(Earlier(t), a, Staged(Earlier(start)).Keys) && Enabled(b, Earlier(t), a)
    ensures GotTo(b, c, h', start, WithEarlier(t, Apply(Earlier(t), a))) && h <= h'
  {
    var t' := WithEarlier(t, Apply(Earlier(t), a));
    h' := h + [t'];
    hide Recovers, Enabled, Apply;
    assert RecoveryStep(b, Staged(Earlier(start)).Keys, t, t');
    OneMore(b, c, h, t');
  }

  lemma Run(b: Plan, c: Plan, h: seq<Tree>, start: Tree, t: Tree, a: Action) returns (h': seq<Tree>)
    requires GotTo(b, c, h, start, t) && Enabled(c, Later(t), a)
    ensures GotTo(b, c, h', start, WithLater(t, Apply(Later(t), a)))
  {
    var t' := WithLater(t, Apply(Later(t), a));
    h' := h + [t'];
    hide Enabled, Apply;
    assert RunStep(c, t, t');
    OneMore(b, c, h, t');
  }

  lemma OneMore(b: Plan, c: Plan, h: seq<Tree>, t: Tree)
    requires TwoRuns(b, c, h)
    requires RecoveryStep(b, Staged(Earlier(h[0])).Keys, Last(h), t) || RunStep(c, Last(h), t)
    ensures TwoRuns(b, c, h + [t])
  {
    hide RecoveryStep, RunStep;
    var found, h' := Staged(Earlier(h[0])).Keys, h + [t];
    forall i | 0 <= i < |h'| - 1 ensures RecoveryStep(b, found, h'[i], h'[i + 1]) || RunStep(c, h'[i], h'[i + 1]) {
      if i < |h| - 1 {
        assert RecoveryStep(b, found, h[i], h[i + 1]) || RunStep(c, h[i], h[i + 1]);
      }
    }
  }

  /** A manifest that records `p` with `hash`, and fits the files except where run `c` is to be wrong. */
  function Composed(c: Plan, files: map<Path, Bytes>, p: Path, hash: Digest): Payload {
    Payload(c.run, "", map q | q in c.gap + {p} ::
                         if q == p then hash else if q in files then Sha(files[q] + "x") else Sha(""))
  }

  /** Its hash at `p` is chosen so that one write at `p` turns it wrong. */
  lemma OneWriteSpoils(c: Plan, files: map<Path, Bytes>, p: Path, first: Bytes, second: Bytes)
    requires p != ROOMODES && ROOMODES !in c.gap && first != second
    ensures
      var m := Composed(c, files, p, Sha(if p in c.gap then second else first));
      Mismatched(files[p := first], m) == c.gap && Mismatched(files[p := second], m) != c.gap
  {
    var m := Composed(c, files, p, Sha(if p in c.gap then second else first));
    assert p in Mismatched(files[p := second], m) <==> p !in c.gap;
    forall q | q in files ensures files[q] + "x" != files[q] {
      assert |files[q] + "x"| == |files[q]| + 1;
    }
  }

  /** The scratch files of a run that has published and not yet cleaned up. */
  predicate JustPublished(s: Scratch) {
    s.pending.None? && s.staging == Some(map[]) && s.sentinel && !s.aborted && s.journal.Some?
  }

  /** The second run stages one file, installs it and publishes. */
  lemma LaterPublishes(b: Plan, c: Plan, start: Tree, p: Path, bytes: Bytes, m: Payload) returns (h: seq<Tree>, t: Tree)
    requires Stopped(b, c, start) && m.run == c.run && Mismatched(start.target[p := bytes], m) == c.gap
    ensures GotTo(b, c, h, start, t) && t.earlier == start.earlier && JustPublished(t.later)
    ensures t.target == start.target[p := bytes] && t.final == Some(m)
  {
    hide TwoRuns, Stopped, Mismatched;
    h, t := LaterInstalls(b, c, start, p, bytes, m);
    h := Run(b, c, h, start, t, WriteSentinel);
    t := WithLater(t, Apply(Later(t), WriteSentinel));
    h := Run(b, c, h, start, t, Finalize);
    t := WithLater(t, Apply(Later(t), Finalize));
  }

  lemma LaterInstalls(b: Plan, c: Plan, start: Tree, p: Path, bytes: Bytes, m: Payload) returns (h: seq<Tree>, t: Tree)
    requires Stopped(b, c, start) && m.run == c.run && Mismatched(start.target[p := bytes], m) == c.gap
    ensures GotTo(b, c, h, start, t)
    ensures t == start.(target := start.target[p := bytes],
                        later := Scratch(Some(map[]), false, Some([Done(p)]), false, Some(m)))
  {
    hide TwoRuns, Stopped, Mismatched;
    h, t := LaterComposes(b, c, start, p, bytes, m);
    h := Run(b, c, h, start, t, Rename(p));
    t := WithLater(t, Apply(Later(t), Rename(p)));
    assert t.later.staging == Some(map[]) && [] + [Done(p)] == [Done(p)];
    h := Run(b, c, h, start, t, WriteRow(Done(p)));
    t := WithLater(t, Apply(Later(t), WriteRow(Done(p))));
  }

  lemma LaterComposes(b: Plan, c: Plan, start: Tree, p: Path, bytes: Bytes, m: Payload) returns (h: seq<Tree>, t: Tree)
    requires Stopped(b, c, start) && m.run == c.run && Mismatched(start.target[p := bytes], m) == c.gap
    ensures GotTo(b, c, h, start, t)
    ensures t == start.(later := Scratch(Some(map[p := bytes]), false, Some([]), false, Some(m)))
  {
    hide TwoRuns, Inv, Mismatched;
    h, t := LaterStages(b, c, start, p, bytes);
    assert Overlay(Later(t)) == start.target[p := bytes];
    h := Run(b, c, h, start, t, WritePending(m));
    t := WithLater(t, Apply(Later(t), WritePending(m)));
    h := Run(b, c, h, start, t, OpenJournal);
    t := WithLater(t, Apply(Later(t), OpenJournal));
  }

  lemma LaterStages(b: Plan, c: Plan, start: Tree, p: Path, bytes: Bytes) returns (h: seq<Tree>, t: Tree)
    requires Stopped(b, c, start)
    ensures GotTo(b, c, h, start, t)
    ensures t == start.(later := Scratch(Some(map[p := bytes]), false, None, false, None))
  {
    h := [start];
    h := Run(b, c, h, start, start, MakeStaging);
    t := WithLater(start, Apply(Later(start), MakeStaging));
    h := Run(b, c, h, start, t, Stage(p, bytes));
    t := WithLater(t, Apply(Later(t), Stage(p, bytes)));
  }

  /** Recovery renames a file it finds staged: at once, or after it has set aside a sidecar or begun to remove the tree. */
  lemma EarlierRenames(b: Plan, c: Plan, h0: seq<Tree>, start: Tree, t0: Tree, p: Path) returns (h: seq<Tree>, t: Tree)
    requires GotTo(b, c, h0, start, t0) && t0.earlier == start.earlier && Inv(b, Earlier(start))
    requires p in Staged(Earlier(start))
    ensures GotTo(b, c, h, start, t)
    ensures t.target == t0.target[p := Staged(Earlier(start))[p]] && t.final == t0.final && t.later == t0.later
  {
    hide TwoRuns, Mismatched;
    h, t := EarlierUnblocks(b, c, h0, start, t0);
    hide Inv;
    if t.earlier.journal.None? {
      h := Recover(b, c, h, start, t, OpenJournal);
      t := WithEarlier(t, Apply(Earlier(t), OpenJournal));
    }
    h := Recover(b, c, h, start, t, Rename(p));
    t := WithEarlier(t, Apply(Earlier(t), Rename(p)));
  }

  lemma EarlierUnblocks(b: Plan, c: Plan, h0: seq<Tree>, start: Tree, t0: Tree) returns (h: seq<Tree>, t: Tree)
    requires GotTo(b, c, h0, start, t0) && t0.earlier == start.earlier && Inv(b, Earlier(start))
    requires Staged(Earlier(start)) != map[]
    ensures GotTo(b, c, h, start, t)
    ensures t.target == t0.target && t.final == t0.final && t.later == t0.later
    ensures t.earlier.staging == start.earlier.staging && !t.earlier.aborted
    ensures t.earlier.journal.Some? || t.earlier.pending.None?
  {
    hide TwoRuns, Mismatched;
    h, t := h0, t0;
    if t.earlier.aborted {
      h := Recover(b, c, h, start, t, RemovePending);
      t := WithEarlier(t, Apply(Earlier(t), RemovePending));
      h := Recover(b, c, h, start, t, RemoveMarker);
      t := WithEarlier(t, Apply(Earlier(t), RemoveMarker));
    } else if t.earlier.pending.Some? && t.earlier.journal.None? {
      h := Recover(b, c, h, start, t, QuarantinePending);
      t := WithEarlier(t, Apply(Earlier(t), QuarantinePending));
    }
  }

  /** Recovery undoes a completed rename: the abort marker is there, or a rename fails first. */
  lemma EarlierRollsBack(b: Plan, c: Plan, h0: seq<Tree>, start: Tree, t0: Tree, p: Path, bytes: Bytes)
    returns (h: seq<Tree>, t: Tree)
    requires GotTo(b, c, h0, start, t0) && t0.earlier == start.earlier
    requires p in Completed(Rows(Earlier(start))) && (t0.earlier.aborted || Staged(Earlier(start)) != map[])
    ensures GotTo(b, c, h, start, t)
    ensures t.target == t0.target[p := bytes] && t.final == t0.final && t.later == t0.later
  {
    hide TwoRuns, Mismatched;
    h, t := h0, t0;
    assert Rows(Earlier(t0)) != [];
    if !t.earlier.aborted {
      h := Recover(b, c, h, start, t, MarkAborted);
      t := WithEarlier(t, Apply(Earlier(t), MarkAborted));
    }
    h := Recover(b, c, h, start, t, RestoreBackup(p, bytes));
    t := WithEarlier(t, Apply(Earlier(t), RestoreBackup(p, bytes)));
  }

  /** Recovery publishes the sidecar of the earlier run. */
  lemma EarlierPublishes(b: Plan, c: Plan, h0: seq<Tree>, start: Tree, t0: Tree) returns (h: seq<Tree>, t: Tree)
    requires GotTo(b, c, h0, start, t0) && t0.earlier == start.earlier && Inv(b, Earlier(start))
    requires Finishable(Earlier(start)) && OnlyModes(Staged(Earlier(start)).Keys)
    ensures GotTo(b, c, h, start, t)
    ensures t.target - {ROOMODES} == t0.target - {ROOMODES} && t.final == start.earlier.pending
  {
    hide TwoRuns, Mismatched;
    h, t := h0, t0;
    if !t.earlier.sentinel {
      if ROOMODES in Staged(Earlier(t)) {
        h := Recover(b, c, h, start, t, Rename(ROOMODES));
        t := WithEarlier(t, Apply(Earlier(t), Rename(ROOMODES)));
      }
      assert t.earlier.staging == Some(map[]);
      h := Recover(b, c, h, start, t, WriteSentinel);
      t := WithEarlier(t, Apply(Earlier(t), WriteSentinel));
    }
    h := Recover(b, c, h, start, t, Finalize);
    t := WithEarlier(t, Apply(Earlier(t), Finalize));
  }

  /** The second run publishes `p`, and one write of the recovery to `p` makes its manifest wrong. */
  lemma WriteDisturbs(b: Plan, c: Plan, start: Tree, p: Path) returns (h: seq<Tree>)
    requires Stopped(b, c, start) && p != ROOMODES
    requires
      || p in Staged(Earlier(start))
      || ((start.earlier.aborted || Staged(Earlier(start)) != map[]) && p in Completed(Rows(Earlier(start))))
    ensures TwoRuns(b, c, h) && h[0] == start && !Right(b, c, start, Last(h))
  {
    hide TwoRuns, Mismatched, Inv, Composed;
    var second := if p in Staged(Earlier(start)) then Staged(Earlier(start))[p] else "";
    var first := second + "x";
    assert |first| == |second| + 1;
    OneWriteSpoils(c, start.target, p, first, second);
    var m := Composed(c, start.target, p, Sha(if p in c.gap then second else first));
    ComposedRun(c, start.target, p, Sha(if p in c.gap then second else first));
    var t: Tree;
    h, t := LaterPublishes(b, c, start, p, first, m);
    assert t.target[p := second] == start.target[p := second];
    if p in Staged(Earlier(start)) {
      h, t := EarlierRenames(b, c, h, start, t, p);
    } else {
      h, t := EarlierRollsBack(b, c, h, start, t, p, second);
    }
    WrongAboutLater(b, c, start, t);
  }

  lemma ComposedRun(c: Plan, files: map<Path, Bytes>, p: Path, hash: Digest)
    ensures Composed(c, files, p, hash).run == c.run
  {
  }

  lemma WrongAboutLater(b: Plan, c: Plan, start: Tree, t: Tree)
    requires t.final.Some? && t.final.value.run == c.run && Mismatched(t.target, t.final.value) != c.gap
    ensures !Right(b, c, start, t)
  {
  }

  /** The second run writes other bytes to a path the sidecar of the first records, and recovery publishes that. */
  lemma SidecarDisturbs(b: Plan, c: Plan, start: Tree, p: Path) returns (h: seq<Tree>)
    requires Stopped(b, c, start) && OnlyModes(Staged(Earlier(start)).Keys) && Finishable(Earlier(start))
    requires p in start.earlier.pending.value.owned && p != ROOMODES
    ensures TwoRuns(b, c, h) && h[0] == start && !Right(b, c, start, Last(h))
  {
    var was := start.earlier.pending.value;
    var first := if p in b.gap then was.owned[p].bytes else was.owned[p].bytes + "x";
    assert |was.owned[p].bytes + "x"| == |was.owned[p].bytes| + 1;
    var second := first + "x";
    assert |second| == |first| + 1;
    OneWriteSpoils(c, start.target, p, first, second);
    var m := Composed(c, start.target, p, Sha(if p in c.gap then second else first));
    ComposedRun(c, start.target, p, Sha(if p in c.gap then second else first));
    var t: Tree;
    hide TwoRuns, Composed;
    h, t := LaterPublishes(b, c, start, p, first, m);
    h, t := EarlierPublishes(b, c, h, start, t);
    SidecarIsWrong(b, was, start.target[p := first], p, t.target);
    SidecarUnpublished(b, Earlier(start));
    WrongAboutEarlier(b, c, start, t);
  }

  lemma SidecarIsWrong(b: Plan, m: Payload, files: map<Path, Bytes>, p: Path, files': map<Path, Bytes>)
    requires p in m.owned && p != ROOMODES && p in files && files' - {ROOMODES} == files - {ROOMODES}
    requires Sha(files[p]) == m.owned[p] <==> p in b.gap
    ensures Mismatched(files', m) != b.gap
  {
    OnlyModesDiffer(files, files', map[], m);
    assert p in Mismatched(files, m) <==> p !in b.gap;
  }

  lemma SidecarUnpublished(b: Plan, d: Disk)
    requires Inv(b, d) && d.pending.Some?
    ensures !Published(b, d) && d.pending.value.run == b.run
  {
  }

  lemma WrongAboutEarlier(b: Plan, c: Plan, start: Tree, t: Tree)
    requires !Published(b, Earlier(start))
    requires t.final.Some? && t.final.value.run == b.run && Mismatched(t.target, t.final.value) != b.gap
    ensures !Right(b, c, start, t)
  {
  }

  /** The property over both runs holds in every history, however the steps mix, exactly when the leftover does not
      disturb. */
  lemma LeftoverExactly(b: Plan, c: Plan, start: Tree)
    requires Stopped(b, c, start)
    ensures (forall h, i :: TwoRuns(b, c, h) && h[0] == start && 0 <= i < |h| ==> Right(b, c, start, h[i]))
            <==> !Disturbs(Earlier(start))
  {
    if Disturbs(Earlier(start)) {
      var h := SomeHistoryIsWrong(b, c, start);
      assert !Right(b, c, start, h[|h| - 1]);
    } else {
      hide Stopped, Disturbs, TwoRuns, Right, TreeInv;
      forall h, i | TwoRuns(b, c, h) && h[0] == start && 0 <= i < |h| ensures Right(b, c, start, h[i]) {
        TreeInvThroughout(b, c, h, i);
        TreeInvIsRight(b, c, start, h[i]);
      }
    }
  }

  lemma SomeHistoryIsWrong(b: Plan, c: Plan, start: Tree) returns (h: seq<Tree>)
    requires Stopped(b, c, start) && Disturbs(Earlier(start))
    ensures TwoRuns(b, c, h) && h[0] == start && !Right(b, c, start, Last(h))
  {
    var d := Earlier(start);
    if p :| p in Staged(d) && p != ROOMODES {
      h := WriteDisturbs(b, c, start, p);
    } else if d.aborted || Staged(d) != map[] {
      if p :| p in Completed(Rows(d)) && p != ROOMODES {
        h := WriteDisturbs(b, c, start, p);
      } else {
        var p :| p in d.pending.value.owned && p != ROOMODES;
        h := SidecarDisturbs(b, c, start, p);
      }
    } else {
      var p :| p in d.pending.value.owned && p != ROOMODES;
      h := SidecarDisturbs(b, c, start, p);
    }
  }

  // --------------------------------------------------------------- one such history

  const FIRST := Plan(1, {})
  const SECOND := Plan(2, {})

  function FirstManifest(): Payload {
    Payload(1, "1", map["a" := Sha("a1"), "b" := Sha("b1")])
  }

  function SecondManifest(): Payload {
    Payload(2, "2", map["a" := Sha("a2"), "b" := Sha("b2")])
  }

  /** The first run has staged two files and installed one of them. */
  function CrashedFirst(): Tree {
    Tree(map["a" := "a1"], None, map[], [],
         Scratch(Some(map["b" := "b1"]), false, Some([Done("a")]), false, Some(FirstManifest())), NO_SCRATCH)
  }

  lemma Act(plan: Plan, h: seq<Disk>, d: Disk, a: Action) returns (h': seq<Disk>)
    requires History(plan, h) && h[|h| - 1] == d && Enabled(plan, d, a)
    ensures History(plan, h') && h'[0] == h[0] && h'[|h'| - 1] == Apply(d, a)
  {
    hide Enabled, Apply;
    Extend(plan, h, a);
    h' := h + [Apply(d, a)];
  }

  /** A crash really leaves the directory so. */
  lemma FirstCanCrashThere() returns (h: seq<Disk>)
    ensures History(FIRST, h) && Before(FIRST, h[0]) && h[|h| - 1] == Earlier(CrashedFirst())
  {
    var d := Disk(map[], None, false, None, false, None, None, map[], []);
    h := [d];
    assert History(FIRST, h);
    hide History, Mismatched;
    h := Act(FIRST, h, d, MakeStaging);
    d := Apply(d, MakeStaging);
    h := Act(FIRST, h, d, Stage("a", "a1"));
    d := Apply(d, Stage("a", "a1"));
    h := Act(FIRST, h, d, Stage("b", "b1"));
    d := Apply(d, Stage("b", "b1"));
    assert d.staging == Some(map["a" := "a1", "b" := "b1"]);
    NothingWrong(d, FIRST, FirstManifest());
    h := Act(FIRST, h, d, WritePending(FirstManifest()));
    d := Apply(d, WritePending(FirstManifest()));
    h := Act(FIRST, h, d, OpenJournal);
    d := Apply(d, OpenJournal);
    h := Act(FIRST, h, d, Rename("a"));
    d := Apply(d, Rename("a"));
    h := Act(FIRST, h, d, WriteRow(Done("a")));
    d := Apply(d, WriteRow(Done("a")));
    assert [] + [Done("a")] == [Done("a")];
    assert d.staging.value == map["b" := "b1"] && d.target == map["a" := "a1"] && d.journal == Some([Done("a")]);
  }

  lemma NothingWrong(d: Disk, plan: Plan, m: Payload)
    requires plan.gap == {} && forall p :: p in m.owned ==> Agrees(Overlay(d), p, m.owned[p])
    ensures Mismatched(Overlay(d), m) == plan.gap
  {
  }

  /** The second run, over the crashed first: it stages both files, and installs and publishes them. */
  lemma SecondComposes() returns (h: seq<Tree>, t: Tree)
    ensures GotTo(FIRST, SECOND, h, CrashedFirst(), t)
    ensures t == CrashedFirst().(later := Scratch(Some(map["a" := "a2", "b" := "b2"]), false, Some([]), false,
                                                  Some(SecondManifest())))
  {
    t := CrashedFirst();
    h := [t];
    assert GotTo(FIRST, SECOND, h, CrashedFirst(), t);
    hide GotTo, Mismatched;
    h := Run(FIRST, SECOND, h, CrashedFirst(), t, MakeStaging);
    t := WithLater(t, Apply(Later(t), MakeStaging));
    h := Run(FIRST, SECOND, h, CrashedFirst(), t, Stage("a", "a2"));
    t := WithLater(t, Apply(Later(t), Stage("a", "a2")));
    h := Run(FIRST, SECOND, h, CrashedFirst(), t, Stage("b", "b2"));
    t := WithLater(t, Apply(Later(t), Stage("b", "b2")));
    assert t.later.staging == Some(map["a" := "a2", "b" := "b2"]);
    NothingWrong(Later(t), SECOND, SecondManifest());
    h := Run(FIRST, SECOND, h, CrashedFirst(), t, WritePending(SecondManifest()));
    t := WithLater(t, Apply(Later(t), WritePending(SecondManifest())));
    h := Run(FIRST, SECOND, h, CrashedFirst(), t, OpenJournal);
    t := WithLater(t, Apply(Later(t), OpenJournal));
  }

  lemma SecondInstalls() returns (h: seq<Tree>, t: Tree)
    ensures GotTo(FIRST, SECOND, h, CrashedFirst(), t) && t.earlier == CrashedFirst().earlier
    ensures t.target == map["a" := "a2", "b" := "b2"] && t.later.pending == Some(SecondManifest())
    ensures t.later.staging == Some(map[]) && !t.later.aborted && t.later.journal.Some?
  {
    h, t := SecondComposes();
    hide GotTo, Mismatched;
    h := Run(FIRST, SECOND, h, CrashedFirst(), t, Rename("a"));
    t := WithLater(t, Apply(Later(t), Rename("a")));
    h := Run(FIRST, SECOND, h, CrashedFirst(), t, WriteRow(Done("a")));
    t := WithLater(t, Apply(Later(t), WriteRow(Done("a"))));
    h := Run(FIRST, SECOND, h, CrashedFirst(), t, Rename("b"));
    t := WithLater(t, Apply(Later(t), Rename("b")));
    h := Run(FIRST, SECOND, h, CrashedFirst(), t, WriteRow(Done("b")));
    t := WithLater(t, Apply(Later(t), WriteRow(Done("b"))));
    assert t.later.staging == Some(map[]) && t.target == map["a" := "a2", "b" := "b2"];
  }

  lemma SecondPublishes() returns (h: seq<Tree>, t: Tree)
    ensures GotTo(FIRST, SECOND, h, CrashedFirst(), t) && t.earlier == CrashedFirst().earlier
    ensures t.target == map["a" := "a2", "b" := "b2"] && t.final == Some(SecondManifest()) && t.later == NO_SCRATCH
  {
    h, t := SecondInstalls();
    hide GotTo, Mismatched;
    h := Run(FIRST, SECOND, h, CrashedFirst(), t, WriteSentinel);
    t := WithLater(t, Apply(Later(t), WriteSentinel));
    h := Run(FIRST, SECOND, h, CrashedFirst(), t, Finalize);
    t := WithLater(t, Apply(Later(t), Finalize));
    h := Run(FIRST, SECOND, h, CrashedFirst(), t, RemoveSentinel);
    t := WithLater(t, Apply(Later(t), RemoveSentinel));
    h := Run(FIRST, SECOND, h, CrashedFirst(), t, RemoveJournal);
    t := WithLater(t, Apply(Later(t), RemoveJournal));
    h := Run(FIRST, SECOND, h, CrashedFirst(), t, RemoveStagingDir);
    t := WithLater(t, Apply(Later(t), RemoveStagingDir));
  }

  /** Two installs and one recovery: the second publishes a manifest that is right, and then the recovery of the first
      renames the file it had left, over the second's, and publishes the first's manifest, which is wrong about the
      other. */
  lemma RecoveryAfterASecondRun() returns (h: seq<Tree>, k: nat)
    ensures TwoRuns(FIRST, SECOND, h) && Stopped(FIRST, SECOND, h[0]) && h[0] == CrashedFirst() && k < |h|
    ensures h[k].final == Some(SecondManifest()) && Mismatched(h[k].target, SecondManifest()) == {}
    ensures Last(h).final == Some(FirstManifest()) && Mismatched(Last(h).target, FirstManifest()) == {"a"}
  {
    var t: Tree;
    h, t := SecondPublishes();
    k := |h| - 1;
    NothingMismatched(t.target, SecondManifest());
    h, t := FirstIsRecovered(h, t);
    FirstIsStopped();
    hide TwoRuns, Stopped, Mismatched;
  }

  lemma FirstIsRecovered(h0: seq<Tree>, t0: Tree) returns (h: seq<Tree>, t: Tree)
    requires GotTo(FIRST, SECOND, h0, CrashedFirst(), t0) && t0.earlier == CrashedFirst().earlier
    requires t0.target == map["a" := "a2", "b" := "b2"]
    ensures GotTo(FIRST, SECOND, h, CrashedFirst(), t) && h0 <= h
    ensures t.final == Some(FirstManifest()) && Mismatched(t.target, FirstManifest()) == {"a"}
  {
    h, t := h0, t0;
    hide GotTo, Mismatched;
    h := Recover(FIRST, SECOND, h, CrashedFirst(), t, Rename("b"));
    t := WithEarlier(t, Apply(Earlier(t), Rename("b")));
    assert t.earlier.staging == Some(map[]);
    h := Recover(FIRST, SECOND, h, CrashedFirst(), t, WriteRow(Done("b")));
    t := WithEarlier(t, Apply(Earlier(t), WriteRow(Done("b"))));
    h := Recover(FIRST, SECOND, h, CrashedFirst(), t, WriteSentinel);
    t := WithEarlier(t, Apply(Earlier(t), WriteSentinel));
    h := Recover(FIRST, SECOND, h, CrashedFirst(), t, Finalize);
    t := WithEarlier(t, Apply(Earlier(t), Finalize));
    assert t.target == map["a" := "a2", "b" := "b1"];
    WrongAboutA(t.target);
  }

  lemma WrongAboutA(files: map<Path, Bytes>)
    requires files == map["a" := "a2", "b" := "b1"]
    ensures Mismatched(files, FirstManifest()) == {"a"}
  {
    assert "a2" != "a1" && "a" != ROOMODES;
    assert !Agrees(files, "a", Sha("a1")) && Agrees(files, "b", Sha("b1"));
  }

  lemma NothingMismatched(files: map<Path, Bytes>, m: Payload)
    requires forall p :: p in m.owned ==> Agrees(files, p, m.owned[p])
    ensures Mismatched(files, m) == {}
  {
  }

  lemma FirstIsStopped()
    ensures Stopped(FIRST, SECOND, CrashedFirst())
  {
    var h := FirstCanCrashThere();
    BeforeSatisfiesInv(FIRST, h[0]);
    HistoryKeepsInv(FIRST, h, |h| - 1);
  }
}
