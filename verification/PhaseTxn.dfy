/** The audited state transaction: write a temporary file, log every draft, then replace the state file. */
module PhaseTxn {
  import opened Prelude
  import Transition
  import opened AuditTail
  import opened AuditLog

  const PRIMARY_NAME := "phase-state.json.lock"

  /** What the caller passes as `lock`. */
  datatype Lock = NoLock | Lock(directory: string, name: string, released: bool)

  datatype Request =
    Request(before: Option<Transition.PhaseState>, after: Transition.PhaseState, single: Option<Draft>, several: Option<seq<Draft>>)

  datatype TxnOutcome = Committed | LockMissing | NoDrafts | TmpExists | RowTooLong | ReplaceFailed

  /** The canonical bytes of a state; distinct states have distinct bytes. */
  type Canonical = Transition.PhaseState -> seq<Byte>

  ghost predicate Injective(canonical: Canonical) {
    forall s, t :: canonical(s) == canonical(t) ==> s == t
  }

  function ResolvedDrafts(r: Request): seq<Draft> {
    if r.several.Some? && r.several.value != [] then r.several.value
    else if r.single.Some? then [r.single.value]
    else []
  }

  predicate LockIsHeld(lock: Lock, scratch: string) {
    lock.Lock? && !lock.released && lock.directory == scratch && lock.name == PRIMARY_NAME
  }

  function StampFor(canonical: Canonical, r: Request, txnId: nat): TxnStamp {
    TxnStamp(txnId, if r.before.Some? then Sha(canonical(r.before.value)) else NoHash, Sha(canonical(r.after)))
  }

  function Stamped(drafts: seq<Draft>, stamp: TxnStamp): seq<Entry> {
    seq(|drafts|, i requires 0 <= i < |drafts| => Entry(drafts[i], Some(stamp)))
  }

  function EntriesFor(canonical: Canonical, r: Request, txnId: nat): seq<Entry> {
    Stamped(ResolvedDrafts(r), StampFor(canonical, r, txnId))
  }

  /** What a crash would leave behind. */
  datatype Snapshot = Snapshot(state: Option<seq<Byte>>, tmp: Option<seq<Byte>>, log: Dir)

  // -------------------------------------------------------------- rows of a commit

  /** The index given to the `i`-th row appended to a file that already has `count` rows. */
  function IndexOf(count: nat, i: nat): nat {
    (count + i) % ROTATION_ENTRIES + 1
  }

  /** The append of `entry` as the `i`-th row raises: even its minimal form is too long. */
  predicate TooLong(c: Codec, entry: Entry, index: nat) {
    !Fits(c, Full(entry, index)) && !Fits(c, Truncated(entry, index)) && !Fits(c, Minimal(entry, index))
  }

  predicate NoneTooLong(c: Codec, entries: seq<Entry>, count: nat) {
    forall i :: 0 <= i < |entries| ==> !TooLong(c, entries[i], IndexOf(count, i))
  }

  /** The guard of the minimal fallback never fires. */
  predicate NoMinimalFallback(c: Codec, entries: seq<Entry>, count: nat) {
    forall i :: 0 <= i < |entries| ==>
      Fits(c, Full(entries[i], IndexOf(count, i))) || Fits(c, Truncated(entries[i], IndexOf(count, i)))
  }

  /** Row by row: the row each entry fits in. */
  predicate RowsFit(c: Codec, entries: seq<Entry>, rows: seq<Row>, count: nat) {
    && |rows| == |entries|
    && forall i :: 0 <= i < |entries| ==> Some(rows[i]) == RowFor(c, entries[i], IndexOf(count, i))
  }

  /** Which row each entry is stored as, whatever rotations happen in between. */
  lemma {:induction false} RowsOfAppends(c: Codec, d: Dir, entries: seq<Entry>)
    requires Tidy(c, d) && NoneTooLong(c, entries, |d.current|)
    ensures RowsFit(c, entries, AppendAll(c, d, entries).1, |d.current|)
    ensures |AppendAll(c, d, entries).0.current| <= ROTATION_ENTRIES
    ensures |AppendAll(c, d, entries).0.current| % ROTATION_ENTRIES == (|d.current| + |entries|) % ROTATION_ENTRIES
  {
    assert |d.current| <= ROTATION_ENTRIES;
    hide Fits, Tidy, Prepared, RowFor, AppendEntry, TooLong, IndexOf;
    if entries != [] {
      var last := |entries| - 1;
      var front := entries[..last];
      FrontIsShortEnough(c, entries, |d.current|);
      RowsOfAppends(c, d, front);
      var (prior, rows) := AppendAll(c, d, front);
      OneMoreAppended(c, prior, entries[last], |d.current|, last, |d.current| + last);
      hide RowsFit, NoneTooLong;
      RowsFitSnoc(c, entries, rows, AppendEntry(c, prior, entries[last]).1.value, |d.current|);
    }
  }

  lemma RowsFitSnoc(c: Codec, entries: seq<Entry>, rows: seq<Row>, row: Row, count: nat)
    requires entries != [] && RowsFit(c, entries[..|entries| - 1], rows, count)
    requires Some(row) == RowFor(c, entries[|entries| - 1], IndexOf(count, |entries| - 1))
    ensures RowsFit(c, entries, rows + [row], count)
  {
    hide RowFor, IndexOf;
    var front := entries[..|entries| - 1];
    forall i | 0 <= i < |entries| ensures Some((rows + [row])[i]) == RowFor(c, entries[i], IndexOf(count, i)) {
      if i < |front| {
        assert front[i] == entries[i];
      }
    }
  }

  lemma FrontIsShortEnough(c: Codec, entries: seq<Entry>, count: nat)
    requires entries != [] && NoneTooLong(c, entries, count)
    ensures NoneTooLong(c, entries[..|entries| - 1], count)
    ensures !TooLong(c, entries[|entries| - 1], IndexOf(count, |entries| - 1))
  {
    hide TooLong;
    var front := entries[..|entries| - 1];
    forall i | 0 <= i < |front| ensures !TooLong(c, front[i], IndexOf(count, i)) {
      assert front[i] == entries[i];
    }
  }

  /** One append to a file that has had `total` rows, wherever the rotations fell. */
  lemma OneMoreAppended(c: Codec, d: Dir, entry: Entry, count: nat, i: nat, total: nat)
    requires |d.current| <= ROTATION_ENTRIES && |d.current| % ROTATION_ENTRIES == total % ROTATION_ENTRIES
    requires !TooLong(c, entry, IndexOf(count, i)) && total == count + i
    ensures AppendEntry(c, d, entry).1 == RowFor(c, entry, IndexOf(count, i))
    ensures AppendEntry(c, d, entry).1.Some?
    ensures |AppendEntry(c, d, entry).0.current| <= ROTATION_ENTRIES
    ensures |AppendEntry(c, d, entry).0.current| % ROTATION_ENTRIES == (total + 1) % ROTATION_ENTRIES
  {
    NextIndex(d, total);
    hide Fits, Prepared;
  }

  lemma NextIndex(d: Dir, total: nat)
    requires |d.current| <= ROTATION_ENTRIES && |d.current| % ROTATION_ENTRIES == total % ROTATION_ENTRIES
    ensures |Prepared(d).current| == total % ROTATION_ENTRIES
  {
  }

  /** Every row of the commit is on disk and carries its transaction fields. */
  ghost predicate Logged(d: Dir, rows: seq<Row>, stamp: TxnStamp) {
    forall row :: row in rows ==> row in Contents(d) && StampOf(row) == Some(stamp)
  }

  /** A committed transaction is fully logged exactly when the minimal fallback, which drops the transaction id and
      the hashes, was not needed for any draft. */
  lemma LoggedExactly(c: Codec, d: Dir, past: seq<Row>, drafts: seq<Draft>, stamp: TxnStamp)
    requires Tidy(c, d) && Retains(d, past) && |drafts| <= RETAINED
    requires NoneTooLong(c, Stamped(drafts, stamp), |d.current|)
    ensures
      var (d', rows) := AppendAll(c, d, Stamped(drafts, stamp));
      Logged(d', rows, stamp) <==> NoMinimalFallback(c, Stamped(drafts, stamp), |d.current|)
  {
    hide Tidy, Retains, AppendAll, Contents;
    var entries := Stamped(drafts, stamp);
    var (d', rows) := AppendAll(c, d, entries);
    RowsOfAppends(c, d, entries);
    AppendAllRetains(c, d, past, entries);
    forall row | row in rows ensures row in Contents(d') {
      var i :| 0 <= i < |rows| && rows[i] == row;
      assert (past + rows)[|past| + i] == row;
      RecentRowIsThere(d', past + rows, |past| + i);
    }
    forall i | 0 <= i < |rows|
      ensures StampOf(rows[i]) == Some(stamp) <==>
              Fits(c, Full(entries[i], IndexOf(|d.current|, i))) || Fits(c, Truncated(entries[i], IndexOf(|d.current|, i)))
    {
      assert Some(rows[i]) == RowFor(c, entries[i], IndexOf(|d.current|, i));
    }
    if Logged(d', rows, stamp) {
      forall i | 0 <= i < |entries|
        ensures Fits(c, Full(entries[i], IndexOf(|d.current|, i))) || Fits(c, Truncated(entries[i], IndexOf(|d.current|, i)))
      {
        assert rows[i] in rows;
      }
    }
  }

  /** The rows, in order, of the drafts of one commit: each full or truncated row carries the transaction id, the hash of
      the state before and that of the state after. */
  ghost predicate Says(rows: seq<Row>, drafts: seq<Draft>, txnId: nat, before: Hash, after: Hash) {
    && |rows| == |drafts|
    && forall i :: 0 <= i < |rows| ==>
         && rows[i].entry.draft == drafts[i]
         && (!rows[i].Minimal? ==> rows[i].entry.txn == Some(TxnStamp(txnId, before, after)))
  }

  /** What was logged for a request: its several drafts, or the single one when there are none. */
  ghost predicate LogsRequest(rows: seq<Row>, r: Request, txnId: nat, before: Hash, after: Hash) {
    if r.several.Some? && r.several.value != [] then Says(rows, r.several.value, txnId, before, after)
    else r.single.Some? && Says(rows, [r.single.value], txnId, before, after)
  }

  lemma LoggedRows(c: Codec, d: Dir, past: seq<Row>, canonical: Canonical, r: Request, txnId: nat)
    requires Tidy(c, d) && Retains(d, past) && ResolvedDrafts(r) != []
    requires NoneTooLong(c, EntriesFor(canonical, r, txnId), |d.current|)
    ensures
      var (d', rows) := AppendAll(c, d, EntriesFor(canonical, r, txnId));
      && LogsRequest(rows, r, txnId, HashOf(canonical, r.before), Sha(canonical(r.after)))
      && (|rows| <= RETAINED ==> IsSuffix(rows, Contents(d')))
  {
    var entries := EntriesFor(canonical, r, txnId);
    RowsOfAppends(c, d, entries);
    AppendAllRetains(c, d, past, entries);
    var (d', rows) := AppendAll(c, d, entries);
    RowsSay(c, r, canonical, txnId, rows, |d.current|);
    hide Tidy, AppendAll, Contents, NoneTooLong, RowsFit, LogsRequest, EntriesFor, IsSuffix;
    if |rows| <= RETAINED {
      KeptToTheEnd(past, rows, d');
    }
  }

  lemma RowsSay(c: Codec, r: Request, canonical: Canonical, txnId: nat, rows: seq<Row>, count: nat)
    requires ResolvedDrafts(r) != [] && RowsFit(c, EntriesFor(canonical, r, txnId), rows, count)
    ensures LogsRequest(rows, r, txnId, HashOf(canonical, r.before), Sha(canonical(r.after)))
  {
    var entries := EntriesFor(canonical, r, txnId);
    hide Fits, IndexOf;
    forall i | 0 <= i < |rows|
      ensures rows[i].entry.draft == ResolvedDrafts(r)[i]
      ensures rows[i].entry.txn == Some(TxnStamp(txnId, HashOf(canonical, r.before), Sha(canonical(r.after))))
    {
      assert Some(rows[i]) == RowFor(c, entries[i], IndexOf(count, i));
    }
  }

  lemma KeptToTheEnd(past: seq<Row>, rows: seq<Row>, d: Dir)
    requires Retains(d, past + rows) && |rows| <= RETAINED
    ensures IsSuffix(rows, Contents(d))
  {
    hide Contents;
    SuffixOfSuffix(past, rows, Contents(d));
  }

  function HashOf(canonical: Canonical, state: Option<Transition.PhaseState>): Hash {
    if state.Some? then Sha(canonical(state.value)) else NoHash
  }

  lemma SuffixOfSuffix(past: seq<Row>, rows: seq<Row>, kept: seq<Row>)
    requires IsSuffix(kept, past + rows) && |kept| >= |rows|
    ensures IsSuffix(rows, kept)
  {
  }

  // ------------------------------------------------------------------- the commit

  /** Safe to crash in: the state file is the old one, or the new one with every row of the commit appended. */
  ghost predicate CrashSafe(s: Snapshot, before: Snapshot, after: seq<Byte>, c: Codec, entries: seq<Entry>) {
    || s.state == before.state
    || (s.state == Some(after) && s.log == AppendAll(c, before.log, entries).0
        && NoneTooLong(c, entries, |before.log.current|))
  }

  class TxnDirectory {
    const scratch: string
    const canonical: Canonical
    const log: Log
    var state: Option<seq<Byte>>
    var tmp: Option<seq<Byte>>

    constructor (scratch: string, canonical: Canonical, log: Log, state: Option<seq<Byte>>)
      ensures this.scratch == scratch && this.canonical == canonical && this.log == log
      ensures this.state == state && tmp == None
    {
      this.scratch, this.canonical, this.log := scratch, canonical, log;
      this.state, tmp := state, None;
    }

    ghost function Now(): Snapshot
      reads this, log
    {
      Snapshot(state, tmp, log.Now())
    }

    /** `replaceWorks` is whether the final rename succeeds. Also returns what a crash would leave at each point
        between two file operations on the state directory. */
    method CommitTransaction(lock: Lock, request: Request, txnId: nat, replaceWorks: bool)
      returns (outcome: TxnOutcome, ghost steps: seq<Snapshot>)
      requires log.Valid()
      modifies this, log
      ensures log.Valid()
      ensures
        var entries := EntriesFor(canonical, request, txnId);
        && (outcome == LockMissing <==> !LockIsHeld(lock, scratch))
        && (outcome == NoDrafts <==> LockIsHeld(lock, scratch) && entries == [])
        && (outcome == TmpExists <==> LockIsHeld(lock, scratch) && entries != [] && old(tmp).Some?)
        && (outcome in {RowTooLong, ReplaceFailed, Committed} ==>
              (outcome == RowTooLong <==> !NoneTooLong(log.codec, entries, old(|log.current|))))
        && (outcome == ReplaceFailed ==> !replaceWorks) && (outcome == Committed ==> replaceWorks)
      ensures outcome in {LockMissing, NoDrafts, TmpExists} ==> Now() == old(Now())
      ensures outcome in {RowTooLong, ReplaceFailed} ==>
                state == old(state) && tmp == Some(canonical(request.after))
      ensures outcome == Committed ==> state == Some(canonical(request.after)) && tmp == None
      ensures
        var entries := EntriesFor(canonical, request, txnId);
        outcome in {ReplaceFailed, Committed} ==>
          && log.Now() == AppendAll(log.codec, old(log.Now()), entries).0
          && log.appended == old(log.appended) + AppendAll(log.codec, old(log.Now()), entries).1
      ensures outcome == Committed ==>
                var rows := log.appended[old(|log.appended|)..];
                && state.Some? && LogsRequest(rows, request, txnId, HashOf(canonical, request.before), Sha(state.value))
                && (|rows| <= RETAINED ==> IsSuffix(rows, Contents(log.Now())))
      ensures forall s :: s in steps + [Now()] ==>
                CrashSafe(s, old(Now()), canonical(request.after), log.codec, EntriesFor(canonical, request, txnId))
    {
      hide Tidy, Retains, AppendEntry, Contents, NoneTooLong, TooLong, AppendAll, Faithful, LogsRequest, IsSuffix;
      steps := [];
      if !LockIsHeld(lock, scratch) {
        return LockMissing, steps;
      }
      var bytes := canonical(request.after);
      var stamp := StampFor(canonical, request, txnId);
      var drafts := ResolvedDrafts(request);
      ghost var entries := EntriesFor(canonical, request, txnId);
      if drafts == [] {
        return NoDrafts, steps;
      }
      if tmp.Some? {
        return TmpExists, steps;
      }
      tmp := Some([]);
      steps := steps + [Now()];
      tmp := Some(bytes);
      steps := steps + [Now()];
      ghost var before := log.Now();
      ghost var past := log.appended;
      NothingAppended(log.codec, before);
      assert entries[..0] == [] && past + [] == past;
      for i := 0 to |drafts|
        invariant log.Valid() && state == old(state) && tmp == Some(bytes)
        invariant NoneTooLong(log.codec, entries[..i], |before.current|)
        invariant log.Now() == AppendAll(log.codec, before, entries[..i]).0
        invariant log.appended == past + AppendAll(log.codec, before, entries[..i]).1
        invariant forall s :: s in steps ==> s.state == old(state)
      {
        var entry := Entry(drafts[i], Some(stamp));
        assert entry == entries[i];
        OneMoreEntry(log.codec, before, entries, i);
        var row, inside := log.Append(entry);
        if row.None? {
          OneTooLong(log.codec, entries, |before.current|, i);
          return RowTooLong, steps;
        }
        steps := steps + [Now()];
      }
      assert entries[..|drafts|] == entries;
      if !replaceWorks {
        return ReplaceFailed, steps;
      }
      LoggedRows(log.codec, before, past, canonical, request, txnId);
      assert log.appended[|past|..] == AppendAll(log.codec, before, entries).1;
      state, tmp := tmp, None;
      return Committed, steps;
    }
  }

  lemma OneTooLong(c: Codec, entries: seq<Entry>, count: nat, i: nat)
    requires i < |entries| && TooLong(c, entries[i], IndexOf(count, i))
    ensures !NoneTooLong(c, entries, count)
  {
    hide TooLong;
  }

  lemma NothingAppended(c: Codec, d: Dir)
    ensures AppendAll(c, d, []) == (d, []) && NoneTooLong(c, [], |d.current|)
  {
  }

  lemma OneMoreEntry(c: Codec, d: Dir, entries: seq<Entry>, i: nat)
    requires Tidy(c, d) && i < |entries| && NoneTooLong(c, entries[..i], |d.current|)
    ensures AppendAll(c, d, entries[..i + 1]).0 == AppendEntry(c, AppendAll(c, d, entries[..i]).0, entries[i]).0
    ensures
      var row := AppendEntry(c, AppendAll(c, d, entries[..i]).0, entries[i]).1;
      && (row.None? <==> TooLong(c, entries[i], IndexOf(|d.current|, i)))
      && (row.Some? ==> NoneTooLong(c, entries[..i + 1], |d.current|))
      && AppendAll(c, d, entries[..i + 1]).1 == Recorded(AppendAll(c, d, entries[..i]).1, row)
  {
    hide Tidy;
    assert entries[..i + 1][..i] == entries[..i] && entries[..i + 1][i] == entries[i];
    RowsOfAppends(c, d, entries[..i]);
    NextIndex(AppendAll(c, d, entries[..i]).0, |d.current| + i);
    var row := AppendEntry(c, AppendAll(c, d, entries[..i]).0, entries[i]).1;
    if row.Some? {
      forall j | 0 <= j < i + 1 ensures !TooLong(c, entries[..i + 1][j], IndexOf(|d.current|, j)) {
        if j < i {
          assert entries[..i + 1][j] == entries[..i][j];
        }
      }
    }
  }

  /** At every crash point the state file is the old bytes or the canonical new bytes; and if it is the new bytes while
      the old ones differed, then every draft's row is in the log with its transaction id and hashes, exactly when no
      draft needed the minimal fallback. */
  lemma CommitCrashAtomicity(s: Snapshot, before: Snapshot, past: seq<Row>, canonical: Canonical, r: Request,
                             txnId: nat, c: Codec)
    requires Tidy(c, before.log) && Retains(before.log, past) && |ResolvedDrafts(r)| <= RETAINED
    requires CrashSafe(s, before, canonical(r.after), c, EntriesFor(canonical, r, txnId))
    ensures s.state == before.state || s.state == Some(canonical(r.after))
    ensures s.state != before.state ==>
              (Logged(s.log, AppendAll(c, before.log, EntriesFor(canonical, r, txnId)).1,
                      TxnStamp(txnId, HashOf(canonical, r.before), Sha(canonical(r.after))))
               <==> NoMinimalFallback(c, EntriesFor(canonical, r, txnId), |before.log.current|))
  {
    hide Tidy, Retains, AppendAll, Contents;
    if s.state != before.state {
      LoggedExactly(c, before.log, past, ResolvedDrafts(r), StampFor(canonical, r, txnId));
    }
  }

  /** Whoever reads the state file after a crash reads the old state or the new one. */
  lemma StateReadsOldOrNew(s: Snapshot, before: Snapshot, canonical: Canonical, r: Request, txnId: nat, c: Codec,
                           was: Transition.PhaseState, read: Transition.PhaseState)
    requires Injective(canonical) && before.state == Some(canonical(was)) && s.state == Some(canonical(read))
    requires CrashSafe(s, before, canonical(r.after), c, EntriesFor(canonical, r, txnId))
    ensures read == was || read == r.after
  {
    hide AppendAll, NoneTooLong;
  }
}
