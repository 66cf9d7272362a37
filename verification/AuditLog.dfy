/** The append-only audit log: bounded lines, a per-file index, and rotation that keeps five old files. */
module AuditLog {
  import opened Prelude
  import opened AuditTail

  const AUDIT_MAX_LINE_BYTES := 1024
  const ROTATION_BYTES := 10 * 1024 * 1024
  const ROTATION_ENTRIES := 10_000
  const ROTATION_KEEP := 5
  const RETAINED := ROTATION_KEEP * ROTATION_ENTRIES

  /** SHA-256 of some bytes, modelled as injective; `NoHash` is the empty string recorded for a missing state. */
  datatype Hash = NoHash | Sha(bytes: seq<Byte>)

  /** The transaction fields of an entry. */
  datatype TxnStamp = TxnStamp(txnId: nat, before: Hash, after: Hash)

  datatype Value = Null | Bool(b: bool) | Str(s: string)

  /** What a verb logs: who and how, its other top-level fields, and its arguments. `at` is filled in when missing. */
  datatype Draft = Draft(verb: string, at: string, author: Option<string>, authorSource: Option<string>,
                         confirmation: Option<string>, extra: seq<(string, Value)>, args: seq<(string, Value)>)

  datatype Entry = Entry(draft: Draft, txn: Option<TxnStamp>)

  /** How an entry is written: in full; with its arguments dropped; or reduced to who, how and when. */
  datatype Row = Full(entry: Entry, index: nat) | Truncated(entry: Entry, index: nat) | Minimal(entry: Entry, index: nat)

  /** The JSON encoding of a row, without its newline, and the decoder of the index. */
  datatype Codec = Codec(encode: Row -> seq<Byte>, decode: Decoder)

  ghost predicate Faithful(c: Codec) {
    forall r :: GoodLine(c.encode(r), c.decode) && c.decode(c.encode(r)) == Some(r.index)
  }

  predicate Fits(c: Codec, r: Row) {
    |c.encode(r)| + 1 <= AUDIT_MAX_LINE_BYTES
  }

  /** The row an entry is stored as; None when even the minimal form is too long and the append raises. */
  function RowFor(c: Codec, entry: Entry, index: nat): Option<Row> {
    if Fits(c, Full(entry, index)) then Some(Full(entry, index))
    else if Fits(c, Truncated(entry, index)) then Some(Truncated(entry, index))
    else if Fits(c, Minimal(entry, index)) then Some(Minimal(entry, index))
    else None
  }

  /** How much of the entry a form keeps. */
  function Richness(r: Row): nat {
    match r
    case Full(_, _) => 2
    case Truncated(_, _) => 1
    case Minimal(_, _) => 0
  }

  predicate IsFormOf(r: Row, entry: Entry, index: nat) {
    r.entry == entry && r.index == index
  }

  /** The stored row is the richest form of the entry that keeps the line within the limit, and the append raises only
      when no form does. */
  lemma StoredRowIsRichest(c: Codec, entry: Entry, index: nat, r: Row)
    ensures RowFor(c, entry, index) == Some(r) <==>
              && IsFormOf(r, entry, index) && Fits(c, r)
              && forall other :: IsFormOf(other, entry, index) && Fits(c, other) ==> Richness(other) <= Richness(r)
    ensures RowFor(c, entry, index).None? <==> forall other :: IsFormOf(other, entry, index) ==> !Fits(c, other)
  {
    hide Fits;
    assert IsFormOf(Full(entry, index), entry, index) && IsFormOf(Truncated(entry, index), entry, index);
    assert IsFormOf(Minimal(entry, index), entry, index);
  }

  /** The transaction fields a stored row still carries. */
  function StampOf(r: Row): Option<TxnStamp> {
    if r.Minimal? then None else r.entry.txn
  }

  // ---------------------------------------------------------------- the directory

  /** `audit.log` and its rotated files `audit.log.1` (newest) to `.5`. */
  datatype Dir = Dir(current: seq<Row>, rotated: map<nat, seq<Row>>)

  function FileAt(rotated: map<nat, seq<Row>>, k: nat): seq<Row> {
    if k in rotated then rotated[k] else []
  }

  /** Rotated files `k` down to 1, oldest first. */
  function Older(rotated: map<nat, seq<Row>>, k: nat): seq<Row>
    decreases rotated, k
  {
    if k == 0 then [] else FileAt(rotated, k) + Older(rotated, k - 1)
  }

  /** Everything on disk, oldest first. */
  function Contents(d: Dir): seq<Row> {
    Older(d.rotated, ROTATION_KEEP) + d.current
  }

  const SLOTS: set<nat> := {1, 2, 3, 4, 5}

  /** Which file is found in slot `k` once every file from slot `n` up has moved up by one name. */
  function MovedFrom(n: nat, k: nat): nat {
    if k < n || k == 0 then k else k - 1
  }

  /** The rename chain with slot `n` just vacated: higher files have moved up, lower ones have not. */
  function Shifted(rotated: map<nat, seq<Row>>, n: nat): map<nat, seq<Row>> {
    map k: nat | k in SLOTS && k != n && MovedFrom(n, k) in rotated :: rotated[MovedFrom(n, k)]
  }

  function Rotated(d: Dir): Dir {
    Dir([], Shifted(d.rotated, 1)[1 := d.current])
  }

  function Prepared(d: Dir): Dir {
    if |d.current| >= ROTATION_ENTRIES then Rotated(d) else d
  }

  function AppendEntry(c: Codec, d: Dir, entry: Entry): (Dir, Option<Row>) {
    var p := Prepared(d);
    var row := RowFor(c, entry, |p.current| + 1);
    (Stored(p, row), row)
  }

  function Stored(d: Dir, row: Option<Row>): Dir {
    if row.Some? then Dir(d.current + [row.value], d.rotated) else d
  }

  function Recorded(appended: seq<Row>, row: Option<Row>): seq<Row> {
    if row.Some? then appended + [row.value] else appended
  }

  predicate Numbered(rows: seq<Row>) {
    forall i :: 0 <= i < |rows| ==> rows[i].index == i + 1
  }

  predicate AllFit(c: Codec, rows: seq<Row>) {
    forall r :: r in rows ==> Fits(c, r)
  }

  /** The names of the newest `m` rotated files. */
  function Upto(m: nat): set<nat> {
    set k | k in SLOTS && k <= m
  }

  /** Between appends: the rotated files are full and have no gap, the current one is numbered from 1. */
  predicate Tidy(c: Codec, d: Dir) {
    && Numbered(d.current) && AllFit(c, d.current) && |d.current| <= ROTATION_ENTRIES
    && (forall k :: k in d.rotated ==> Numbered(d.rotated[k]) && |d.rotated[k]| == ROTATION_ENTRIES)
    && (exists m: nat :: m <= ROTATION_KEEP && d.rotated.Keys == Upto(m))
  }

  predicate IsSuffix(tail: seq<Row>, all: seq<Row>) {
    |tail| <= |all| && forall i :: 0 <= i < |tail| ==> tail[i] == all[|all| - |tail| + i]
  }

  /** Nothing among the latest 50,000 rows is missing, and what is there is in order. */
  predicate Retains(d: Dir, appended: seq<Row>) {
    && IsSuffix(Contents(d), appended)
    && (|Contents(d)| >= RETAINED || Contents(d) == appended)
  }

  // --------------------------------------------------------------- rotation lemmas

  /** Moving files up by one name never reorders what is on disk; only the oldest is gone. */
  lemma {:induction false} ShiftKeepsOrder(rotated: map<nat, seq<Row>>, n: nat, k: nat)
    requires 1 <= n <= ROTATION_KEEP && k <= ROTATION_KEEP
    ensures Older(Shifted(rotated, n), k) == if k < n then Older(rotated, k) else Older(rotated, k - 1)
  {
    if k > 0 {
      ShiftKeepsOrder(rotated, n, k - 1);
      if k == n {
        assert FileAt(Shifted(rotated, n), k) == [];
      }
    }
  }

  /** Rename file `n` to `n + 1` when it exists. */
  function MovedUp(rotated: map<nat, seq<Row>>, n: nat): map<nat, seq<Row>> {
    if n in rotated then
      var rest: map<nat, seq<Row>> := rotated - {n};
      rest[n + 1 := rotated[n]]
    else rotated
  }

  /** What slot `k` holds with slot `n` just vacated. */
  function Slot(rotated: map<nat, seq<Row>>, n: nat, k: nat): Option<seq<Row>> {
    if k in SLOTS && k != n && MovedFrom(n, k) in rotated then Some(rotated[MovedFrom(n, k)]) else None
  }

  lemma ShiftedSlot(rotated: map<nat, seq<Row>>, n: nat, k: nat)
    ensures (k in Shifted(rotated, n) <==> Slot(rotated, n, k).Some?)
    ensures k in Shifted(rotated, n) ==> Slot(rotated, n, k) == Some(Shifted(rotated, n)[k])
  {
  }

  lemma SameFiles(a: map<nat, seq<Row>>, b: map<nat, seq<Row>>)
    requires forall k: nat :: (k in a <==> k in b) && (k in a ==> a[k] == b[k])
    ensures a == b
  {
  }

  /** One rename into the slot just vacated. */
  lemma ShiftStep(start: map<nat, seq<Row>>, n: nat)
    requires 1 <= n < ROTATION_KEEP
    ensures Shifted(start, n) == MovedUp(Shifted(start, n + 1), n)
  {
    var before, after := Shifted(start, n + 1), Shifted(start, n);
    var moved := MovedUp(before, n);
    MovedFromSteps(n);
    hide MovedFrom, Shifted;
    forall k: nat ensures (k in moved <==> k in after) && (k in moved ==> moved[k] == after[k]) {
      ShiftedSlot(start, n, k);
      ShiftedSlot(start, n + 1, k);
      ShiftedSlot(start, n + 1, n);
    }
    SameFiles(moved, after);
  }

  lemma MovedFromSteps(n: nat)
    requires 1 <= n < ROTATION_KEEP
    ensures MovedFrom(n, n + 1) == n == MovedFrom(n + 1, n)
    ensures forall k: nat :: k != n && k != n + 1 ==> MovedFrom(n, k) == MovedFrom(n + 1, k)
  {
  }

  lemma OldestDropped(rotated: map<nat, seq<Row>>)
    requires rotated.Keys <= SLOTS
    ensures Shifted(rotated, ROTATION_KEEP) == rotated - {ROTATION_KEEP}
    ensures ROTATION_KEEP !in rotated ==> Shifted(rotated, ROTATION_KEEP) == rotated
  {
    assert Shifted(rotated, ROTATION_KEEP).Keys == (rotated - {ROTATION_KEEP}).Keys;
  }

  lemma RotatedContents(d: Dir)
    ensures Contents(Rotated(d)) == Older(d.rotated, ROTATION_KEEP - 1) + d.current
  {
    var shifted := Shifted(d.rotated, 1);
    var after := shifted[1 := d.current];
    RenamedInto(shifted, d.current, ROTATION_KEEP);
    ShiftKeepsOrder(d.rotated, 1, ROTATION_KEEP);
    assert Contents(Rotated(d)) == Older(after, ROTATION_KEEP) + [];
  }

  /** Renaming the current file to `.1` puts it right after the older ones. */
  lemma {:induction false} RenamedInto(shifted: map<nat, seq<Row>>, current: seq<Row>, k: nat)
    requires 1 !in shifted && k >= 1
    ensures Older(shifted[1 := current], k) == Older(shifted, k) + current
  {
    if k == 1 {
      assert Older(shifted, 0) == [] && FileAt(shifted, 1) == [];
    } else {
      RenamedInto(shifted, current, k - 1);
    }
  }

  lemma {:induction false} FullFilesCount(rotated: map<nat, seq<Row>>, k: nat)
    requires forall j :: 1 <= j <= k ==> j in rotated && |rotated[j]| == ROTATION_ENTRIES
    ensures |Older(rotated, k)| == k * ROTATION_ENTRIES
  {
    if k > 0 {
      FullFilesCount(rotated, k - 1);
    }
  }

  /** When the oldest slot is empty nothing is dropped by a rotation. */
  lemma NothingDropped(d: Dir)
    requires ROTATION_KEEP !in d.rotated
    ensures Contents(Rotated(d)) == Contents(d)
  {
    RotatedContents(d);
    assert FileAt(d.rotated, ROTATION_KEEP) == [];
  }

  lemma FiveFilesAreEnough(c: Codec, d: Dir)
    requires Tidy(c, d) && ROTATION_KEEP in d.rotated
    ensures |Older(d.rotated, ROTATION_KEEP - 1)| == RETAINED - ROTATION_ENTRIES
    ensures |Older(d.rotated, ROTATION_KEEP)| == RETAINED
  {
    FullFilesCount(d.rotated, ROTATION_KEEP - 1);
    FullFilesCount(d.rotated, ROTATION_KEEP);
  }

  lemma SuffixOfSuffix(tail: seq<Row>, mid: seq<Row>, all: seq<Row>, head: seq<Row>)
    requires IsSuffix(mid, all) && mid == head + tail
    ensures IsSuffix(tail, all)
  {
    assert all[|all| - |tail|..] == mid[|head|..];
  }

  lemma SuffixGrows(tail: seq<Row>, all: seq<Row>, row: Row)
    requires IsSuffix(tail, all)
    ensures IsSuffix(tail + [row], all + [row])
  {
  }

  lemma RotationIsTidy(c: Codec, d: Dir)
    requires Tidy(c, d) && |d.current| == ROTATION_ENTRIES
    ensures Tidy(c, Rotated(d))
  {
    var m: nat :| m <= ROTATION_KEEP && d.rotated.Keys == Upto(m);
    var n := if m < ROTATION_KEEP then m + 1 else m;
    assert Rotated(d).rotated.Keys == Upto(n);
  }

  /** A full log rotates into one that still has the latest 50,000 rows. */
  lemma RotationRetains(c: Codec, d: Dir, appended: seq<Row>)
    requires Tidy(c, d) && Retains(d, appended) && |d.current| == ROTATION_ENTRIES
    ensures Retains(Rotated(d), appended)
  {
    if ROTATION_KEEP in d.rotated {
      FiveFilesAreEnough(c, d);
      OldestGoes(d, appended);
    } else {
      NothingDropped(d);
    }
  }

  lemma ConcatRows(a: seq<Row>, b: seq<Row>, c: seq<Row>)
    ensures a + b + c == a + (b + c)
  {
  }

  lemma OldestGoes(d: Dir, appended: seq<Row>)
    requires Retains(d, appended) && ROTATION_KEEP in d.rotated && |d.current| == ROTATION_ENTRIES
    requires |Older(d.rotated, ROTATION_KEEP - 1)| == RETAINED - ROTATION_ENTRIES
    ensures Retains(Rotated(d), appended)
  {
    RotatedContents(d);
    var oldest := d.rotated[ROTATION_KEEP];
    assert Older(d.rotated, ROTATION_KEEP) == oldest + Older(d.rotated, ROTATION_KEEP - 1);
    hide Older, Rotated, Shifted, FileAt;
    ConcatRows(oldest, Older(d.rotated, ROTATION_KEEP - 1), d.current);
    SuffixOfSuffix(Contents(Rotated(d)), Contents(d), appended, oldest);
  }

  /** Storing one more row in a log that has room for it. */
  lemma OneMoreRow(c: Codec, d: Dir, entry: Entry)
    requires Tidy(c, d) && |d.current| < ROTATION_ENTRIES
    ensures Tidy(c, Stored(d, RowFor(c, entry, |d.current| + 1)))
  {
  }

  lemma OneMoreRetained(d: Dir, appended: seq<Row>, row: Option<Row>)
    requires Retains(d, appended)
    ensures Retains(Stored(d, row), Recorded(appended, row))
  {
    if row.Some? {
      assert Contents(Stored(d, row)) == Contents(d) + [row.value];
      SuffixGrows(Contents(d), appended, row.value);
    }
  }

  lemma PreparedRetains(c: Codec, d: Dir, appended: seq<Row>)
    requires Tidy(c, d) && Retains(d, appended)
    ensures Tidy(c, Prepared(d)) && Retains(Prepared(d), appended) && |Prepared(d).current| < ROTATION_ENTRIES
  {
    if |d.current| >= ROTATION_ENTRIES {
      RotationIsTidy(c, d);
      RotationRetains(c, d, appended);
    }
  }

  lemma AppendRetains(c: Codec, d: Dir, appended: seq<Row>, entry: Entry)
    requires Tidy(c, d) && Retains(d, appended)
    ensures Tidy(c, AppendEntry(c, d, entry).0)
    ensures Retains(AppendEntry(c, d, entry).0, Recorded(appended, AppendEntry(c, d, entry).1))
  {
    PreparedRetains(c, d, appended);
    OneMoreRow(c, Prepared(d), entry);
    OneMoreRetained(Prepared(d), appended, AppendEntry(c, d, entry).1);
  }

  // -------------------------------------------------------------------- whole runs

  /** Sequential appends to a log: the directory they leave, and the rows they store. */
  function AppendAll(c: Codec, d: Dir, entries: seq<Entry>): (Dir, seq<Row>) {
    if entries == [] then (d, [])
    else
      var (prior, stored) := AppendAll(c, d, entries[..|entries| - 1]);
      var (d', row) := AppendEntry(c, prior, entries[|entries| - 1]);
      (d', Recorded(stored, row))
  }

  /** Appends keep the directory tidy and keep the latest 50,000 of all rows ever stored. */
  lemma {:induction false} AppendAllRetains(c: Codec, d: Dir, past: seq<Row>, entries: seq<Entry>)
    requires Tidy(c, d) && Retains(d, past)
    ensures Tidy(c, AppendAll(c, d, entries).0)
    ensures Retains(AppendAll(c, d, entries).0, past + AppendAll(c, d, entries).1)
  {
    hide Retains, Tidy, AppendEntry;
    if entries == [] {
      assert past + [] == past;
    } else {
      var front := entries[..|entries| - 1];
      AppendAllRetains(c, d, past, front);
      AppendRetains(c, AppendAll(c, d, front).0, past + AppendAll(c, d, front).1, entries[|entries| - 1]);
      var row := AppendEntry(c, AppendAll(c, d, front).0, entries[|entries| - 1]).1;
      assert past + Recorded(AppendAll(c, d, front).1, row) == Recorded(past + AppendAll(c, d, front).1, row);
    }
  }

  const EMPTY_LOG := Dir([], map[])

  /** From an initially empty log: every rotated file has exactly the indices 1 to 10,000 (Tidy), the files from oldest
      to newest are a suffix of all rows ever stored, and nothing among the latest 50,000 is lost (Retains). */
  lemma RetentionBound(c: Codec, entries: seq<Entry>)
    ensures Tidy(c, AppendAll(c, EMPTY_LOG, entries).0)
    ensures Retains(AppendAll(c, EMPTY_LOG, entries).0, AppendAll(c, EMPTY_LOG, entries).1)
  {
    OlderIsEmpty(ROTATION_KEEP);
    EmptyIsTidy(c);
    AppendAllRetains(c, EMPTY_LOG, [], entries);
    assert [] + AppendAll(c, EMPTY_LOG, entries).1 == AppendAll(c, EMPTY_LOG, entries).1;
  }

  /** A row among the latest 50,000 is still on disk. */
  lemma RecentRowIsThere(d: Dir, appended: seq<Row>, i: nat)
    requires Retains(d, appended) && |appended| - RETAINED <= i < |appended|
    ensures appended[i] in Contents(d)
  {
    var from := |appended| - |Contents(d)|;
    assert Contents(d)[i - from] == appended[from..][i - from];
  }

  lemma EmptyIsTidy(c: Codec)
    ensures Tidy(c, EMPTY_LOG)
  {
    assert EMPTY_LOG.rotated.Keys == Upto(0);
  }

  lemma OlderIsEmpty(k: nat)
    ensures Older(map[], k) == []
  {
  }

  /** Ten thousand bounded lines stay below ten mebibytes, so only the entry count ever rotates the file. */
  lemma {:induction false} ByteTriggerNeverFires(c: Codec, rows: seq<Row>)
    requires AllFit(c, rows)
    ensures |FileBytes(c, rows)| <= |rows| * AUDIT_MAX_LINE_BYTES
    ensures |rows| <= ROTATION_ENTRIES ==> |FileBytes(c, rows)| < ROTATION_BYTES
  {
    if rows != [] {
      var front := rows[..|rows| - 1];
      ByteTriggerNeverFires(c, front);
      EncodedSnoc(c, rows);
      assert rows[|rows| - 1] in rows;
    }
  }

  // ------------------------------------------------------------------ bytes on disk

  function Encoded(c: Codec, rows: seq<Row>): seq<seq<Byte>> {
    seq(|rows|, i requires 0 <= i < |rows| => c.encode(rows[i]))
  }

  function FileBytes(c: Codec, rows: seq<Row>): seq<Byte> {
    LogText(Encoded(c, rows))
  }

  lemma EncodedSnoc(c: Codec, rows: seq<Row>)
    requires rows != []
    ensures FileBytes(c, rows) == FileBytes(c, rows[..|rows| - 1]) + c.encode(rows[|rows| - 1]) + [NEWLINE]
  {
    var lines := Encoded(c, rows);
    assert lines[..|lines| - 1] == Encoded(c, rows[..|rows| - 1]);
  }

  /** The chunked reader finds the index of the last row of a numbered file. */
  lemma LastIndexOfFile(c: Codec, rows: seq<Row>)
    requires Faithful(c) && Numbered(rows)
    ensures TailDecides(FileBytes(c, rows), c.decode)
    ensures PlainLastIndex(FileBytes(c, rows), c.decode) == |rows|
  {
    var lines := Encoded(c, rows);
    forall line | line in lines ensures GoodLine(line, c.decode) {
      var i :| 0 <= i < |rows| && line == c.encode(rows[i]);
    }
    GoodLogTail(lines, c.decode);
    if rows != [] {
      assert lines[|lines| - 1] == c.encode(rows[|rows| - 1]);
    }
  }

  // ---------------------------------------------------------------------- the log

  class Log {
    const codec: Codec
    var current: seq<Row>
    var rotated: map<nat, seq<Row>>
    /** Every row ever stored. */
    ghost var appended: seq<Row>

    ghost predicate Valid()
      reads this
    {
      && Faithful(codec)
      && Tidy(codec, Now())
      && Retains(Now(), appended)
    }

    ghost function Now(): Dir
      reads this
    {
      Dir(current, rotated)
    }

    constructor (codec: Codec)
      requires Faithful(codec)
      ensures Valid() && this.codec == codec && Now() == Dir([], map[]) && appended == []
    {
      this.codec := codec;
      current, rotated := [], map[];
      appended := [];
      OlderIsEmpty(ROTATION_KEEP);
      EmptyIsTidy(codec);
    }

    /** Shift the old files up by one name, oldest first, then rename the current one to `.1`. Also returns the
        states the directory goes through, one per file operation. */
    method Rotate() returns (ghost steps: seq<Dir>)
      requires rotated.Keys <= SLOTS
      modifies this`current, this`rotated
      ensures Now() == Rotated(old(Now()))
      ensures forall d :: d in steps ==> InChain(d, old(Now()))
    {
      hide Shifted, MovedUp, MovedFrom;
      ghost var start := Now();
      OldestDropped(rotated);
      steps := [];
      if ROTATION_KEEP in rotated {
        rotated := rotated - {ROTATION_KEEP};
      }
      for n := ROTATION_KEEP downto 1
        invariant rotated == Shifted(start.rotated, n) && current == start.current
        invariant forall d :: d in steps ==> InChain(d, start)
      {
        steps := steps + [Now()];
        ShiftStep(start.rotated, n);
        rotated := MovedUp(rotated, n);
      }
      steps := steps + [Now()];
      rotated := rotated[1 := current];
      current := [];
    }

    /** The row an entry fits in; None when even its minimal form is too long. */
    method ChooseRow(entry: Entry, index: nat) returns (row: Option<Row>)
      ensures row == RowFor(codec, entry, index)
    {
      row := Some(Full(entry, index));
      if !Fits(codec, row.value) {
        row := Some(Truncated(entry, index));
        if !Fits(codec, row.value) {
          row := Some(Minimal(entry, index));
          if !Fits(codec, row.value) {
            return None;
          }
        }
      }
    }

    /** The rotation check that precedes every append; returns the last index of the file appended to. */
    method RotateIfFull() returns (lastIndex: int, ghost steps: seq<Dir>)
      requires Valid()
      modifies this`current, this`rotated
      ensures Valid() && Now() == Prepared(old(Now())) && lastIndex == |current|
      ensures AllRetain(steps, appended)
    {
      hide Retains, Older;
      ghost var before := Now();
      FileFacts(codec, current);
      PreparedRetains(codec, before, appended);
      var file := FileBytes(codec, current);
      lastIndex := ReadLastIndex(file, codec.decode);
      steps := [];
      if |file| >= ROTATION_BYTES || lastIndex >= ROTATION_ENTRIES {
        steps := Rotate();
        ChainRetains(codec, before, appended, steps);
        lastIndex := 0;
      }
    }

    /** Append one entry; None when even its minimal form is too long. */
    method Append(entry: Entry) returns (row: Option<Row>, ghost steps: seq<Dir>)
      requires Valid()
      modifies this
      ensures Valid()
      ensures Now() == AppendEntry(codec, old(Now()), entry).0 && row == AppendEntry(codec, old(Now()), entry).1
      ensures appended == Recorded(old(appended), row)
      ensures AllRetain(steps, old(appended))
    {
      hide Retains, Older, Tidy;
      AppendRetains(codec, Now(), appended, entry);
      var lastIndex;
      lastIndex, steps := RotateIfFull();
      row := ChooseRow(entry, lastIndex + 1);
      if row.Some? {
        current := current + [row.value];
      }
      appended := Recorded(appended, row);
    }
  }

  /** Every one of these directories still holds the latest 50,000 rows. */
  ghost predicate AllRetain(steps: seq<Dir>, appended: seq<Row>) {
    forall d :: d in steps ==> Retains(d, appended)
  }

  lemma FileFacts(c: Codec, rows: seq<Row>)
    requires Faithful(c) && Numbered(rows) && AllFit(c, rows) && |rows| <= ROTATION_ENTRIES
    ensures TailDecides(FileBytes(c, rows), c.decode)
    ensures PlainLastIndex(FileBytes(c, rows), c.decode) == |rows|
    ensures |FileBytes(c, rows)| < ROTATION_BYTES
  {
    LastIndexOfFile(c, rows);
    ByteTriggerNeverFires(c, rows);
  }

  /** A directory seen while `start` is being rotated. */
  predicate InChain(d: Dir, start: Dir) {
    d.current == start.current && exists n :: 1 <= n <= ROTATION_KEEP && d.rotated == Shifted(start.rotated, n)
  }

  lemma ChainRetains(c: Codec, start: Dir, appended: seq<Row>, steps: seq<Dir>)
    requires Tidy(c, start) && Retains(start, appended) && |start.current| == ROTATION_ENTRIES
    requires forall d :: d in steps ==> InChain(d, start)
    ensures AllRetain(steps, appended)
  {
    forall d | d in steps ensures Retains(d, appended) {
      var n :| 1 <= n <= ROTATION_KEEP && d.rotated == Shifted(start.rotated, n);
      MidRotationRetains(c, start, appended, n);
    }
  }

  /** Stopped anywhere inside a rotation, the directory still holds the latest 50,000 rows in order. */
  lemma MidRotationRetains(c: Codec, d: Dir, appended: seq<Row>, n: nat)
    requires Tidy(c, d) && Retains(d, appended) && |d.current| == ROTATION_ENTRIES && 1 <= n <= ROTATION_KEEP
    ensures Retains(Dir(d.current, Shifted(d.rotated, n)), appended)
  {
    ShiftKeepsOrder(d.rotated, n, ROTATION_KEEP);
    RotatedContents(d);
    RotationRetains(c, d, appended);
    assert Contents(Dir(d.current, Shifted(d.rotated, n))) == Contents(Rotated(d));
  }

  /** What a rotation leaves after an earlier one stopped with slot `n` vacated. */
  lemma SecondRotationContents(d: Dir, n: nat)
    requires 1 <= n <= ROTATION_KEEP
    ensures Contents(Rotated(Dir(d.current, Shifted(d.rotated, n))))
         == Older(d.rotated, if n == ROTATION_KEEP then ROTATION_KEEP - 1 else ROTATION_KEEP - 2) + d.current
  {
    hide Shifted, Rotated, Older;
    RotatedContents(Dir(d.current, Shifted(d.rotated, n)));
    ShiftKeepsOrder(d.rotated, n, ROTATION_KEEP - 1);
  }

  /** But a rotation that stops after a rename leaves a gap the next rotation does not know about. The next one still has
      the latest 50,000 rows exactly when the first stopped before any rename, or file `.4` did not exist. */
  lemma InterruptedRotation(c: Codec, d: Dir, appended: seq<Row>, n: nat)
    requires Tidy(c, d) && Retains(d, appended) && |d.current| == ROTATION_ENTRIES && 1 <= n <= ROTATION_KEEP
    ensures Retains(Rotated(Dir(d.current, Shifted(d.rotated, n))), appended)
       <==> n == ROTATION_KEEP || ROTATION_KEEP - 1 !in d.rotated
  {
    hide Tidy, Retains, Shifted, Rotated, Older;
    if n < ROTATION_KEEP && ROTATION_KEEP - 1 in d.rotated {
      InterruptedRotationLosesAFile(c, d, n);
      TooShort(d, Rotated(Dir(d.current, Shifted(d.rotated, n))), appended);
    } else {
      NothingLost(d, n);
      RotationRetains(c, d, appended);
      SameContents(Rotated(d), Rotated(Dir(d.current, Shifted(d.rotated, n))), appended);
    }
  }

  lemma TooShort(d: Dir, after: Dir, appended: seq<Row>)
    requires Retains(d, appended) && |Contents(d)| >= RETAINED && |Contents(after)| < RETAINED
    ensures !Retains(after, appended)
  {
  }

  lemma SameContents(d: Dir, after: Dir, appended: seq<Row>)
    requires Contents(after) == Contents(d) && Retains(d, appended)
    ensures Retains(after, appended)
  {
  }

  lemma NothingLost(d: Dir, n: nat)
    requires 1 <= n <= ROTATION_KEEP && (n == ROTATION_KEEP || ROTATION_KEEP - 1 !in d.rotated)
    ensures Contents(Rotated(Dir(d.current, Shifted(d.rotated, n)))) == Contents(Rotated(d))
  {
    SecondRotationContents(d, n);
    RotatedContents(d);
    if n < ROTATION_KEEP {
      assert FileAt(d.rotated, ROTATION_KEEP - 1) == [];
      assert Older(d.rotated, ROTATION_KEEP - 1) == [] + Older(d.rotated, ROTATION_KEEP - 2);
    }
  }

  /** With file `.4` in place the three newest are full, and the four together with the current one fill the promise. */
  lemma FullBelow(c: Codec, d: Dir)
    requires Tidy(c, d) && ROTATION_KEEP - 1 in d.rotated
    ensures |Older(d.rotated, ROTATION_KEEP - 2)| == (ROTATION_KEEP - 2) * ROTATION_ENTRIES
    ensures |Older(d.rotated, ROTATION_KEEP - 1)| == (ROTATION_KEEP - 1) * ROTATION_ENTRIES
  {
    FullFilesCount(d.rotated, ROTATION_KEEP - 2);
    FullFilesCount(d.rotated, ROTATION_KEEP - 1);
  }

  lemma ContentsShorter(d: Dir)
    ensures |Contents(d)| >= |Older(d.rotated, ROTATION_KEEP - 1)| + |d.current|
  {
    assert Older(d.rotated, ROTATION_KEEP) == FileAt(d.rotated, ROTATION_KEEP) + Older(d.rotated, ROTATION_KEEP - 1);
  }

  /** Whenever it loses, 10,000 rows of the promised 50,000 are gone. */
  lemma InterruptedRotationLosesAFile(c: Codec, d: Dir, n: nat)
    requires Tidy(c, d) && |d.current| == ROTATION_ENTRIES && ROTATION_KEEP - 1 in d.rotated && 1 <= n < ROTATION_KEEP
    ensures |Contents(d)| >= RETAINED
    ensures |Contents(Rotated(Dir(d.current, Shifted(d.rotated, n))))| == RETAINED - ROTATION_ENTRIES
  {
    FullBelow(c, d);
    ContentsShorter(d);
    SecondRotationContents(d, n);
  }
}
