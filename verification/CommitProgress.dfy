/** When a commit can still go through: never again once a crash has left the temporary file behind. */
module CommitProgress {
  import opened Prelude
  import opened Transition
  import opened Lifecycle
  import opened LockClassifier
  import opened PhaseLock
  import opened PhaseLockRuns

  /** Between creating the temporary file and renaming it. */
  predicate UsesTmp(pc: Pc) {
    pc.Holding? && (pc.job.TmpOpen? || pc.job.TmpWritten? || pc.job.RowAppended?)
  }

  /** The temporary file is there and nobody is using it. */
  ghost predicate Stuck(s: State) {
    s.tmp.Some? && forall p :: p in s.pcs ==> !UsesTmp(s.pcs[p])
  }

  lemma StuckStep(s: State, a: Action)
    requires Stuck(s) && Enabled(s, a)
    ensures Stuck(Apply(s, a)) && Apply(s, a).file == s.file
    ensures Apply(s, a).commits == s.commits && Apply(s, a).rows == s.rows
  {
    hide VerdictBy, RecordOf, Spawned, Died, Rebooted, Survivors;
    if !IsCommitAction(a) {
      NoCommitStep(s, a);
    } else {
      StuckCommitStep(s, a);
    }
  }

  lemma StuckCommitStep(s: State, a: Action)
    requires Stuck(s) && Enabled(s, a) && IsCommitAction(a)
    ensures Stuck(Apply(s, a)) && Apply(s, a).file == s.file
    ensures Apply(s, a).commits == s.commits && Apply(s, a).rows == s.rows
  {
    assert !UsesTmp(s.pcs[a.p]);
  }

  lemma NoCommitStep(s: State, a: Action)
    requires Enabled(s, a) && !IsCommitAction(a)
    ensures Apply(s, a).file == s.file && Apply(s, a).tmp == s.tmp
    ensures Apply(s, a).commits == s.commits && Apply(s, a).rows == s.rows
    ensures forall p :: p in Apply(s, a).pcs && UsesTmp(Apply(s, a).pcs[p]) ==> p in s.pcs && UsesTmp(s.pcs[p])
  {
    hide VerdictBy, RecordOf, Spawned, Died, Rebooted, Survivors;
    if IsOwnerAction(a) {
      LockFileActions(s, a);
    } else {
      OtherActions(s, a);
    }
  }

  lemma LockFileActions(s: State, a: Action)
    requires Enabled(s, a) && IsOwnerAction(a) && !IsCommitAction(a)
    ensures Apply(s, a).file == s.file && Apply(s, a).tmp == s.tmp
    ensures Apply(s, a).commits == s.commits && Apply(s, a).rows == s.rows
    ensures forall p :: p in Apply(s, a).pcs && UsesTmp(Apply(s, a).pcs[p]) ==> p in s.pcs && UsesTmp(s.pcs[p])
  {
  }

  lemma OtherActions(s: State, a: Action)
    requires Enabled(s, a) && !IsOwnerAction(a)
    ensures Apply(s, a).file == s.file && Apply(s, a).tmp == s.tmp
    ensures Apply(s, a).commits == s.commits && Apply(s, a).rows == s.rows
    ensures forall p :: p in Apply(s, a).pcs && UsesTmp(Apply(s, a).pcs[p]) ==> p in s.pcs && UsesTmp(s.pcs[p])
  {
    if IsReadingAction(a) {
      ReadingActions(s, a);
    } else if a.ClassifyPrimary? || a.ClassifyI? {
      ClassifyingActions(s, a);
    } else {
      LockActions(s, a);
    }
    hide Enabled, Apply;
  }

  lemma ReadingActions(s: State, a: Action)
    requires Enabled(s, a) && IsReadingAction(a)
    ensures Apply(s, a).file == s.file && Apply(s, a).tmp == s.tmp
    ensures Apply(s, a).commits == s.commits && Apply(s, a).rows == s.rows
    ensures forall p :: p in Apply(s, a).pcs && UsesTmp(Apply(s, a).pcs[p]) ==> p in s.pcs && UsesTmp(s.pcs[p])
  {
  }

  lemma ClassifyingActions(s: State, a: Action)
    requires Enabled(s, a) && (a.ClassifyPrimary? || a.ClassifyI?)
    ensures Apply(s, a).file == s.file && Apply(s, a).tmp == s.tmp
    ensures Apply(s, a).commits == s.commits && Apply(s, a).rows == s.rows
    ensures forall p :: p in Apply(s, a).pcs && UsesTmp(Apply(s, a).pcs[p]) ==> p in s.pcs && UsesTmp(s.pcs[p])
  {
    hide VerdictBy;
  }

  lemma LockActions(s: State, a: Action)
    requires Enabled(s, a) && !IsOwnerAction(a) && !IsReadingAction(a) && !a.ClassifyPrimary? && !a.ClassifyI?
    ensures Apply(s, a).file == s.file && Apply(s, a).tmp == s.tmp
    ensures Apply(s, a).commits == s.commits && Apply(s, a).rows == s.rows
    ensures forall p :: p in Apply(s, a).pcs && UsesTmp(Apply(s, a).pcs[p]) ==> p in s.pcs && UsesTmp(s.pcs[p])
  {
    hide RecordOf, Spawned, Died, Rebooted, Survivors;
  }

  /** Once stuck, for good: no run changes the state file again, or logs a row. */
  lemma {:induction false} StuckForGood(s: State, acts: seq<Action>)
    requires Stuck(s) && IsRun(s, acts)
    ensures Stuck(Final(s, acts)) && Final(s, acts).file == s.file
    ensures Final(s, acts).commits == s.commits && Final(s, acts).rows == s.rows
    decreases |acts|
  {
    if acts != [] {
      hide Enabled, Apply, Stuck;
      StuckStep(s, acts[0]);
      StuckForGood(Apply(s, acts[0]), acts[1..]);
    }
  }

  /** A crash of the process that uses the temporary file is enough, even when its row is logged already. */
  lemma CrashLeavesItStuck(s: State, p: Incarnation)
    requires Inv(s) && p in s.pcs && UsesTmp(s.pcs[p])
    ensures Enabled(s, Die(p)) && Stuck(Apply(s, Die(p)))
  {
    assert PcOk(s, p, s.pcs[p]);
    forall q | q in s.pcs && q != p ensures !UsesTmp(s.pcs[q]) {
      OwnerIsAlone(s, p, q);
    }
  }

  /** Without a leftover the holder can commit in six steps. */
  lemma CommitGoesThrough(s: State, p: Incarnation, token: nat, verb: LockedVerb) returns (end: State)
    requires At(s, p, Holding(token, Entered)) && s.tmp.None?
    requires s.file.Some? && s.effect(s.file.value, verb).Some?
    ensures Reaches(s, end) && end.file == s.effect(s.file.value, verb) && end.tmp.None?
    ensures end.commits == s.commits + [Commit(s.file.value, end.file.value, verb)]
  {
    var before := s.file.value;
    var decided := StateIsDecided(s, p, token, verb);
    hide Enabled, Apply;
    end := DecidedIsCommitted(decided, p, token, before, verb);
    ReachesTrans(s, decided, end);
  }

  lemma StateIsDecided(s: State, p: Incarnation, token: nat, verb: LockedVerb) returns (decided: State)
    requires At(s, p, Holding(token, Entered)) && s.file.Some? && s.effect(s.file.value, verb).Some?
    ensures Reaches(s, decided) && decided == Goto(s, p, Holding(token, Decided(s.file.value, verb)))
  {
    var loaded := Goto(s, p, Holding(token, Loaded(s.file.value)));
    assert Apply(s, LoadState(p)) == loaded;
    decided := Apply(loaded, Decide(p, verb));
    assert decided.pcs == s.pcs[p := Holding(token, Decided(s.file.value, verb))];
    ReachesSelf(decided);
    ReachesBefore(loaded, Decide(p, verb), decided);
    ReachesBefore(s, LoadState(p), decided);
  }

  lemma DecidedIsCommitted(s: State, p: Incarnation, token: nat, before: PhaseState, verb: LockedVerb) returns (end: State)
    requires At(s, p, Holding(token, Decided(before, verb))) && s.tmp.None? && s.effect(before, verb).Some?
    ensures Reaches(s, end) && end.file == s.effect(before, verb) && end.tmp.None?
    ensures end.commits == s.commits + [Commit(before, s.effect(before, verb).value, verb)]
  {
    var after := s.effect(before, verb);
    var written := Goto(s, p, Holding(token, TmpWritten(before, verb))).(tmp := Some(after));
    TmpIsWritten(s, p, token, before, verb);
    hide Enabled, Apply;
    end := WrittenIsCommitted(written, p, token, before, verb);
    ReachesTrans(s, written, end);
  }

  lemma TmpIsWritten(s: State, p: Incarnation, token: nat, before: PhaseState, verb: LockedVerb)
    requires At(s, p, Holding(token, Decided(before, verb))) && s.tmp.None?
    ensures Reaches(s, Goto(s, p, Holding(token, TmpWritten(before, verb))).(tmp := Some(s.effect(before, verb))))
  {
    var begun := Apply(s, OpenTmp(p));
    var written := Apply(begun, WriteTmp(p));
    assert written.pcs == s.pcs[p := Holding(token, TmpWritten(before, verb))];
    ReachesSelf(written);
    ReachesBefore(begun, WriteTmp(p), written);
    ReachesBefore(s, OpenTmp(p), written);
  }

  lemma WrittenIsCommitted(s: State, p: Incarnation, token: nat, before: PhaseState, verb: LockedVerb) returns (end: State)
    requires At(s, p, Holding(token, TmpWritten(before, verb)))
    requires s.effect(before, verb).Some? && s.tmp == Some(s.effect(before, verb))
    ensures Reaches(s, end) && end.file == s.effect(before, verb) && end.tmp.None?
    ensures end.commits == s.commits + [Commit(before, s.effect(before, verb).value, verb)]
  {
    var logged := Apply(s, AppendRow(p));
    end := Apply(logged, ReplaceState(p));
    ReachesSelf(end);
    ReachesBefore(logged, ReplaceState(p), end);
    ReachesBefore(s, AppendRow(p), end);
  }

  ghost predicate MoreCommits(s: State, end: State) {
    |end.commits| > |s.commits|
  }

  /** With the lock just taken and a verb that applies, some run commits exactly when no temporary file was left behind. */
  lemma CommitsExactly(s: State, p: Incarnation, token: nat, verb: LockedVerb)
    requires Inv(s) && At(s, p, Holding(token, Entered))
    requires s.file.Some? && s.effect(s.file.value, verb).Some?
    ensures (exists end :: Reaches(s, end) && MoreCommits(s, end)) <==> s.tmp.None?
  {
    if s.tmp.None? {
      var end := CommitGoesThrough(s, p, token, verb);
      assert MoreCommits(s, end);
    } else {
      forall q | q in s.pcs ensures !UsesTmp(s.pcs[q]) {
        if q != p {
          OwnerIsAlone(s, p, q);
        }
      }
      forall end | Reaches(s, end) ensures !MoreCommits(s, end) {
        var acts :| IsRun(s, acts) && Final(s, acts) == end;
        StuckForGood(s, acts);
      }
    }
  }
}
