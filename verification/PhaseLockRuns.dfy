/** What holds over every run of the lock machine: mutual exclusion, exact recovery, no lost update,
    and that a stale lock can in fact be taken over. */
module PhaseLockRuns {
  import opened Prelude
  import opened Transition
  import opened Lifecycle
  import opened LockClassifier
  import opened PhaseLock

  // --------------------------------------------------------- mutual exclusion

  ghost predicate Holds(s: State, p: Incarnation) {
    p in s.world.alive && p in s.pcs && s.pcs[p].Holding?
  }

  /** At most one live process holds an unreleased handle, and then the lock file carries its token. */
  lemma MutualExclusion(s: State, acts: seq<Action>, p: Incarnation, q: Incarnation)
    requires Init(s) && IsRun(s, acts)
    requires Holds(Final(s, acts), p)
    ensures
      var end := Final(s, acts);
      && (Holds(end, q) ==> p == q)
      && end.primary.Sealed?
      && end.primary.rec.token == end.pcs[p].token
      && Describes(end.primary.rec, p)
  {
    InitSatisfiesInv(s);
    RunKeepsInv(s, acts);
    var end := Final(s, acts);
    assert PcOk(end, p, end.pcs[p]);
    if Holds(end, q) {
      assert PcOk(end, q, end.pcs[q]);
    }
  }

  // --------------------------------------------------------- recovery exactness

  lemma {:induction false} DeadStayDead(s: State, acts: seq<Action>, p: Incarnation)
    requires IsRun(s, acts) && p in s.world.ever && p !in s.world.alive
    ensures p in Final(s, acts).world.ever && p !in Final(s, acts).world.alive
    decreases |acts|
  {
    if acts != [] {
      OneStepStaysDead(s, acts[0], p);
      DeadStayDead(Apply(s, acts[0]), acts[1..], p);
    }
  }

  lemma OneStepStaysDead(s: State, a: Action, p: Incarnation)
    requires Enabled(s, a) && p in s.world.ever && p !in s.world.alive
    ensures p in Apply(s, a).world.ever && p !in Apply(s, a).world.alive
  {
  }

  /** A process that reaches a stale verdict, at either validation, has seen a dead owner's record, and that
      owner is dead in every later state too. */
  lemma StaleVerdictIsFinal(s: State, before: seq<Action>, p: Incarnation, lookup: Lookup, later: seq<Action>)
    requires Init(s) && IsRun(s, before)
    requires
      var here := Final(s, before);
      && (Enabled(here, ClassifyPrimary(p, lookup)) || Enabled(here, ClassifyI(p, lookup)))
      && VerdictBy(here, p, here.pcs[p].rec, lookup) == Stale
      && IsRun(here, later)
    ensures
      var here := Final(s, before);
      var rec := here.pcs[p].rec;
      && rec.token in here.issued && Describes(rec, here.issued[rec.token].who)
      && here.issued[rec.token].who !in Final(here, later).world.alive
  {
    InitSatisfiesInv(s);
    RunKeepsInv(s, before);
    var here := Final(s, before);
    assert PcOk(here, p, here.pcs[p]);
    var rec := here.pcs[p].rec;
    StaleMeansDead(here.world, rec, here.issued[rec.token].who, p, lookup);
    DeadStayDead(here, later, here.issued[rec.token].who);
  }

  /** At most one process is between creating the recovery mutex and removing it; its second validation sees
      the record of the first; and what it unlinks is that dead owner's record, which nobody holds. */
  lemma RecoveryIsExact(s: State, acts: seq<Action>, p: Incarnation, q: Incarnation)
    requires Init(s) && IsRun(s, acts)
    requires p in Final(s, acts).pcs && InRecovery(Final(s, acts).pcs[p])
    ensures
      var end := Final(s, acts);
      && end.mutex
      && (q in end.pcs && InRecovery(end.pcs[q]) ==> q == p)
      && (Validated(end.pcs[p]) ==>
            && end.primary == Sealed(end.pcs[p].rec)
            && DeadOwner(end, end.pcs[p].rec.token)
            && !Holds(end, q))
  {
    InitSatisfiesInv(s);
    RunKeepsInv(s, acts);
    var end := Final(s, acts);
    assert PcOk(end, p, end.pcs[p]);
    if Validated(end.pcs[p]) && Holds(end, q) {
      ValidatedMeansUnowned(end, p, q);
    }
  }

  // ------------------------------------------------------------- no lost update

  /** When a holder replaces the state file, the file still is the state its verb started from, the row is
      already logged, and the new content is what the verb makes of it. */
  lemma ReplaceSeesItsBeforeState(s: State, acts: seq<Action>, p: Incarnation)
    requires Init(s) && IsRun(s, acts) && Enabled(Final(s, acts), ReplaceState(p))
    ensures
      var here := Final(s, acts);
      var job := here.pcs[p].job;
      && here.file == Some(job.before)
      && here.effect(job.before, job.verb).Some?
      && Commit(job.before, here.effect(job.before, job.verb).value, job.verb) in here.rows
      && Apply(here, ReplaceState(p)).file == here.effect(job.before, job.verb)
  {
    InitSatisfiesInv(s);
    RunKeepsInv(s, acts);
    var here := Final(s, acts);
    assert PcOk(here, p, here.pcs[p]);
  }

  /** What a locked verb commits is what the verb makes of the state: it is logged exactly when the verb goes through. */
  lemma AfterIsTheVerb(before: PhaseState, approve: ApproveArgs, now: nat, reopen: ReopenArgs, after: PhaseState)
    ensures After(before, LockedApprove(approve, now)) == Some(after) <==>
            PhaseApprove(Some(before), approve, now) == (Some(after), Approved)
    ensures After(before, LockedReopen(reopen)) == Some(after) <==>
            PhaseReopen(Some(before), reopen) == (Some(after), Reopened)
  {
  }

  /** The verbs of a list of commits, applied one after another. */
  function Replay(file: Option<PhaseState>, commits: seq<Commit>): Option<PhaseState>
    decreases |commits|
  {
    if commits == [] || file.None? then file
    else Replay(After(file.value, commits[0].verb), commits[1..])
  }

  lemma {:induction false} ChainReplays(first: Option<PhaseState>, commits: seq<Commit>, file: Option<PhaseState>, effect: Effect)
    requires IsChain(effect, first, commits, file)
    requires forall b, v :: effect(b, v) == After(b, v)
    ensures Replay(first, commits) == file
    decreases |commits|
  {
    if commits != [] {
      ChainReplays(Some(commits[0].after), commits[1..], file, effect);
    }
  }

  /** Commits and audit rows are only ever appended, whatever happens. */
  lemma {:induction false} HistoryIsFixed(s: State, acts: seq<Action>)
    requires IsRun(s, acts)
    ensures Final(s, acts).effect == s.effect && Final(s, acts).first == s.first
    ensures s.commits <= Final(s, acts).commits && s.rows <= Final(s, acts).rows
    decreases |acts|
  {
    if acts != [] {
      hide Enabled, Apply;
      OneStepFixesHistory(s, acts[0]);
      OneStepAppends(s, acts[0]);
      HistoryIsFixed(Apply(s, acts[0]), acts[1..]);
    }
  }

  lemma OneStepFixesHistory(s: State, a: Action)
    requires Enabled(s, a)
    ensures Apply(s, a).effect == s.effect && Apply(s, a).first == s.first
  {
  }

  lemma OneStepAppends(s: State, a: Action)
    requires Enabled(s, a)
    ensures s.commits <= Apply(s, a).commits && s.rows <= Apply(s, a).rows
  {
    hide VerdictBy, RecordOf, Spawned, Died, Rebooted, Survivors;
  }

  /** However approve and reopen interleave and crash, the state file is what the committed verbs produce when
      run one after another from the initial file, and every commit has its row in the log. */
  lemma NoLostUpdate(s: State, acts: seq<Action>)
    requires Init(s) && IsRun(s, acts)
    requires forall b, v :: s.effect(b, v) == After(b, v)
    ensures
      var end := Final(s, acts);
      && end.file == Replay(s.file, end.commits)
      && forall c :: c in end.commits ==> c in end.rows
  {
    InitSatisfiesInv(s);
    RunKeepsInv(s, acts);
    HistoryIsFixed(s, acts);
    var end := Final(s, acts);
    ChainReplays(end.first, end.commits, end.file, end.effect);
  }

  // ------------------------------------------------------- stale locks are taken over

  ghost predicate Reaches(s: State, s': State) {
    exists acts :: IsRun(s, acts) && Final(s, acts) == s'
  }

  lemma ReachesSelf(s: State)
    ensures Reaches(s, s)
  {
    assert IsRun(s, []) && Final(s, []) == s;
  }

  lemma ReachesBefore(s: State, a: Action, s': State)
    requires Enabled(s, a) && Reaches(Apply(s, a), s')
    ensures Reaches(s, s')
  {
    var acts :| IsRun(Apply(s, a), acts) && Final(Apply(s, a), acts) == s';
    assert ([a] + acts)[1..] == acts;
    assert IsRun(s, [a] + acts) && Final(s, [a] + acts) == s';
  }

  /** Some lookup the machine can give makes the dead owner's record read as stale. */
  lemma DeadOwnerReadsStale(w: World, r: OwnerRecord, owner: Incarnation, p: Incarnation) returns (lookup: Lookup)
    requires WorldOk(w) && p in w.alive && owner in w.ever && owner !in w.alive
    requires Describes(r, owner) && owner.host == p.host && r.startTime.Some?
    ensures Faithful(w, p.host, r.pid, lookup)
    ensures Classify(r, p.host, w.boots[p.host], lookup) == Stale
  {
    if q :| q in w.alive && q.host == p.host && q.pid == r.pid {
      lookup := Running(Some(q.start));
    } else {
      lookup := NoSuchPid;
    }
    StaleExactly(w, r, owner, p, lookup);
  }

  ghost predicate CanTakeOver(s: State, p: Incarnation) {
    && Inv(s) && p in s.pcs && s.primary.Sealed? && !s.mutex
    && (var owner := s.issued[s.primary.rec.token].who;
        owner !in s.world.alive && owner.host == p.host && s.primary.rec.startTime.Some?)
  }

  /** From an exclusive-create attempt on a free lock, the lock can be held. */
  lemma FreeLockIsTaken(s: State, p: Incarnation, token: nat) returns (end: State)
    requires At(s, p, StepA) && !s.mutex && s.primary.Absent? && token !in s.issued
    ensures Reaches(s, end) && p in end.pcs && end.pcs[p].Holding?
  {
    var s1 := Apply(s, CheckMutex(p));
    var s2 := Apply(s1, CreatePrimary(p, true, token));
    var s3 := Apply(s2, WriteRecord(p, true));
    end := Apply(s3, SyncRecord(p, true));
    ReachesSelf(end);
    ReachesBefore(s3, SyncRecord(p, true), end);
    ReachesBefore(s2, WriteRecord(p, true), end);
    ReachesBefore(s1, CreatePrimary(p, true, token), end);
    ReachesBefore(s, CheckMutex(p), end);
  }

  /** From a stale verdict, one process alone can clear the dead owner's lock file. */
  lemma StaleLockIsCleared(s: State, p: Incarnation, lookup: Lookup) returns (end: State)
    requires p in s.pcs && s.primary.Sealed? && !s.mutex && p.host in s.world.boots
    requires s.pcs[p] == RecoverOpen(s.primary.rec.token)
    requires Faithful(s.world, p.host, s.primary.rec.pid, lookup)
    requires VerdictBy(s, p, s.primary.rec, lookup) == Stale
    ensures Reaches(s, end) && At(end, p, StepA) && !end.mutex && end.primary.Absent? && end.issued == s.issued
  {
    var s1 := Apply(s, OpenMutex(p));
    var s2 := Apply(s1, ReadI(p));
    var s3 := Apply(s2, ClassifyI(p, lookup));
    var s4 := Apply(s3, ReadII(p));
    var s5 := Apply(s4, UnlinkStale(p, true));
    end := Apply(s5, CloseMutex(p));
    ReachesSelf(end);
    ReachesBefore(s5, CloseMutex(p), end);
    ReachesBefore(s4, UnlinkStale(p, true), end);
    ReachesBefore(s3, ReadII(p), end);
    ReachesBefore(s2, ClassifyI(p, lookup), end);
    ReachesBefore(s1, ReadI(p), end);
    ReachesBefore(s, OpenMutex(p), end);
  }

  lemma ReachesTrans(s: State, mid: State, end: State)
    requires Reaches(s, mid) && Reaches(mid, end)
    ensures Reaches(s, end)
  {
    var a :| IsRun(s, a) && Final(s, a) == mid;
    var b :| IsRun(mid, b) && Final(mid, b) == end;
    RunsCompose(s, a, b);
  }

  lemma {:induction false} RunsCompose(s: State, a: seq<Action>, b: seq<Action>)
    requires IsRun(s, a) && IsRun(Final(s, a), b)
    ensures IsRun(s, a + b) && Final(s, a + b) == Final(Final(s, a), b)
    decreases |a|
  {
    hide Enabled, Apply;
    if a == [] {
      assert a + b == b;
    } else {
      RunsCompose(Apply(s, a[0]), a[1..], b);
      assert (a + b)[1..] == a[1..] + b;
    }
  }

  /** A refused create, a read and one lookup bring an idle process to the stale verdict. */
  lemma StaleIsObserved(s: State, p: Incarnation, token: nat, lookup: Lookup) returns (end: State)
    requires At(s, p, Idle) && s.primary.Sealed? && !s.mutex && p.host in s.world.boots && token !in s.issued
    requires Faithful(s.world, p.host, s.primary.rec.pid, lookup)
    requires VerdictBy(s, p, s.primary.rec, lookup) == Stale
    ensures Reaches(s, end)
    ensures end == Goto(s, p, RecoverOpen(s.primary.rec.token)).(
                     issued := s.issued[token := Issue(p, RecordOf(p, true, token))])
  {
    var s1 := Apply(s, Begin(p));
    var s2 := Apply(s1, CheckMutex(p));
    var s3 := Apply(s2, CreatePrimary(p, true, token));
    var s4 := Apply(s3, ReadPrimary(p));
    end := Apply(s4, ClassifyPrimary(p, lookup));
    assert end.pcs == s.pcs[p := RecoverOpen(s.primary.rec.token)];
    ReachesSelf(end);
    ReachesBefore(s4, ClassifyPrimary(p, lookup), end);
    ReachesBefore(s3, ReadPrimary(p), end);
    ReachesBefore(s2, CreatePrimary(p, true, token), end);
    ReachesBefore(s1, CheckMutex(p), end);
    ReachesBefore(s, Begin(p), end);
  }

  /** Recovery is not vacuous: whenever the recorded owner is dead on this host and nobody is recovering, an
      idle process has a run that ends with it holding the lock. */
  lemma DeadOwnersLockCanBeTaken(s: State, p: Incarnation, t1: nat, t2: nat) returns (end: State)
    requires CanTakeOver(s, p) && s.pcs[p] == Idle
    requires t1 !in s.issued && t2 !in s.issued && t1 != t2
    ensures Reaches(s, end) && p in end.pcs && end.pcs[p].Holding?
  {
    var rec := s.primary.rec;
    var lookup := DeadOwnerReadsStale(s.world, rec, s.issued[rec.token].who, p);
    var stale := StaleIsObserved(s, p, t1, lookup);
    var cleared := StaleLockIsCleared(stale, p, lookup);
    end := FreeLockIsTaken(cleared, p, t2);
    ReachesTrans(stale, cleared, end);
    ReachesTrans(s, stale, end);
  }
}
