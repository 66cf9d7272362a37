/** What a contender does while somebody alive holds the lock, and once it is released. */
module LockHandover {
  import opened Prelude
  import opened LockClassifier
  import opened PhaseLock
  import opened PhaseLockRuns

  /** The lookup answers with a creation time. */
  predicate Answers(lookup: Lookup) {
    lookup.Running? && lookup.createTime.Some?
  }

  /** Enough is known of the holder for a verdict at `p`: it is on another host, or its start time is recorded. */
  predicate Telling(s: State, p: Incarnation, q: Incarnation) {
    s.primary.Sealed? && (q.host == p.host ==> s.primary.rec.startTime.Some?)
  }

  lemma HolderIsTheOwner(s: State, q: Incarnation)
    requires Inv(s) && Holds(s, q)
    ensures s.primary.Sealed? && IsIssued(s, s.primary.rec) && s.issued[s.primary.rec.token].who == q
    ensures Describes(s.primary.rec, q) && q in s.world.ever && q in s.world.alive && WorldOk(s.world)
  {
    assert PcOk(s, q, s.pcs[q]);
  }

  /** A contender that classifies a live holder's record never goes on to recovery. It waits, exactly when the holder is
      on another host, or its start time is recorded and the lookup answers; otherwise it stops. */
  lemma LiveHolderIsWaitedFor(s: State, p: Incarnation, q: Incarnation, lookup: Lookup)
    requires Inv(s) && Holds(s, q) && At(s, p, Classifying(s.primary.rec)) && Enabled(s, ClassifyPrimary(p, lookup))
    ensures Apply(s, ClassifyPrimary(p, lookup)) in {Goto(s, p, StepA), Goto(s, p, Idle)}
    ensures Apply(s, ClassifyPrimary(p, lookup)) == Goto(s, p, StepA) <==>
              q.host != p.host || (s.primary.rec.startTime.Some? && Answers(lookup))
  {
    HolderIsTheOwner(s, q);
    VerdictMoves(s, p, s.primary.rec, lookup);
    hide Inv, Apply, Enabled, WorldOk, Classify;
    VerdictExactly(s.world, s.primary.rec, q, p, lookup);
    hide Faithful, Describes;
  }

  /** Where a verdict leads. */
  lemma VerdictMoves(s: State, p: Incarnation, rec: OwnerRecord, lookup: Lookup)
    requires At(s, p, Classifying(rec)) && Enabled(s, ClassifyPrimary(p, lookup))
    ensures
      var verdict := Classify(rec, p.host, s.world.boots[p.host], lookup);
      Apply(s, ClassifyPrimary(p, lookup))
      == Goto(s, p, match verdict
                    case Ambiguous => Idle
                    case Live | ForeignHost => StepA
                    case Stale => RecoverOpen(rec.token))
    ensures Goto(s, p, StepA) != Goto(s, p, Idle) && p.host in s.world.boots
    ensures forall t :: Goto(s, p, RecoverOpen(t)) !in {Goto(s, p, StepA), Goto(s, p, Idle)}
    ensures Faithful(s.world, p.host, rec.pid, lookup)
  {
    hide Classify, Faithful;
    assert Goto(s, p, StepA).pcs[p] == StepA && Goto(s, p, Idle).pcs[p] == Idle;
    forall t ensures Goto(s, p, RecoverOpen(t)) !in {Goto(s, p, StepA), Goto(s, p, Idle)} {
      assert Goto(s, p, RecoverOpen(t)).pcs[p] == RecoverOpen(t);
    }
  }

  // ------------------------------------------------------------------ keeps waiting

  predicate Waiting(s: State, p: Incarnation) {
    p in s.pcs && (s.pcs[p] in {StepA, StepB, StepC} || (s.primary.Sealed? && s.pcs[p] == Classifying(s.primary.rec)))
  }

  /** The contender does not time out, and its lookups of a process on its own host answer. */
  predicate Patient(a: Action, p: Incarnation, q: Incarnation) {
    && a != GiveUp(p) && a != Die(p) && (a.Reboot? ==> a.host != p.host)
    && (a.ClassifyPrimary? && a.p == p && q.host == p.host ==> Answers(a.lookup))
  }

  ghost predicate HeldThroughout(s: State, acts: seq<Action>, p: Incarnation, q: Incarnation)
    requires IsRun(s, acts)
    decreases |acts|
  {
    Holds(s, q) && (acts != [] ==> Patient(acts[0], p, q) && HeldThroughout(Apply(s, acts[0]), acts[1..], p, q))
  }

  lemma HeldPrimaryStays(s: State, a: Action, q: Incarnation)
    requires Inv(s) && Enabled(s, a) && Holds(s, q) && Holds(Apply(s, a), q)
    ensures Apply(s, a).primary == s.primary
  {
    if a.WriteRecord? || a.DropPrimary? || a.UnlinkPrimary? || a.UnlinkStale? {
      if a.p != q {
        OwnerIsAlone(s, q, a.p);
      }
    } else {
      HolderIsTheOwner(s, q);
      hide Inv;
      OthersLeaveThePrimary(s, a);
    }
  }

  lemma OthersLeaveThePrimary(s: State, a: Action)
    requires Enabled(s, a) && s.primary.Sealed?
    requires !(a.WriteRecord? || a.DropPrimary? || a.UnlinkPrimary? || a.UnlinkStale?)
    ensures Apply(s, a).primary == s.primary
  {
    hide VerdictBy, RecordOf, Spawned, Died, Rebooted, Survivors;
  }

  /** Only its own steps, its death and a reboot of its host move a process. */
  lemma OthersLeaveThePoint(s: State, a: Action, p: Incarnation)
    requires Enabled(s, a) && p in s.pcs && a != Die(p) && (a.Reboot? ==> a.host != p.host)
    requires a.Reboot? || a.p != p
    ensures p in Apply(s, a).pcs && Apply(s, a).pcs[p] == s.pcs[p]
  {
    if !IsOwnerAction(a) {
      NonOwnersLeaveThePoint(s, a, p);
    } else {
      OwnersLeaveThePoint(s, a, p);
    }
    hide Apply, Enabled;
  }

  lemma NonOwnersLeaveThePoint(s: State, a: Action, p: Incarnation)
    requires Enabled(s, a) && p in s.pcs && a != Die(p) && (a.Reboot? ==> a.host != p.host)
    requires !IsOwnerAction(a) && (a.Reboot? || a.p != p)
    ensures p in Apply(s, a).pcs && Apply(s, a).pcs[p] == s.pcs[p]
  {
    hide VerdictBy, RecordOf, Spawned, Died, Rebooted, Survivors;
  }

  lemma OwnersLeaveThePoint(s: State, a: Action, p: Incarnation)
    requires Enabled(s, a) && IsOwnerAction(a) && a.p != p && p in s.pcs
    ensures p in Apply(s, a).pcs && Apply(s, a).pcs[p] == s.pcs[p]
  {
    if IsCommitAction(a) {
      CommittersLeaveThePoint(s, a, p);
    } else {
      assert Apply(s, a).pcs == s.pcs[a.p := Apply(s, a).pcs[a.p]];
    }
  }

  lemma CommittersLeaveThePoint(s: State, a: Action, p: Incarnation)
    requires Enabled(s, a) && IsCommitAction(a) && a.p != p && p in s.pcs
    ensures p in Apply(s, a).pcs && Apply(s, a).pcs[p] == s.pcs[p]
  {
  }

  lemma OwnStepWaits(s: State, a: Action, p: Incarnation)
    requires Enabled(s, a) && Waiting(s, p) && s.primary.Sealed? && !a.Reboot? && a.p == p
    requires a != GiveUp(p) && a != Die(p) && !a.ClassifyPrimary? && !a.Spawn?
    ensures Waiting(Apply(s, a), p)
  {
    hide VerdictBy, RecordOf;
  }

  lemma NewcomersAreNew(s: State, a: Action)
    requires Inv(s) && Enabled(s, a) && a.Spawn?
    ensures a.p !in s.pcs
  {
  }

  lemma WaitsOn(s: State, a: Action, p: Incarnation, q: Incarnation)
    requires Inv(s) && Enabled(s, a) && Holds(s, q) && Holds(Apply(s, a), q)
    requires Waiting(s, p) && Telling(s, p, q) && Patient(a, p, q)
    ensures Waiting(Apply(s, a), p) && Telling(Apply(s, a), p, q)
  {
    HeldPrimaryStays(s, a, q);
    if a.Spawn? {
      NewcomersAreNew(s, a);
    }
    if a.ClassifyPrimary? && a.p == p {
      LiveHolderIsWaitedFor(s, p, q, a.lookup);
    } else if !a.Reboot? && a.p == p {
      hide Inv, Enabled, Apply, Waiting;
      StartedOnce(s, a, p);
      OwnStepWaits(s, a, p);
    } else {
      hide Inv, Enabled, Apply;
      OthersLeaveThePoint(s, a, p);
    }
  }

  lemma StartedOnce(s: State, a: Action, p: Incarnation)
    requires Waiting(s, p) && (a.Spawn? ==> a.p !in s.pcs)
    ensures a.Spawn? ==> a.p != p
  {
  }

  /** For as long as somebody alive holds the lock, whatever all the others do, a contender waits: it neither stops nor
      recovers nor gets in. */
  lemma {:induction false} ContenderKeepsWaiting(s: State, acts: seq<Action>, p: Incarnation, q: Incarnation)
    requires Inv(s) && IsRun(s, acts) && HeldThroughout(s, acts, p, q)
    requires Waiting(s, p) && Telling(s, p, q)
    ensures Waiting(Final(s, acts), p) && Holds(Final(s, acts), q)
    decreases |acts|
  {
    if acts != [] {
      StepKeepsInv(s, acts[0]);
      WaitsOn(s, acts[0], p, q);
      hide Inv, Enabled, Apply, Waiting, Telling, Patient, Holds;
      ContenderKeepsWaiting(Apply(s, acts[0]), acts[1..], p, q);
    }
  }

  // ---------------------------------------------------------------- release and after

  /** Releasing is two steps, after which the lock file is gone and nobody owns it. */
  lemma ReleaseFreesTheLock(s: State, q: Incarnation) returns (free: State)
    requires Inv(s) && Holds(s, q)
    ensures Reaches(s, free) && Inv(free)
    ensures free == Goto(s, q, Idle).(primary := Absent, creator := None)
    ensures forall p :: p in free.pcs ==> !Owns(free.pcs[p])
  {
    var releasing := Goto(s, q, Releasing);
    ReleaseIsTwoSteps(s, q);
    hide Enabled, Apply;
    StepKeepsInv(s, Release(q));
    StepKeepsInv(releasing, UnlinkPrimary(q, true));
    hide Inv;
    free := Apply(releasing, UnlinkPrimary(q, true));
    NobodyOwns(free);
    ReachesSelf(free);
    ReachesBefore(releasing, UnlinkPrimary(q, true), free);
    ReachesBefore(s, Release(q), free);
  }

  lemma ReleaseIsTwoSteps(s: State, q: Incarnation)
    requires Holds(s, q)
    ensures Enabled(s, Release(q)) && Apply(s, Release(q)) == Goto(s, q, Releasing)
    ensures
      var releasing := Goto(s, q, Releasing);
      && Enabled(releasing, UnlinkPrimary(q, true))
      && Apply(releasing, UnlinkPrimary(q, true)) == Goto(s, q, Idle).(primary := Absent, creator := None)
  {
    assert s.pcs[q := Releasing][q := Idle] == s.pcs[q := Idle];
  }

  lemma NobodyOwns(s: State)
    requires Inv(s) && s.creator.None?
    ensures forall p :: p in s.pcs ==> !Owns(s.pcs[p])
  {
    forall p | p in s.pcs ensures !Owns(s.pcs[p]) {
      assert PcOk(s, p, s.pcs[p]);
    }
  }

  /** One pass over a held lock: refused create, read, verdict, and back to the start. */
  lemma OnePass(s: State, p: Incarnation, q: Incarnation, token: nat) returns (after: State)
    requires Inv(s) && Holds(s, q) && Telling(s, p, q) && At(s, p, StepA) && !s.mutex && token !in s.issued
    ensures Reaches(s, after) && Inv(after) && At(after, p, StepA) && Holds(after, q) && !after.mutex
    ensures after == s.(issued := s.issued[token := Issue(p, RecordOf(p, true, token))])
  {
    var lookup := LiveLookup(s, p, q);
    var seen := HeldLockIsRead(s, p, token);
    ReadingKeepsInv(s, p, q, token);
    OneLook(s, p, q, token, lookup);
    hide Inv, Enabled, Apply, WorldOk;
    after := Apply(seen, ClassifyPrimary(p, lookup));
    ReachesSelf(after);
    ReachesBefore(seen, ClassifyPrimary(p, lookup), after);
    ReachesTrans(s, seen, after);
  }

  function Known(s: State, p: Incarnation, token: nat): State {
    s.(issued := s.issued[token := Issue(p, RecordOf(p, true, token))])
  }

  lemma ReadingKeepsInv(s: State, p: Incarnation, q: Incarnation, token: nat)
    requires Inv(s) && Holds(s, q) && s.primary.Sealed? && p in s.pcs && token !in s.issued
    ensures Inv(Known(s, p, token)) && Inv(Goto(Known(s, p, token), p, Classifying(s.primary.rec)))
  {
    HolderIsTheOwner(s, q);
    IssueKeepsInv(s, p, RecordOf(p, true, token));
    MoveKeepsInv(Known(s, p, token), p, Classifying(s.primary.rec));
    hide Inv, WorldOk;
  }

  lemma OneLook(s: State, p: Incarnation, q: Incarnation, token: nat, lookup: Lookup)
    requires s.primary.Sealed? && Telling(s, p, q) && Holds(s, q) && At(s, p, StepA)
    requires p.host in s.world.boots && Faithful(s.world, p.host, s.primary.rec.pid, lookup)
    requires q.host == p.host ==> Answers(lookup)
    requires Inv(Goto(Known(s, p, token), p, Classifying(s.primary.rec)))
    ensures
      var seen := Goto(Known(s, p, token), p, Classifying(s.primary.rec));
      Enabled(seen, ClassifyPrimary(p, lookup)) && Apply(seen, ClassifyPrimary(p, lookup)) == Known(s, p, token)
  {
    var seen := Goto(Known(s, p, token), p, Classifying(s.primary.rec));
    hide Inv, WorldOk, Apply;
    LiveHolderIsWaitedFor(seen, p, q, lookup);
    assert Goto(seen, p, StepA).pcs == s.pcs;
  }

  /** A refused create and a read. */
  lemma HeldLockIsRead(s: State, p: Incarnation, token: nat) returns (seen: State)
    requires At(s, p, StepA) && s.primary.Sealed? && !s.mutex && token !in s.issued
    ensures Reaches(s, seen)
    ensures seen == Goto(s.(issued := s.issued[token := Issue(p, RecordOf(p, true, token))]), p, Classifying(s.primary.rec))
  {
    var s1 := Apply(s, CheckMutex(p));
    var s2 := Apply(s1, CreatePrimary(p, true, token));
    seen := Apply(s2, ReadPrimary(p));
    assert seen.pcs == s.pcs[p := Classifying(s.primary.rec)];
    ReachesSelf(seen);
    ReachesBefore(s2, ReadPrimary(p), seen);
    ReachesBefore(s1, CreatePrimary(p, true, token), seen);
    ReachesBefore(s, CheckMutex(p), seen);
  }

  /** A lookup of the holder's pid that the machine can give. */
  lemma LiveLookup(s: State, p: Incarnation, q: Incarnation) returns (lookup: Lookup)
    requires Inv(s) && Holds(s, q) && s.primary.Sealed? && p in s.pcs
    ensures p.host in s.world.boots && Faithful(s.world, p.host, s.primary.rec.pid, lookup)
    ensures q.host == p.host ==> Answers(lookup)
  {
    HolderIsTheOwner(s, q);
    lookup := if q.host == p.host then Running(Some(q.start)) else LookupFailed;
  }

  /** A contender that has met a live holder, waited, and tried again once the holder has released, can hold the lock. */
  lemma ReleasedLockIsTaken(s: State, p: Incarnation, q: Incarnation, t1: nat, t2: nat)
    returns (waited: State, free: State, end: State)
    requires Inv(s) && Holds(s, q) && Telling(s, p, q) && At(s, p, StepA) && !s.mutex
    requires t1 !in s.issued && t2 !in s.issued && t1 != t2
    ensures Reaches(s, waited) && Holds(waited, q) && At(waited, p, StepA)
    ensures Reaches(waited, free) && free.primary.Absent? && At(free, q, Idle)
    ensures Reaches(free, end) && Reaches(s, end) && p in end.pcs && end.pcs[p].Holding?
  {
    waited := OnePass(s, p, q, t1);
    free := ReleaseFreesTheLock(waited, q);
    hide Inv;
    end := FreeLockIsTaken(free, p, t2);
    ReachesTrans(waited, free, end);
    ReachesTrans(s, waited, end);
  }

  // ---------------------------------------------------- while somebody is recovering

  ghost predicate MutexThroughout(s: State, acts: seq<Action>, p: Incarnation)
    requires IsRun(s, acts)
    decreases |acts|
  {
    s.mutex
    && (acts != [] ==> acts[0] != GiveUp(p) && acts[0] != Die(p) && (acts[0].Reboot? ==> acts[0].host != p.host)
                       && MutexThroughout(Apply(s, acts[0]), acts[1..], p))
  }

  lemma HeldBack(s: State, a: Action, p: Incarnation)
    requires Inv(s) && Enabled(s, a) && s.mutex && At(s, p, StepA)
    requires a != GiveUp(p) && a != Die(p) && (a.Reboot? ==> a.host != p.host)
    ensures At(Apply(s, a), p, StepA)
  {
    if a.Spawn? {
      NewcomersAreNew(s, a);
    }
    hide Inv, Enabled, Apply;
    if a.Reboot? || a.p != p {
      OthersLeaveThePoint(s, a, p);
    } else {
      CheckFails(s, a, p);
    }
  }

  lemma CheckFails(s: State, a: Action, p: Incarnation)
    requires Enabled(s, a) && s.mutex && At(s, p, StepA) && !a.Reboot? && a.p == p && a != GiveUp(p) && a != Die(p) && !a.Spawn?
    ensures At(Apply(s, a), p, StepA)
  {
  }

  /** Nobody tries for the lock while the recovery mutex is there: a contender stays before its check for as long. */
  lemma {:induction false} RecoveryHoldsBack(s: State, acts: seq<Action>, p: Incarnation)
    requires Inv(s) && IsRun(s, acts) && MutexThroughout(s, acts, p) && At(s, p, StepA)
    ensures At(Final(s, acts), p, StepA)
    decreases |acts|
  {
    if acts != [] {
      StepKeepsInv(s, acts[0]);
      HeldBack(s, acts[0], p);
      hide Inv, Enabled, Apply;
      RecoveryHoldsBack(Apply(s, acts[0]), acts[1..], p);
    }
  }

  /** A lock whose record could not be written is dropped again, and can be taken by the next. */
  lemma HalfMadeLockIsDropped(s: State, p: Incarnation, q: Incarnation, written: bool, token: nat)
    returns (dropped: State, end: State)
    requires p in s.pcs && p != q && At(s, q, StepA) && !s.mutex && token !in s.issued
    requires if written then s.pcs[p].Written? else s.pcs[p].Created?
    ensures Reaches(s, dropped) && At(dropped, p, Idle) && dropped.primary.Absent?
    ensures Reaches(dropped, end) && q in end.pcs && end.pcs[q].Holding?
  {
    dropped := DroppedAgain(s, p, written);
    end := FreeLockIsTaken(dropped, q, token);
  }

  lemma DroppedAgain(s: State, p: Incarnation, written: bool) returns (dropped: State)
    requires p in s.pcs && if written then s.pcs[p].Written? else s.pcs[p].Created?
    ensures Reaches(s, dropped) && dropped == Goto(s, p, Idle).(primary := Absent, creator := None)
  {
    var fails := if written then SyncRecord(p, false) else WriteRecord(p, false);
    var failed := Goto(s, p, SealFailed);
    assert Apply(s, fails) == failed;
    dropped := Apply(failed, DropPrimary(p, true));
    assert dropped.pcs == s.pcs[p := Idle];
    ReachesSelf(dropped);
    ReachesBefore(failed, DropPrimary(p, true), dropped);
    ReachesBefore(s, fails, dropped);
  }

  // --------------------------------------------------------------- why a contender stops

  /** From the first check to the end of a recovery. */
  predicate Contending(pc: Pc) {
    pc in {StepA, StepB, StepC} || pc.Classifying? || pc.RecoverOpen? || InRecovery(pc)
  }

  /** The three steps that stop a contender. */
  predicate Stops(s: State, a: Action, p: Incarnation)
    requires p in s.pcs
  {
    || a == GiveUp(p)
    || (a == ReadPrimary(p) && s.primary.Torn?)
    || (a.ClassifyPrimary? && a.p == p && s.pcs[p].Classifying? && p.host in s.world.boots
        && VerdictBy(s, p, s.pcs[p].rec, a.lookup) == Ambiguous)
  }

  /** A contender gives up exactly on its own deadline, on a half-written lock file it cannot parse, or on an ambiguous
      verdict; whatever else it meets, a file gone again, a live or foreign owner, a lost race for the mutex or a failed
      recovery, it tries again or goes on. */
  lemma WhyAContenderStops(s: State, a: Action, p: Incarnation)
    requires Inv(s) && Enabled(s, a) && p in s.pcs && Contending(s.pcs[p]) && p in Apply(s, a).pcs
    ensures Apply(s, a).pcs[p] == Idle <==> Stops(s, a, p)
  {
    if a.Spawn? {
      NewcomersAreNew(s, a);
    }
    hide Inv, Enabled, Apply;
    if a == Die(p) || (a.Reboot? && a.host == p.host) {
      DeathLeavesNoPoint(s, a, p);
    } else if a.Reboot? || a.p != p {
      OthersLeaveThePoint(s, a, p);
      OthersStopNobody(s, a, p);
    } else {
      OwnStop(s, a, p);
    }
  }

  lemma OthersStopNobody(s: State, a: Action, p: Incarnation)
    requires p in s.pcs && (a.Reboot? || a.p != p) && Contending(s.pcs[p])
    ensures !Stops(s, a, p) && s.pcs[p] != Idle
  {
  }

  lemma OwnStop(s: State, a: Action, p: Incarnation)
    requires Enabled(s, a) && p in s.pcs && Contending(s.pcs[p]) && !a.Reboot? && a.p == p && !a.Spawn? && !a.Die?
    requires p in Apply(s, a).pcs
    ensures Apply(s, a).pcs[p] == Idle <==> Stops(s, a, p)
  {
    if IsReadingAction(a) {
      ReadingStop(s, a, p);
    } else {
      OtherStop(s, a, p);
    }
    hide Enabled, Apply, Stops;
  }

  lemma ReadingStop(s: State, a: Action, p: Incarnation)
    requires Enabled(s, a) && p in s.pcs && Contending(s.pcs[p]) && IsReadingAction(a) && a.p == p
    requires p in Apply(s, a).pcs
    ensures Apply(s, a).pcs[p] == Idle <==> Stops(s, a, p)
  {
  }

  lemma OtherStop(s: State, a: Action, p: Incarnation)
    requires Enabled(s, a) && p in s.pcs && Contending(s.pcs[p]) && !IsReadingAction(a)
    requires !a.Reboot? && a.p == p && !a.Spawn? && !a.Die? && p in Apply(s, a).pcs
    ensures Apply(s, a).pcs[p] == Idle <==> Stops(s, a, p)
  {
    hide VerdictBy, RecordOf;
  }

  lemma DeathLeavesNoPoint(s: State, a: Action, p: Incarnation)
    requires Enabled(s, a) && (a == Die(p) || (a.Reboot? && a.host == p.host))
    ensures p !in Apply(s, a).pcs
  {
  }

  /** A lock file that is gone again when it is read is tried for again. */
  lemma VanishedLockIsRetried(s: State, p: Incarnation, token: nat) returns (end: State)
    requires At(s, p, StepC) && s.primary.Absent? && !s.mutex && token !in s.issued
    ensures Reaches(s, end) && p in end.pcs && end.pcs[p].Holding?
  {
    var again := Apply(s, ReadPrimary(p));
    end := FreeLockIsTaken(again, p, token);
    ReachesBefore(s, ReadPrimary(p), end);
  }
}
