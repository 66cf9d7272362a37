/** The primary lock, its stale-owner recovery, and the commits made under it, as one machine of
    interleaved atomic file-system steps by any number of processes on any number of hosts. */
module PhaseLock {
  import opened Prelude
  import opened Transition
  import opened Lifecycle
  import opened LockClassifier

  /** The primary lock file: created empty, then its record is written. */
  datatype Primary = Absent | Torn | Sealed(rec: OwnerRecord)

  /** The verbs that commit under the primary lock. */
  datatype LockedVerb = LockedApprove(approve: ApproveArgs, nowNs: nat) | LockedReopen(reopen: ReopenArgs)

  /** Where the lock holder is in its transaction. */
  datatype Job =
    | Entered
    | Loaded(before: PhaseState)
    | Decided(before: PhaseState, verb: LockedVerb)
    | TmpOpen(before: PhaseState, verb: LockedVerb)
    | TmpWritten(before: PhaseState, verb: LockedVerb)
    | RowAppended(before: PhaseState, verb: LockedVerb)
    | Committed

  datatype Pc =
    | Idle
    | StepA                            // about to test for the recovery mutex
    | StepB                            // about to create the primary exclusively
    | Created(rec: OwnerRecord)        // file exists, still empty
    | Written(rec: OwnerRecord)        // record written, not yet synced
    | SealFailed                       // about to drop its own half-made lock
    | Holding(token: nat, job: Job)    // acquire_primary returned a handle
    | Releasing                        // handle marked released and closed, about to unlink
    | StepC                            // creation refused, about to read the record
    | Classifying(rec: OwnerRecord)
    | RecoverOpen(token: nat)          // about to create the recovery mutex
    | RecoverReadI(token: nat)
    | RecoverClassify(rec: OwnerRecord)
    | RecoverReadII(rec: OwnerRecord)
    | RecoverUnlink(rec: OwnerRecord)
    | RecoverClose                     // about to remove the recovery mutex

  datatype Issue = Issue(who: Incarnation, rec: OwnerRecord)

  datatype Commit = Commit(before: PhaseState, after: PhaseState, verb: LockedVerb)

  type Effect = (PhaseState, LockedVerb) -> Option<PhaseState>

  /** `creator`, `issued`, `first` and `commits` are history; `effect` is what a locked verb commits and never
      changes. */
  datatype State = State(
    effect: Effect,
    world: World,
    primary: Primary,
    creator: Option<Incarnation>,
    mutex: bool,
    pcs: map<Incarnation, Pc>,
    issued: map<nat, Issue>,
    file: Option<PhaseState>,
    tmp: Option<Option<PhaseState>>,   // the `.tmp` file: absent, empty, or written
    rows: seq<Commit>,
    first: Option<PhaseState>,
    commits: seq<Commit>)

  datatype Action =
    | Spawn(p: Incarnation) | Die(p: Incarnation) | Reboot(host: string, boot: string)
    | Begin(p: Incarnation)
    | CheckMutex(p: Incarnation)
    | GiveUp(p: Incarnation)
    | CreatePrimary(p: Incarnation, startKnown: bool, token: nat)
    | WriteRecord(p: Incarnation, ok: bool)
    | SyncRecord(p: Incarnation, ok: bool)
    | DropPrimary(p: Incarnation, ok: bool)
    | ReadPrimary(p: Incarnation)
    | ClassifyPrimary(p: Incarnation, lookup: Lookup)
    | OpenMutex(p: Incarnation)
    | ReadI(p: Incarnation)
    | ClassifyI(p: Incarnation, lookup: Lookup)
    | ReadII(p: Incarnation)
    | UnlinkStale(p: Incarnation, ok: bool)
    | CloseMutex(p: Incarnation)
    | LoadState(p: Incarnation)
    | Decide(p: Incarnation, verb: LockedVerb)
    | OpenTmp(p: Incarnation)
    | WriteTmp(p: Incarnation)
    | AppendRow(p: Incarnation)
    | ReplaceState(p: Incarnation)
    | Release(p: Incarnation)
    | UnlinkPrimary(p: Incarnation, ok: bool)

  /** The state a locked verb commits; None when the verb refuses. */
  function After(before: PhaseState, verb: LockedVerb): Option<PhaseState> {
    match verb
    case LockedApprove(args, now) =>
      var (file, outcome) := PhaseApprove(Some(before), args, now);
      if outcome == Approved then file else None
    case LockedReopen(args) =>
      var (file, outcome) := PhaseReopen(Some(before), args);
      if outcome == Reopened then file else None
  }

  predicate At(s: State, p: Incarnation, pc: Pc) {
    p in s.pcs && s.pcs[p] == pc
  }

  function Goto(s: State, p: Incarnation, pc: Pc): State {
    s.(pcs := s.pcs[p := pc])
  }

  function VerdictBy(s: State, p: Incarnation, rec: OwnerRecord, lookup: Lookup): Verdict
    requires p.host in s.world.boots
  {
    Classify(rec, p.host, s.world.boots[p.host], lookup)
  }

  ghost predicate Enabled(s: State, a: Action) {
    match a
    case Spawn(p) => CanSpawn(s.world, p)
    case Die(p) => p in s.pcs
    case Reboot(host, boot) => CanReboot(s.world, host, boot)
    case Begin(p) => At(s, p, Idle)
    case CheckMutex(p) => At(s, p, StepA)
    case GiveUp(p) => p in s.pcs && (s.pcs[p] in {StepA, StepC} || s.pcs[p].Classifying?)
    case CreatePrimary(p, _, token) => At(s, p, StepB) && token !in s.issued
    case WriteRecord(p, _) => p in s.pcs && s.pcs[p].Created?
    case SyncRecord(p, _) => p in s.pcs && s.pcs[p].Written?
    case DropPrimary(p, _) => At(s, p, SealFailed)
    case ReadPrimary(p) => At(s, p, StepC)
    case ClassifyPrimary(p, lookup) =>
      p in s.pcs && s.pcs[p].Classifying? && p.host in s.world.boots
      && Faithful(s.world, p.host, s.pcs[p].rec.pid, lookup)
    case OpenMutex(p) => p in s.pcs && s.pcs[p].RecoverOpen?
    case ReadI(p) => p in s.pcs && s.pcs[p].RecoverReadI?
    case ClassifyI(p, lookup) =>
      p in s.pcs && s.pcs[p].RecoverClassify? && p.host in s.world.boots
      && Faithful(s.world, p.host, s.pcs[p].rec.pid, lookup)
    case ReadII(p) => p in s.pcs && s.pcs[p].RecoverReadII?
    case UnlinkStale(p, _) => p in s.pcs && s.pcs[p].RecoverUnlink?
    case CloseMutex(p) => At(s, p, RecoverClose)
    case LoadState(p) => p in s.pcs && s.pcs[p].Holding? && s.pcs[p].job.Entered?
    case Decide(p, _) => p in s.pcs && s.pcs[p].Holding? && s.pcs[p].job.Loaded?
    case OpenTmp(p) => p in s.pcs && s.pcs[p].Holding? && s.pcs[p].job.Decided?
    case WriteTmp(p) => p in s.pcs && s.pcs[p].Holding? && s.pcs[p].job.TmpOpen?
    case AppendRow(p) => p in s.pcs && s.pcs[p].Holding? && s.pcs[p].job.TmpWritten?
    case ReplaceState(p) => p in s.pcs && s.pcs[p].Holding? && s.pcs[p].job.RowAppended?
    case Release(p) => p in s.pcs && s.pcs[p].Holding?
    case UnlinkPrimary(p, _) => At(s, p, Releasing)
  }

  /** The state after one atomic step. A step that can fail takes the outcome as `ok`. */
  ghost function Apply(s: State, a: Action): State
    requires Enabled(s, a)
  {
    match a
    case Spawn(p) => s.(world := Spawned(s.world, p), pcs := s.pcs[p := Idle])
    case Die(p) => s.(world := Died(s.world, p), pcs := s.pcs - {p})
    case Reboot(host, boot) =>
      s.(world := Rebooted(s.world, host, boot), pcs := map p | p in s.pcs && p.host != host :: s.pcs[p])
    case Begin(p) => Goto(s, p, StepA)
    case CheckMutex(p) => if s.mutex then s else Goto(s, p, StepB)
    case GiveUp(p) => Goto(s, p, Idle)
    case CreatePrimary(p, startKnown, token) =>
      var rec := RecordOf(p, startKnown, token);
      var s1 := s.(issued := s.issued[token := Issue(p, rec)]);
      if s.primary.Absent? then Goto(s1, p, Created(rec)).(primary := Torn, creator := Some(p))
      else Goto(s1, p, StepC)
    case WriteRecord(p, ok) =>
      if ok then Goto(s, p, Written(s.pcs[p].rec)).(primary := Sealed(s.pcs[p].rec)) else Goto(s, p, SealFailed)
    case SyncRecord(p, ok) => Goto(s, p, if ok then Holding(s.pcs[p].rec.token, Entered) else SealFailed)
    case DropPrimary(p, ok) => if ok then Goto(s, p, Idle).(primary := Absent, creator := None) else Goto(s, p, Idle)
    case ReadPrimary(p) =>
      (match s.primary
       case Absent => Goto(s, p, StepA)
       case Torn => Goto(s, p, Idle)            // the empty file does not parse: the error propagates
       case Sealed(rec) => Goto(s, p, Classifying(rec)))
    case ClassifyPrimary(p, lookup) =>
      (match VerdictBy(s, p, s.pcs[p].rec, lookup)
       case Ambiguous => Goto(s, p, Idle)
       case Live => Goto(s, p, StepA)
       case ForeignHost => Goto(s, p, StepA)
       case Stale => Goto(s, p, RecoverOpen(s.pcs[p].rec.token)))
    case OpenMutex(p) => if s.mutex then Goto(s, p, StepA) else Goto(s, p, RecoverReadI(s.pcs[p].token)).(mutex := true)
    case ReadI(p) =>
      if s.primary.Sealed? && s.primary.rec.token == s.pcs[p].token then Goto(s, p, RecoverClassify(s.primary.rec))
      else Goto(s, p, RecoverClose)
    case ClassifyI(p, lookup) =>
      if VerdictBy(s, p, s.pcs[p].rec, lookup) == Stale then Goto(s, p, RecoverReadII(s.pcs[p].rec))
      else Goto(s, p, RecoverClose)
    case ReadII(p) =>
      if s.primary.Sealed? && s.primary.rec.token == s.pcs[p].rec.token then Goto(s, p, RecoverUnlink(s.pcs[p].rec))
      else Goto(s, p, RecoverClose)
    case UnlinkStale(p, ok) =>
      if ok then Goto(s, p, RecoverClose).(primary := Absent, creator := None) else Goto(s, p, RecoverClose)
    case CloseMutex(p) => Goto(s, p, StepA).(mutex := false)
    case LoadState(p) =>
      if s.file.None? then Goto(s, p, Releasing) else Goto(s, p, Holding(s.pcs[p].token, Loaded(s.file.value)))
    case Decide(p, verb) =>
      var before := s.pcs[p].job.before;
      if s.effect(before, verb).None? then Goto(s, p, Releasing)
      else Goto(s, p, Holding(s.pcs[p].token, Decided(before, verb)))
    case OpenTmp(p) =>
      if s.tmp.Some? then Goto(s, p, Releasing)  // a leftover tmp refuses the exclusive create
      else Goto(s, p, Holding(s.pcs[p].token, TmpOpen(s.pcs[p].job.before, s.pcs[p].job.verb))).(tmp := Some(None))
    case WriteTmp(p) =>
      var job := s.pcs[p].job;
      Goto(s, p, Holding(s.pcs[p].token, TmpWritten(job.before, job.verb))).(tmp := Some(s.effect(job.before, job.verb)))
    case AppendRow(p) =>
      var job := s.pcs[p].job;
      var after := s.effect(job.before, job.verb);
      if after.None? then s
      else
        Goto(s, p, Holding(s.pcs[p].token, RowAppended(job.before, job.verb)))
          .(rows := s.rows + [Commit(job.before, after.value, job.verb)])
    case ReplaceState(p) =>
      var job := s.pcs[p].job;
      if s.tmp.None? || s.tmp.value.None? then s
      else
        Goto(s, p, Holding(s.pcs[p].token, Committed))
          .(file := s.tmp.value, tmp := None, commits := s.commits + [Commit(job.before, s.tmp.value.value, job.verb)])
    case Release(p) => Goto(s, p, Releasing)
    case UnlinkPrimary(p, ok) => if ok then Goto(s, p, Idle).(primary := Absent, creator := None) else Goto(s, p, Idle)
  }

  // -------------------------------------------------------------------- runs

  ghost predicate Init(s: State) {
    && WorldOk(s.world)
    && s.pcs.Keys == s.world.alive
    && (forall p :: p in s.pcs ==> s.pcs[p] == Idle)
    && s.primary == Absent && s.creator == None
    && s.issued == map[]
    && s.first == s.file && s.commits == [] && s.rows == []
  }

  ghost predicate IsRun(s: State, acts: seq<Action>)
    decreases |acts|
  {
    acts == [] || (Enabled(s, acts[0]) && IsRun(Apply(s, acts[0]), acts[1..]))
  }

  ghost function Final(s: State, acts: seq<Action>): State
    requires IsRun(s, acts)
    decreases |acts|
  {
    if acts == [] then s else Final(Apply(s, acts[0]), acts[1..])
  }

  // --------------------------------------------------------------- invariant

  /** Between the exclusive create and the final unlink the lock file is this process's own. */
  predicate Owns(pc: Pc) {
    pc.Created? || pc.Written? || pc.SealFailed? || pc.Holding? || pc.Releasing?
  }

  /** Between creating the recovery mutex and removing it. */
  predicate InRecovery(pc: Pc) {
    pc.RecoverReadI? || pc.RecoverClassify? || pc.RecoverReadII? || pc.RecoverUnlink? || pc.RecoverClose?
  }

  ghost predicate IsIssued(s: State, rec: OwnerRecord) {
    rec.token in s.issued && s.issued[rec.token].rec == rec
  }

  ghost predicate DeadOwner(s: State, token: nat) {
    token in s.issued && s.issued[token].who !in s.world.alive
  }

  ghost predicate IssuesOk(s: State) {
    forall t :: t in s.issued ==>
      && s.issued[t].who in s.world.ever
      && s.issued[t].rec.token == t
      && Describes(s.issued[t].rec, s.issued[t].who)
  }

  ghost predicate PrimaryOk(s: State) {
    && (s.primary.Absent? <==> s.creator.None?)
    && (s.creator.Some? ==> s.creator.value in s.world.ever)
    && (s.primary.Sealed? ==> IsIssued(s, s.primary.rec) && s.creator == Some(s.issued[s.primary.rec.token].who))
  }

  /** What each program point knows. */
  ghost predicate PcOk(s: State, p: Incarnation, pc: Pc) {
    && (Owns(pc) ==> s.creator == Some(p))
    && (InRecovery(pc) ==> s.mutex)
    && match pc
       case Created(rec) => s.primary.Torn? && IsIssued(s, rec) && s.issued[rec.token].who == p
       case Written(rec) => s.primary == Sealed(rec)
       case Holding(token, job) => s.primary.Sealed? && s.primary.rec.token == token && JobOk(s, job)
       case Classifying(rec) => IsIssued(s, rec)
       case RecoverOpen(token) => DeadOwner(s, token)
       case RecoverReadI(token) => DeadOwner(s, token)
       case RecoverClassify(rec) => s.primary == Sealed(rec) && DeadOwner(s, rec.token)
       case RecoverReadII(rec) => s.primary == Sealed(rec) && DeadOwner(s, rec.token)
       case RecoverUnlink(rec) => s.primary == Sealed(rec) && DeadOwner(s, rec.token)
       case _ => true
  }

  ghost predicate JobOk(s: State, job: Job) {
    match job
    case Entered => true
    case Loaded(before) => s.file == Some(before)
    case Decided(before, verb) => s.file == Some(before) && s.effect(before, verb).Some?
    case TmpOpen(before, verb) => s.file == Some(before) && s.effect(before, verb).Some? && s.tmp == Some(None)
    case TmpWritten(before, verb) => s.file == Some(before) && s.effect(before, verb).Some? && s.tmp == Some(s.effect(before, verb))
    case RowAppended(before, verb) =>
      && s.file == Some(before) && s.effect(before, verb).Some? && s.tmp == Some(s.effect(before, verb))
      && Commit(before, s.effect(before, verb).value, verb) in s.rows
    case Committed => true
  }

  /** The committed states form one chain from the first state file to the present one. */
  ghost predicate IsChain(effect: Effect, first: Option<PhaseState>, commits: seq<Commit>, file: Option<PhaseState>)
    decreases |commits|
  {
    if commits == [] then first == file
    else
      && first == Some(commits[0].before)
      && effect(commits[0].before, commits[0].verb) == Some(commits[0].after)
      && IsChain(effect, Some(commits[0].after), commits[1..], file)
  }

  ghost predicate Inv(s: State) {
    && WorldOk(s.world)
    && s.pcs.Keys == s.world.alive
    && IssuesOk(s)
    && PrimaryOk(s)
    && (forall p :: p in s.pcs ==> PcOk(s, p, s.pcs[p]))
    && (forall p, q :: p in s.pcs && q in s.pcs && InRecovery(s.pcs[p]) && InRecovery(s.pcs[q]) ==> p == q)
    && IsChain(s.effect, s.first, s.commits, s.file)
    && (forall c :: c in s.commits ==> c in s.rows)
  }

  lemma InitSatisfiesInv(s: State)
    requires Init(s)
    ensures Inv(s)
  {
  }

  lemma {:induction false} ChainGrows(effect: Effect, first: Option<PhaseState>, commits: seq<Commit>, file: Option<PhaseState>, c: Commit)
    requires IsChain(effect, first, commits, file) && file == Some(c.before)
    requires effect(c.before, c.verb) == Some(c.after)
    ensures IsChain(effect, first, commits + [c], Some(c.after))
    decreases |commits|
  {
    if commits != [] {
      ChainGrows(effect, Some(commits[0].after), commits[1..], file, c);
      assert (commits + [c])[1..] == commits[1..] + [c];
    }
  }

  // ------------------------------------------------- what one step leaves alone

  /** Validated recovery points: the primary is known to be a dead owner's. */
  predicate Validated(pc: Pc) {
    pc.RecoverClassify? || pc.RecoverReadII? || pc.RecoverUnlink?
  }

  /** While a process owns the lock file nobody else owns it or has validated it for removal. */
  lemma OwnerIsAlone(s: State, p: Incarnation, q: Incarnation)
    requires Inv(s) && p in s.pcs && q in s.pcs && q != p && Owns(s.pcs[p])
    ensures !Owns(s.pcs[q]) && !Validated(s.pcs[q])
  {
    assert PcOk(s, p, s.pcs[p]) && PcOk(s, q, s.pcs[q]);
  }

  /** While a process has validated the primary for removal nobody owns it. */
  lemma ValidatedMeansUnowned(s: State, p: Incarnation, q: Incarnation)
    requires Inv(s) && p in s.pcs && q in s.pcs && Validated(s.pcs[p])
    ensures !Owns(s.pcs[q]) && (q != p ==> !InRecovery(s.pcs[q]))
  {
    assert PcOk(s, p, s.pcs[p]) && PcOk(s, q, s.pcs[q]);
  }

  /** Points that hold no claim on the primary depend only on the mutex, the issued records and who is alive. */
  lemma BystanderFrame(s: State, s': State, q: Incarnation, pc: Pc)
    requires PcOk(s, q, pc) && !Owns(pc) && !Validated(pc)
    requires s'.mutex == s.mutex
    requires forall t :: t in s.issued ==> t in s'.issued && s'.issued[t] == s.issued[t]
    requires forall t :: t in s.issued && s.issued[t].who !in s.world.alive ==> s.issued[t].who !in s'.world.alive
    ensures PcOk(s', q, pc)
  {
  }

  /** Points keep their facts when the lock, the state files and the world are as before. */
  lemma SameFilesFrame(s: State, s': State, q: Incarnation, pc: Pc)
    requires PcOk(s, q, pc)
    requires s' == s.(pcs := s'.pcs)
    ensures PcOk(s', q, pc)
  {
  }

  /** A step that only moves one process to a point whose facts already hold. */
  lemma MoveKeepsInv(s: State, p: Incarnation, pc: Pc)
    requires Inv(s) && p in s.pcs
    requires PcOk(s, p, pc) && (InRecovery(pc) ==> InRecovery(s.pcs[p]))
    ensures Inv(Goto(s, p, pc))
  {
    hide IsChain, WorldOk;
    var s' := Goto(s, p, pc);
    assert s'.pcs.Keys == s.pcs.Keys;
    forall q | q in s'.pcs ensures PcOk(s', q, s'.pcs[q]) {
      SameFilesFrame(s, s', q, s'.pcs[q]);
    }
  }

  // ----------------------------------------------------------- each kind of step

  lemma SpawnKeepsInv(s: State, p: Incarnation)
    requires Inv(s) && Enabled(s, Spawn(p))
    ensures Inv(Apply(s, Spawn(p)))
  {
    hide IsChain, WorldOk;
    var s' := s.(world := Spawned(s.world, p), pcs := s.pcs[p := Idle]);
    WorldStaysOk(s.world, p, "", "");
    assert s'.pcs.Keys == s'.world.alive;
    forall q | q in s'.pcs ensures PcOk(s', q, s'.pcs[q]) {
      if q != p {
        SurvivorFrame(s, s', q);
      }
    }
  }

  /** Starting or losing other processes never brings a dead owner back. */
  lemma SurvivorFrame(s: State, s': State, q: Incarnation)
    requires Inv(s) && q in s.pcs
    requires s' == s.(pcs := s'.pcs, world := s'.world)
    requires forall t :: t in s.issued && s.issued[t].who !in s.world.alive ==> s.issued[t].who !in s'.world.alive
    ensures PcOk(s', q, s.pcs[q])
  {
    assert PcOk(s, q, s.pcs[q]);
  }

  lemma DieKeepsInv(s: State, p: Incarnation)
    requires Inv(s) && Enabled(s, Die(p))
    ensures Inv(Apply(s, Die(p)))
  {
    var s' := s.(world := Died(s.world, p), pcs := s.pcs - {p});
    WorldStaysOk(s.world, p, "", "");
    assert s'.pcs.Keys == s'.world.alive;
    forall q | q in s'.pcs ensures PcOk(s', q, s'.pcs[q]) {
      SurvivorFrame(s, s', q);
    }
  }

  lemma RebootKeepsInv(s: State, host: string, boot: string)
    requires Inv(s) && Enabled(s, Reboot(host, boot))
    ensures Inv(Apply(s, Reboot(host, boot)))
  {
    var s' := s.(world := Rebooted(s.world, host, boot), pcs := map p | p in s.pcs && p.host != host :: s.pcs[p]);
    if p :| p in s.world.alive {
      WorldStaysOk(s.world, p, host, boot);
    }
    assert s'.pcs.Keys == s'.world.alive;
    forall q | q in s'.pcs ensures PcOk(s', q, s'.pcs[q]) {
      SurvivorFrame(s, s', q);
    }
  }

  lemma IssueKeepsInv(s: State, p: Incarnation, rec: OwnerRecord)
    requires Inv(s) && p in s.pcs && Describes(rec, p) && rec.token !in s.issued
    ensures Inv(s.(issued := s.issued[rec.token := Issue(p, rec)]))
  {
    var s' := s.(issued := s.issued[rec.token := Issue(p, rec)]);
    assert IssuesOk(s') && PrimaryOk(s');
    forall q | q in s'.pcs ensures PcOk(s', q, s'.pcs[q]) {
      assert PcOk(s, q, s.pcs[q]);
      IssueFrame(s, s', q, s.pcs[q]);
    }
  }

  lemma IssueFrame(s: State, s': State, q: Incarnation, pc: Pc)
    requires s' == s.(issued := s'.issued) && PcOk(s, q, pc)
    requires forall t :: t in s.issued ==> t in s'.issued && s'.issued[t] == s.issued[t]
    ensures PcOk(s', q, pc)
  {
    if pc.Holding? {
      JobFrame(s, s', pc);
    }
  }

  lemma NewPrimaryKeepsInv(s: State, p: Incarnation, rec: OwnerRecord)
    requires Inv(s) && p in s.pcs && !Owns(s.pcs[p]) && !InRecovery(s.pcs[p]) && s.primary.Absent?
    requires IsIssued(s, rec) && s.issued[rec.token].who == p
    ensures Inv(Goto(s, p, Created(rec)).(primary := Torn, creator := Some(p)))
  {
    hide IsChain, WorldOk;
    var s' := Goto(s, p, Created(rec)).(primary := Torn, creator := Some(p));
    assert s'.pcs.Keys == s.pcs.Keys;
    forall q | q in s'.pcs ensures PcOk(s', q, s'.pcs[q]) {
      if q != p {
        assert PcOk(s, q, s.pcs[q]);
        BystanderFrame(s, s', q, s.pcs[q]);
      }
    }
  }

  lemma CreateKeepsInv(s: State, p: Incarnation, startKnown: bool, token: nat)
    requires Inv(s) && Enabled(s, CreatePrimary(p, startKnown, token))
    ensures Inv(Apply(s, CreatePrimary(p, startKnown, token)))
  {
    hide IsChain, WorldOk;
    var rec := RecordOf(p, startKnown, token);
    IssueKeepsInv(s, p, rec);
    var s1 := s.(issued := s.issued[token := Issue(p, rec)]);
    if s.primary.Absent? {
      NewPrimaryKeepsInv(s1, p, rec);
    } else {
      MoveKeepsInv(s1, p, StepC);
    }
  }

  lemma JobFrame(s: State, s': State, pc: Pc)
    requires s'.effect == s.effect && s'.file == s.file && s'.tmp == s.tmp && s'.rows == s.rows
    ensures pc.Holding? && JobOk(s, pc.job) ==> JobOk(s', pc.job)
  {
  }

  /** What a step of the lock owner may change: its own program point, the lock file and the state files. */
  ghost predicate OwnerStep(s: State, p: Incarnation, s': State) {
    && p in s.pcs && p in s'.pcs && !InRecovery(s'.pcs[p])
    && s'.pcs == s.pcs[p := s'.pcs[p]] && s'.world == s.world && s'.issued == s.issued && s'.mutex == s.mutex
    && s'.effect == s.effect && s'.first == s.first
    && PrimaryOk(s') && PcOk(s', p, s'.pcs[p])
    && IsChain(s'.effect, s'.first, s'.commits, s'.file) && (forall c :: c in s'.commits ==> c in s'.rows)
  }

  lemma OwnerStepKeepsInv(s: State, p: Incarnation, s': State)
    requires Inv(s) && p in s.pcs && Owns(s.pcs[p])
    requires OwnerStep(s, p, s')
    ensures Inv(s')
  {
    hide IsChain, WorldOk;
    assert s'.pcs.Keys == s.pcs.Keys;
    forall q | q in s'.pcs ensures PcOk(s', q, s'.pcs[q]) {
      if q != p {
        OwnerIsAlone(s, p, q);
        assert PcOk(s, q, s.pcs[q]);
        BystanderFrame(s, s', q, s.pcs[q]);
      }
    }
  }

  /** The part of the invariant an owner's step relies on. */
  ghost predicate OwnerView(s: State, p: Incarnation) {
    && p in s.pcs && Owns(s.pcs[p]) && PcOk(s, p, s.pcs[p]) && PrimaryOk(s)
    && IsChain(s.effect, s.first, s.commits, s.file) && (forall c :: c in s.commits ==> c in s.rows)
  }

  lemma OwnerViewOf(s: State, p: Incarnation)
    requires Inv(s) && p in s.pcs && Owns(s.pcs[p])
    ensures OwnerView(s, p)
  {
  }

  predicate IsOwnerAction(a: Action) {
    a.WriteRecord? || a.SyncRecord? || a.DropPrimary? || a.UnlinkPrimary? || a.Release? || IsCommitAction(a)
  }

  predicate IsCommitAction(a: Action) {
    a.LoadState? || a.Decide? || a.OpenTmp? || a.WriteTmp? || a.AppendRow? || a.ReplaceState?
  }

  lemma SealStep(s: State, p: Incarnation, a: Action)
    requires (a.WriteRecord? || a.SyncRecord?) && a.p == p && Enabled(s, a) && OwnerView(s, p)
    ensures OwnerStep(s, p, Apply(s, a))
  {
    hide IsChain;
  }

  lemma DropStep(s: State, p: Incarnation, a: Action)
    requires (a.DropPrimary? || a.UnlinkPrimary? || a.Release?) && a.p == p && Enabled(s, a) && OwnerView(s, p)
    ensures OwnerStep(s, p, Apply(s, a))
  {
    hide IsChain;
  }

  lemma LockFileStep(s: State, p: Incarnation, a: Action)
    requires IsOwnerAction(a) && !IsCommitAction(a) && a.p == p && Enabled(s, a) && OwnerView(s, p)
    ensures OwnerStep(s, p, Apply(s, a))
  {
    hide Enabled, Apply, OwnerView, OwnerStep;
    if a.WriteRecord? || a.SyncRecord? {
      SealStep(s, p, a);
    } else {
      DropStep(s, p, a);
    }
  }

  lemma JobStep(s: State, p: Incarnation, a: Action)
    requires (a.LoadState? || a.Decide?) && a.p == p && Enabled(s, a) && OwnerView(s, p)
    ensures OwnerStep(s, p, Apply(s, a))
  {
    hide IsChain;
  }

  lemma TmpStep(s: State, p: Incarnation, a: Action)
    requires (a.OpenTmp? || a.WriteTmp? || a.AppendRow?) && a.p == p && Enabled(s, a) && OwnerView(s, p)
    ensures OwnerStep(s, p, Apply(s, a))
  {
    hide IsChain;
  }

  lemma CommitStep(s: State, p: Incarnation, a: Action)
    requires IsCommitAction(a) && !a.ReplaceState? && a.p == p && Enabled(s, a) && OwnerView(s, p)
    ensures OwnerStep(s, p, Apply(s, a))
  {
    hide Enabled, Apply, OwnerView, OwnerStep;
    if a.LoadState? || a.Decide? {
      JobStep(s, p, a);
    } else {
      TmpStep(s, p, a);
    }
  }

  lemma ReplaceStep(s: State, p: Incarnation, a: Action)
    requires a.ReplaceState? && a.p == p && Enabled(s, a) && OwnerView(s, p)
    ensures OwnerStep(s, p, Apply(s, a))
  {
    var job := s.pcs[p].job;
    ChainGrows(s.effect, s.first, s.commits, s.file, Commit(job.before, s.tmp.value.value, job.verb));
  }

  lemma OwnerPc(s: State, p: Incarnation, a: Action)
    requires IsOwnerAction(a) && a.p == p && Enabled(s, a)
    ensures p in s.pcs && Owns(s.pcs[p])
  {
  }

  lemma OwnerActionKeepsInv(s: State, p: Incarnation, a: Action)
    requires Inv(s) && IsOwnerAction(a) && a.p == p && Enabled(s, a)
    ensures Inv(Apply(s, a))
  {
    hide Inv, Apply, OwnerView, OwnerStep, PcOk, PrimaryOk;
    OwnerPc(s, p, a);
    OwnerViewOf(s, p);
    if a.ReplaceState? {
      ReplaceStep(s, p, a);
    } else if IsCommitAction(a) {
      CommitStep(s, p, a);
    } else {
      LockFileStep(s, p, a);
    }
    OwnerStepKeepsInv(s, p, Apply(s, a));
  }

  lemma UnlinkStaleKeepsInv(s: State, p: Incarnation, ok: bool)
    requires Inv(s) && Enabled(s, UnlinkStale(p, ok))
    ensures Inv(Apply(s, UnlinkStale(p, ok)))
  {
    hide IsChain, WorldOk;
    var s' := Apply(s, UnlinkStale(p, ok));
    assert s'.pcs.Keys == s.pcs.Keys;
    assert PcOk(s, p, s.pcs[p]);
    forall q | q in s'.pcs ensures PcOk(s', q, s'.pcs[q]) {
      ValidatedMeansUnowned(s, p, q);
      if q != p {
        assert PcOk(s, q, s.pcs[q]);
        BystanderFrame(s, s', q, s.pcs[q]);
      }
    }
  }

  lemma OpenMutexKeepsInv(s: State, p: Incarnation)
    requires Inv(s) && Enabled(s, OpenMutex(p))
    ensures Inv(Apply(s, OpenMutex(p)))
  {
    hide IsChain, WorldOk;
    assert PcOk(s, p, s.pcs[p]);
    if s.mutex {
      MoveKeepsInv(s, p, StepA);
    } else {
      var s' := Goto(s, p, RecoverReadI(s.pcs[p].token)).(mutex := true);
      assert s'.pcs.Keys == s.pcs.Keys;
      forall q | q in s'.pcs ensures PcOk(s', q, s'.pcs[q]) {
        MutexFrame(s, s', q, s'.pcs[q]);
      }
    }
  }

  /** Outside recovery no program point depends on the mutex. */
  lemma MutexFrame(s: State, s': State, q: Incarnation, pc: Pc)
    requires s' == s.(pcs := s'.pcs, mutex := s'.mutex)
    requires InRecovery(pc) ==> s'.mutex
    ensures (InRecovery(pc) ==> s.mutex) && PcOk(s, q, pc) ==> PcOk(s', q, pc)
    ensures pc.RecoverReadI? && DeadOwner(s, pc.token) ==> PcOk(s', q, pc)
  {
  }

  lemma CloseMutexKeepsInv(s: State, p: Incarnation)
    requires Inv(s) && Enabled(s, CloseMutex(p))
    ensures Inv(Apply(s, CloseMutex(p)))
  {
    hide IsChain, WorldOk;
    var s' := Goto(s, p, StepA).(mutex := false);
    assert s'.pcs.Keys == s.pcs.Keys;
    forall q | q in s'.pcs ensures PcOk(s', q, s'.pcs[q]) {
      if q != p {
        assert PcOk(s, q, s.pcs[q]);
        MutexFrame(s, s', q, s.pcs[q]);
      }
    }
  }

  predicate IsReadingAction(a: Action) {
    a.Begin? || a.CheckMutex? || a.GiveUp? || a.ReadPrimary? || a.ReadI? || a.ReadII?
  }

  lemma ReadingStep(s: State, p: Incarnation, a: Action)
    requires IsReadingAction(a) && a.p == p && Enabled(s, a)
    requires PcOk(s, p, s.pcs[p]) && PrimaryOk(s)
    ensures Apply(s, a) == s || exists pc ::
      Apply(s, a) == Goto(s, p, pc) && PcOk(s, p, pc) && (InRecovery(pc) ==> InRecovery(s.pcs[p]))
  {
    if Apply(s, a) != s {
      var pc := Apply(s, a).pcs[p];
      assert Apply(s, a) == Goto(s, p, pc);
    }
  }

  lemma ReadingStepKeepsInv(s: State, p: Incarnation, a: Action)
    requires Inv(s) && IsReadingAction(a) && a.p == p && Enabled(s, a)
    ensures Inv(Apply(s, a))
  {
    assert PcOk(s, p, s.pcs[p]);
    ReadingStep(s, p, a);
    if Apply(s, a) != s {
      var pc :| Apply(s, a) == Goto(s, p, pc) && PcOk(s, p, pc) && (InRecovery(pc) ==> InRecovery(s.pcs[p]));
      MoveKeepsInv(s, p, pc);
    }
  }

  lemma ClassifyPrimaryKeepsInv(s: State, p: Incarnation, lookup: Lookup)
    requires Inv(s) && Enabled(s, ClassifyPrimary(p, lookup))
    ensures Inv(Apply(s, ClassifyPrimary(p, lookup)))
  {
    hide IsChain, WorldOk;
    assert PcOk(s, p, s.pcs[p]);
    var rec := s.pcs[p].rec;
    match VerdictBy(s, p, rec, lookup) {
      case Stale =>
        StaleMeansDead(s.world, rec, s.issued[rec.token].who, p, lookup);
        MoveKeepsInv(s, p, RecoverOpen(rec.token));
      case Ambiguous => MoveKeepsInv(s, p, Idle);
      case Live => MoveKeepsInv(s, p, StepA);
      case ForeignHost => MoveKeepsInv(s, p, StepA);
    }
  }

  lemma ClassifyIKeepsInv(s: State, p: Incarnation, lookup: Lookup)
    requires Inv(s) && Enabled(s, ClassifyI(p, lookup))
    ensures Inv(Apply(s, ClassifyI(p, lookup)))
  {
    hide IsChain, WorldOk;
    assert PcOk(s, p, s.pcs[p]);
    var rec := s.pcs[p].rec;
    MoveKeepsInv(s, p, if VerdictBy(s, p, rec, lookup) == Stale then RecoverReadII(rec) else RecoverClose);
  }

  lemma StepKeepsInv(s: State, a: Action)
    requires Inv(s) && Enabled(s, a)
    ensures Inv(Apply(s, a))
  {
    hide Inv, Apply, Enabled;
    match a {
      case Spawn(p) => SpawnKeepsInv(s, p);
      case Die(p) => DieKeepsInv(s, p);
      case Reboot(host, boot) => RebootKeepsInv(s, host, boot);
      case CreatePrimary(p, startKnown, token) => CreateKeepsInv(s, p, startKnown, token);
      case WriteRecord(p, ok) => OwnerActionKeepsInv(s, p, a);
      case SyncRecord(p, ok) => OwnerActionKeepsInv(s, p, a);
      case DropPrimary(p, ok) => OwnerActionKeepsInv(s, p, a);
      case UnlinkPrimary(p, ok) => OwnerActionKeepsInv(s, p, a);
      case ClassifyPrimary(p, lookup) => ClassifyPrimaryKeepsInv(s, p, lookup);
      case ClassifyI(p, lookup) => ClassifyIKeepsInv(s, p, lookup);
      case OpenMutex(p) => OpenMutexKeepsInv(s, p);
      case CloseMutex(p) => CloseMutexKeepsInv(s, p);
      case UnlinkStale(p, ok) => UnlinkStaleKeepsInv(s, p, ok);
      case LoadState(p) => OwnerActionKeepsInv(s, p, a);
      case Decide(p, verb) => OwnerActionKeepsInv(s, p, a);
      case OpenTmp(p) => OwnerActionKeepsInv(s, p, a);
      case WriteTmp(p) => OwnerActionKeepsInv(s, p, a);
      case AppendRow(p) => OwnerActionKeepsInv(s, p, a);
      case ReplaceState(p) => OwnerActionKeepsInv(s, p, a);
      case Release(p) => OwnerActionKeepsInv(s, p, a);
      case Begin(p) => ReadingStepKeepsInv(s, p, a);
      case CheckMutex(p) => ReadingStepKeepsInv(s, p, a);
      case GiveUp(p) => ReadingStepKeepsInv(s, p, a);
      case ReadPrimary(p) => ReadingStepKeepsInv(s, p, a);
      case ReadI(p) => ReadingStepKeepsInv(s, p, a);
      case ReadII(p) => ReadingStepKeepsInv(s, p, a);
    }
  }

  lemma {:induction false} RunKeepsInv(s: State, acts: seq<Action>)
    requires Inv(s) && IsRun(s, acts)
    ensures Inv(Final(s, acts))
    decreases |acts|
  {
    if acts != [] {
      StepKeepsInv(s, acts[0]);
      RunKeepsInv(Apply(s, acts[0]), acts[1..]);
    }
  }
}
