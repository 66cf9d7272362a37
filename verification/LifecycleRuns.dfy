/** Whole runs of the lifecycle verbs from a fresh workspace. */
module LifecycleRuns {
  import opened Prelude
  import opened Timestamps
  import opened Transition
  import opened Lifecycle

  datatype Verb =
    | SetVerb(set_: SetArgs)
    | ApproveVerb(approve: ApproveArgs)
    | ReopenVerb(reopen: ReopenArgs)
    | EditVerb(verification: seq<string>, allowedPaths: seq<string>)

  /** What has happened so far: approvals that took effect, forward moves they paid for, approvals revoked. */
  datatype Ledger = Ledger(approvals: nat, forward: nat, revoked: nat)

  /** The state file with the history the theorems speak of.
      `enteredNs` is when the current phase was last entered by `phase set`, `approvedSince` says an approval took
      effect since it was last entered by any verb, and `waited` that this approval came a second or more
      after the stamp it is compared with, without an explicit `--at`. */
  datatype Sys = Sys(file: Option<PhaseState>, clock: nat, ledger: Ledger, planNs: nat, executeNs: nat,
                     approvedSince: bool, waited: bool)

  function SkeletonState(meta: map<string, string>): PhaseState {
    EMPTY_STATE.(phase := Some(Discuss), schemaVersion := Some(SCHEMA_VERSION), meta := meta)
  }

  /** No state file, or the one `harness init` writes. */
  predicate Fresh(sys: Sys) {
    && (sys.file.Some? ==> sys.file.value == SkeletonState(sys.file.value.meta))
    && sys.ledger == Ledger(0, 0, 0)
    && sys.planNs == sys.executeNs == 0
  }

  predicate IsApproved(file: Option<PhaseState>) {
    file.Some? && file.value.approved
  }

  predicate InPhase(file: Option<PhaseState>, p: Phase) {
    file.Some? && file.value.phase == Some(p)
  }

  function StampNs(sys: Sys): nat {
    if InPhase(sys.file, Execute) then sys.executeNs else sys.planNs
  }

  /** One verb at time `now`; the clock never runs backwards. */
  function Step(sys: Sys, verb: Verb, now: nat): Sys
    requires now >= sys.clock
  {
    match verb
    case SetVerb(args) =>
      var (file, outcome) := PhaseSet(sys.file, args, now);
      if outcome != Moved then sys.(file := file, clock := now)
      else
        var from := if sys.file.Some? then sys.file.value.phase else None;
        var forward := ConsumesApproval(from, args.target) && from != Some(args.target);
        sys.(file := file, clock := now,
             ledger := if forward then sys.ledger.(forward := sys.ledger.forward + 1)
                       else if IsApproved(sys.file) then sys.ledger.(revoked := sys.ledger.revoked + 1)
                       else sys.ledger,
             planNs := if args.target == Plan then now else sys.planNs,
             executeNs := if args.target == Execute then now else sys.executeNs,
             approvedSince := false)
    case ApproveVerb(args) =>
      var (file, outcome) := PhaseApprove(sys.file, args, now);
      if outcome != Approved then sys.(file := file, clock := now)
      else
        sys.(file := file, clock := now,
             ledger := sys.ledger.(approvals := sys.ledger.approvals + 1),
             approvedSince := true,
             waited := args.at.None? && now >= StampNs(sys) + NANOS_PER_SECOND)
    case ReopenVerb(args) =>
      var (file, outcome) := PhaseReopen(sys.file, args);
      if outcome != Reopened then sys.(file := file, clock := now)
      else
        sys.(file := file, clock := now,
             ledger := if IsApproved(sys.file) then sys.ledger.(revoked := sys.ledger.revoked + 1) else sys.ledger,
             approvedSince := false)
    case EditVerb(verification, allowedPaths) =>
      sys.(file := EditScope(sys.file, verification, allowedPaths), clock := now)
  }

  datatype Timed = Timed(verb: Verb, now: nat)

  predicate Monotone(from: nat, verbs: seq<Timed>)
    decreases |verbs|
  {
    verbs == [] || (verbs[0].now >= from && Monotone(verbs[0].now, verbs[1..]))
  }

  function Run(sys: Sys, verbs: seq<Timed>): Sys
    requires Monotone(sys.clock, verbs)
    decreases |verbs|
  {
    if verbs == [] then sys
    else
      StepClock(sys, verbs[0]);
      Run(Step(sys, verbs[0].verb, verbs[0].now), verbs[1..])
  }

  lemma StepClock(sys: Sys, t: Timed)
    requires t.now >= sys.clock
    ensures Step(sys, t.verb, t.now).clock == t.now
  {
  }

  // ------------------------------------------------------------ the invariant

  function Bit(b: bool): nat {
    if b then 1 else 0
  }

  /** Approvals are spent once: each one is still held, paid for one forward move, or was revoked. */
  predicate Conserved(sys: Sys) {
    sys.ledger.approvals == sys.ledger.forward + sys.ledger.revoked + Bit(IsApproved(sys.file))
  }

  predicate ApprovalIsCurrent(sys: Sys) {
    IsApproved(sys.file) ==>
      (InPhase(sys.file, Plan) || InPhase(sys.file, Execute)) && sys.approvedSince
  }

  /** The stamps the gates read are the ones the phase entries wrote. */
  predicate StampsMatch(sys: Sys) {
    sys.file.Some? ==>
      var s := sys.file.value;
      && s.phase.Some? && Known(s.phase.value)
      && s.manual
      && s.schemaVersion in {None, Some(SCHEMA_VERSION)}
      && (s.phase in {Some(Plan), Some(Execute), Some(Done)} ==> s.planFinalizedAt == Some(NowIsoNanos(sys.planNs)))
      && (s.phase == Some(Execute) ==> s.executeAttemptStartedAt == Some(NowIsoNanos(sys.executeNs)))
  }

  predicate WaitedIsFresh(sys: Sys) {
    IsApproved(sys.file) && sys.waited ==>
      var s := sys.file.value;
      && s.approvedAt.Some?
      && (s.phase == Some(Plan) ==> !IsoLt(s.approvedAt, s.planFinalizedAt))
      && (s.phase == Some(Execute) ==> !IsoLt(s.approvedAt, s.executeAttemptStartedAt))
  }

  predicate Inv(sys: Sys) {
    && Conserved(sys)
    && ApprovalIsCurrent(sys)
    && StampsMatch(sys)
    && WaitedIsFresh(sys)
    && sys.planNs <= sys.clock
    && sys.executeNs <= sys.clock
  }

  lemma FreshSatisfiesInv(sys: Sys)
    requires Fresh(sys)
    ensures Inv(sys)
  {
  }

  lemma SetKeepsInv(sys: Sys, args: SetArgs, now: nat)
    requires Inv(sys) && now >= sys.clock
    ensures Inv(Step(sys, SetVerb(args), now))
  {
    if PhaseSet(sys.file, args, now).1 == Moved {
      MoveKeepsInv(sys, args, now);
    } else {
      StayKeepsInv(sys, args, now);
    }
  }

  lemma MoveKeepsInv(sys: Sys, args: SetArgs, now: nat)
    requires Inv(sys) && now >= sys.clock && PhaseSet(sys.file, args, now).1 == Moved
    ensures Inv(Step(sys, SetVerb(args), now))
  {
    hide NowIsoNanos, IsoLt, MergeMeta, DoneShape, HasMutations;
    var from := if sys.file.Some? then sys.file.value.phase else None;
    assert ValidateTransition(from, args.target, IsApproved(sys.file), args.reset).None?;
  }

  lemma StayKeepsInv(sys: Sys, args: SetArgs, now: nat)
    requires Inv(sys) && now >= sys.clock && PhaseSet(sys.file, args, now).1 != Moved
    ensures Inv(Step(sys, SetVerb(args), now))
  {
    hide NowIsoNanos, IsoLt, MergeMeta, DoneShape, HasMutations, ValidateTransition, ValidateTransitionWithState, MovedState;
  }

  lemma ApproveKeepsInv(sys: Sys, args: ApproveArgs, now: nat)
    requires Inv(sys) && now >= sys.clock
    ensures Inv(Step(sys, ApproveVerb(args), now))
  {
    var (file, outcome) := PhaseApprove(sys.file, args, now);
    if outcome == Approved && now >= StampNs(sys) + NANOS_PER_SECOND {
      OneSecondSuffices(now, StampNs(sys));
    }
  }

  lemma ReopenKeepsInv(sys: Sys, args: ReopenArgs, now: nat)
    requires Inv(sys) && now >= sys.clock
    ensures Inv(Step(sys, ReopenVerb(args), now))
  {
  }

  lemma StepKeepsInv(sys: Sys, verb: Verb, now: nat)
    requires Inv(sys) && now >= sys.clock
    ensures Inv(Step(sys, verb, now))
  {
    match verb {
      case SetVerb(args) => SetKeepsInv(sys, args, now);
      case ApproveVerb(args) => ApproveKeepsInv(sys, args, now);
      case ReopenVerb(args) => ReopenKeepsInv(sys, args, now);
      case EditVerb(v, a) =>
    }
  }

  lemma {:induction false} RunKeepsInv(sys: Sys, verbs: seq<Timed>)
    requires Inv(sys) && Monotone(sys.clock, verbs)
    ensures Inv(Run(sys, verbs))
    decreases |verbs|
  {
    if verbs != [] {
      StepKeepsInv(sys, verbs[0].verb, verbs[0].now);
      StepClock(sys, verbs[0]);
      RunKeepsInv(Step(sys, verbs[0].verb, verbs[0].now), verbs[1..]);
    }
  }

  // ------------------------------------------------------------ conservation

  /** Over every run from a fresh workspace each approval that took effect is accounted for exactly once. */
  lemma ApprovalConservation(sys: Sys, verbs: seq<Timed>)
    requires Fresh(sys) && Monotone(sys.clock, verbs)
    ensures
      var end := Run(sys, verbs);
      && end.ledger.approvals == end.ledger.forward + end.ledger.revoked + (if IsApproved(end.file) then 1 else 0)
      && (IsApproved(end.file) ==>
            (InPhase(end.file, Plan) || InPhase(end.file, Execute)) && end.approvedSince)
  {
    FreshSatisfiesInv(sys);
    RunKeepsInv(sys, verbs);
  }

  // ------------------------------------------------------------ no dead ends

  /** An approval given a second or more after the phase stamp opens the gate, and keeps it open
      until it is consumed or revoked: whatever verbs came between, the forward move is accepted. */
  lemma WaitedApprovalIsNeverStale(sys: Sys, verbs: seq<Timed>, reset: bool)
    requires Fresh(sys) && Monotone(sys.clock, verbs)
    requires IsApproved(Run(sys, verbs).file) && Run(sys, verbs).waited
    ensures
      var s := Run(sys, verbs).file.value;
      && (s.phase == Some(Execute) ==> ValidateTransitionWithState(s, Done, reset).None?)
      && (s.phase == Some(Plan) && NonEmpty(s.verification) && NonEmpty(s.allowedPaths) ==>
            ValidateTransitionWithState(s, Execute, reset).None?)
  {
    FreshSatisfiesInv(sys);
    RunKeepsInv(sys, verbs);
  }

  function SetTo(target: Phase, reset: bool): Verb {
    SetVerb(SetArgs(target, reset, None, None, NoStdin, false, "agent"))
  }

  const APPROVE_NOW := ApproveVerb(ApproveArgs(true, "human", true, None, true))

  predicate HasScope(file: Option<PhaseState>) {
    file.Some? && NonEmpty(file.value.verification) && NonEmpty(file.value.allowedPaths)
  }

  /** Approve once the stamp is a second old, then move. */
  function ApproveAndMove(target: Phase, t: nat): seq<Timed> {
    [Timed(APPROVE_NOW, t + NANOS_PER_SECOND), Timed(SetTo(target, false), t + NANOS_PER_SECOND)]
  }

  /** From discuss: re-plan, then two approved moves. The outside editor is asked for a scope only where
      the state has none. */
  function ReplanPath(t: nat, needEdit: bool, scope: (seq<string>, seq<string>)): seq<Timed> {
    [Timed(SetTo(Plan, false), t)]
    + (if needEdit then [Timed(EditVerb(scope.0, scope.1), t)] else [])
    + ApproveAndMove(Execute, t)
    + ApproveAndMove(Done, t + NANOS_PER_SECOND)
  }

  /** A way from any lifecycle state to done: rewind to discuss first, unless already there. */
  function PathToDone(file: Option<PhaseState>, t: nat, scope: (seq<string>, seq<string>)): seq<Timed> {
    if InPhase(file, Done) then []
    else if InPhase(file, Discuss) then ReplanPath(t, !HasScope(file), scope)
    else [Timed(SetTo(Discuss, file.Some?), t)] + ReplanPath(t, !HasScope(file), scope)
  }

  lemma RunOne(sys: Sys, first: Timed, rest: seq<Timed>)
    requires first.now >= sys.clock && Monotone(first.now, rest)
    ensures Monotone(sys.clock, [first] + rest)
    ensures Run(sys, [first] + rest) == Run(Step(sys, first.verb, first.now), rest)
  {
    assert ([first] + rest)[1..] == rest;
  }

  lemma ApprovedMove(sys: Sys, target: Phase, t: nat, rest: seq<Timed>)
    requires Inv(sys) && sys.clock <= t && StampNs(sys) <= t
    requires sys.file.Some? && !sys.file.value.approved
    requires (InPhase(sys.file, Plan) && target == Execute && HasScope(sys.file))
          || (InPhase(sys.file, Execute) && target == Done)
    requires Monotone(t + NANOS_PER_SECOND, rest)
    ensures Monotone(sys.clock, ApproveAndMove(target, t) + rest)
    ensures exists next: Sys ::
      && Inv(next) && next.clock == t + NANOS_PER_SECOND
      && InPhase(next.file, target) && !next.file.value.approved
      && (target == Execute ==> next.executeNs == t + NANOS_PER_SECOND)
      && Run(sys, ApproveAndMove(target, t) + rest) == Run(next, rest)
  {
    var later := t + NANOS_PER_SECOND;
    var path := ApproveAndMove(target, t);
    var mid := Step(sys, APPROVE_NOW, later);
    StepKeepsInv(sys, APPROVE_NOW, later);
    assert mid.waited && mid.file.value.approved;
    var next := Step(mid, SetTo(target, false), later);
    StepKeepsInv(mid, SetTo(target, false), later);
    hide NowIsoNanos, MergeMeta;
    assert PhaseSet(mid.file, SetTo(target, false).set_, later).1 == Moved;
    RunOne(mid, path[1], rest);
    RunOne(sys, path[0], [path[1]] + rest);
    assert path + rest == [path[0]] + ([path[1]] + rest);
    assert InPhase(next.file, target) && !next.file.value.approved;
  }

  lemma DoneFromPlan(sys: Sys, t: nat)
    requires Inv(sys) && sys.clock <= t
    requires InPhase(sys.file, Plan) && !sys.file.value.approved && HasScope(sys.file)
    ensures
      var path := ApproveAndMove(Execute, t) + ApproveAndMove(Done, t + NANOS_PER_SECOND);
      Monotone(sys.clock, path) && InPhase(Run(sys, path).file, Done)
  {
    var rest := ApproveAndMove(Done, t + NANOS_PER_SECOND);
    TwoStepsAreMonotone(Done, t + NANOS_PER_SECOND);
    StampIsPast(sys, t);
    hide ApproveAndMove, Inv, HasScope, Monotone, StampNs;
    ApprovedMove(sys, Execute, t, rest);
    var mid: Sys :| Inv(mid) && mid.clock == t + NANOS_PER_SECOND
      && InPhase(mid.file, Execute) && !mid.file.value.approved && mid.executeNs == t + NANOS_PER_SECOND
      && Run(sys, ApproveAndMove(Execute, t) + rest) == Run(mid, rest);
    StampIsPast(mid, t + NANOS_PER_SECOND);
    NothingIsMonotone(t + 2 * NANOS_PER_SECOND);
    ApprovedMove(mid, Done, t + NANOS_PER_SECOND, []);
    assert rest + [] == rest;
    RunNothing();
  }

  lemma TwoStepsAreMonotone(target: Phase, t: nat)
    ensures Monotone(t, ApproveAndMove(target, t))
  {
    var path := ApproveAndMove(target, t);
    assert path[1..][1..] == [];
  }

  lemma NothingIsMonotone(t: nat)
    ensures Monotone(t, [])
  {
  }

  lemma RunNothing()
    ensures forall sys: Sys :: Monotone(sys.clock, []) ==> Run(sys, []) == sys
  {
  }

  lemma StampIsPast(sys: Sys, t: nat)
    requires Inv(sys) && sys.clock <= t
    ensures StampNs(sys) <= t
  {
  }

  lemma PlanFromDiscuss(sys: Sys, t: nat)
    requires Inv(sys) && sys.clock <= t && InPhase(sys.file, Discuss)
    ensures
      var planned := Step(sys, SetTo(Plan, false), t);
      && InPhase(planned.file, Plan) && !planned.file.value.approved && planned.clock == t
      && (HasScope(sys.file) ==> HasScope(planned.file))
  {
    hide NowIsoNanos, IsoLt, MergeMeta;
  }

  lemma DoneFromDiscuss(sys: Sys, t: nat, scope: (seq<string>, seq<string>), needEdit: bool)
    requires Inv(sys) && sys.clock <= t
    requires InPhase(sys.file, Discuss) && (!needEdit ==> HasScope(sys.file))
    requires scope.0 != [] && scope.1 != []
    ensures Monotone(sys.clock, ReplanPath(t, needEdit, scope))
    ensures InPhase(Run(sys, ReplanPath(t, needEdit, scope)).file, Done)
  {
    var tail := ApproveAndMove(Execute, t) + ApproveAndMove(Done, t + NANOS_PER_SECOND);
    var first := Timed(SetTo(Plan, false), t);
    var planned := Step(sys, first.verb, t);
    StepKeepsInv(sys, first.verb, t);
    PlanFromDiscuss(sys, t);
    hide Inv, NowIsoNanos, IsoLt, PhaseSet;
    if needEdit {
      var edit := Timed(EditVerb(scope.0, scope.1), t);
      var scoped := Step(planned, edit.verb, t);
      StepKeepsInv(planned, edit.verb, t);
      DoneFromPlan(scoped, t);
      RunOne(planned, edit, tail);
      RunOne(sys, first, [edit] + tail);
      assert ReplanPath(t, needEdit, scope) == [first] + ([edit] + tail);
    } else {
      DoneFromPlan(planned, t);
      RunOne(sys, first, tail);
      assert ReplanPath(t, needEdit, scope) == [first] + tail;
    }
  }

  lemma DoneFromAnywhere(sys: Sys, scope: (seq<string>, seq<string>))
    requires Inv(sys)
    requires scope.0 != [] && scope.1 != []
    ensures
      var path := PathToDone(sys.file, sys.clock, scope);
      Monotone(sys.clock, path) && InPhase(Run(sys, path).file, Done)
  {
    var t, needEdit := sys.clock, !HasScope(sys.file);
    if InPhase(sys.file, Done) {
    } else if InPhase(sys.file, Discuss) {
      DoneFromDiscuss(sys, t, scope, needEdit);
    } else {
      var rewind := Timed(SetTo(Discuss, sys.file.Some?), t);
      var discussing := Step(sys, rewind.verb, t);
      RewindReachesDiscuss(sys);
      DoneFromDiscuss(discussing, t, scope, needEdit);
      RunOne(sys, rewind, ReplanPath(t, needEdit, scope));
    }
  }

  lemma RewindReachesDiscuss(sys: Sys)
    requires Inv(sys) && !InPhase(sys.file, Discuss)
    ensures
      var discussing := Step(sys, SetTo(Discuss, sys.file.Some?), sys.clock);
      && Inv(discussing) && discussing.clock == sys.clock
      && InPhase(discussing.file, Discuss) && (HasScope(sys.file) <==> HasScope(discussing.file))
  {
    StepKeepsInv(sys, SetTo(Discuss, sys.file.Some?), sys.clock);
  }

  /** From every state any run can reach, some sequence of verbs ends in done. */
  lemma NoDeadEnds(sys: Sys, verbs: seq<Timed>, scope: (seq<string>, seq<string>))
    requires Fresh(sys) && Monotone(sys.clock, verbs)
    requires scope.0 != [] && scope.1 != []
    ensures
      var here := Run(sys, verbs);
      var path := PathToDone(here.file, here.clock, scope);
      Monotone(here.clock, path) && InPhase(Run(here, path).file, Done)
  {
    FreshSatisfiesInv(sys);
    RunKeepsInv(sys, verbs);
    DoneFromAnywhere(Run(sys, verbs), scope);
  }

  /** An approval that is older than the stamp of the phase it was given in. */
  predicate HoldsStaleApproval(file: Option<PhaseState>) {
    file.Some? &&
    var s := file.value;
    s.approved
    && ((s.phase == Some(Plan) && IsoLt(s.approvedAt, s.planFinalizedAt))
        || (s.phase == Some(Execute) && IsoLt(s.approvedAt, s.executeAttemptStartedAt)))
  }

  /** Verbs given the flag that resets an approval. */
  predicate Resets(verb: Verb) {
    match verb
    case SetVerb(args) => args.reset
    case ReopenVerb(args) => args.reset
    case _ => false
  }

  function ForwardOf(s: PhaseState): Phase {
    if s.phase == Some(Plan) then Execute else Done
  }

  lemma StaleStep(sys: Sys, verb: Verb, now: nat)
    requires now >= sys.clock && HoldsStaleApproval(sys.file) && !Resets(verb)
    ensures HoldsStaleApproval(Step(sys, verb, now).file)
    ensures Step(sys, verb, now).file.value.phase == sys.file.value.phase
  {
    hide MergeMeta, IsoLt, NowIsoNanos, NowIsoZ;
  }

  /** An approval given too soon is stuck: whatever verbs follow, in plan or in execute, as long as none resets it, it
      stays, the phase stays, and the gate stays shut. */
  lemma {:induction false} StaleApprovalNeedsReset(sys: Sys, verbs: seq<Timed>)
    requires Monotone(sys.clock, verbs) && HoldsStaleApproval(sys.file)
    requires forall t :: t in verbs ==> !Resets(t.verb)
    ensures
      var end := Run(sys, verbs).file;
      && HoldsStaleApproval(end) && end.value.phase == sys.file.value.phase
      && ValidateTransitionWithState(end.value, ForwardOf(end.value), false).Some?
    decreases |verbs|
  {
    if verbs != [] {
      assert verbs[0] in verbs;
      StepClock(sys, verbs[0]);
      StaleStep(sys, verbs[0].verb, verbs[0].now);
      hide Step, HoldsStaleApproval;
      StaleApprovalNeedsReset(Step(sys, verbs[0].verb, verbs[0].now), verbs[1..]);
    }
  }

  // ------------------------------------------------------------ what a verb may do

  /** Nothing but a confirmed `phase approve` on a terminal, in manual mode, by a named person, in plan or execute, ever
      turns an unapproved state into an approved one; and it changes nothing else. */
  lemma OnlyApproveApproves(sys: Sys, verb: Verb, now: nat)
    requires now >= sys.clock && !IsApproved(sys.file) && IsApproved(Step(sys, verb, now).file)
    ensures verb.ApproveVerb? && sys.file.Some? && sys.file.value.manual
    ensures verb.approve.tty && verb.approve.confirmed && verb.approve.email != "" && verb.approve.recordPresent
    ensures InPhase(sys.file, Plan) || InPhase(sys.file, Execute)
    ensures
      var after := Step(sys, verb, now).file.value;
      && sys.file.value.(approved := true, approvedBy := after.approvedBy, approvedAt := after.approvedAt) == after
      && after.approvedBy == Some(verb.approve.email) && after.approvedAt.Some?
  {
    hide MergeMeta, IsoLt, NowIsoNanos, NowIsoZ;
  }

  /** `phase set` never writes over a state of another schema version, and whatever it writes is of this one. */
  lemma SetKeepsForeignVersions(file: Option<PhaseState>, args: SetArgs, now: nat)
    ensures file.Some? && file.value.schemaVersion.Some? && file.value.schemaVersion.value != SCHEMA_VERSION ==>
              PhaseSet(file, args, now).0 == file && PhaseSet(file, args, now).1 !in {Moved, Restamped}
    ensures PhaseSet(file, args, now).1 in {Moved, Restamped} ==>
              PhaseSet(file, args, now).0.Some? && PhaseSet(file, args, now).0.value.schemaVersion == Some(SCHEMA_VERSION)
    ensures PhaseSet(file, args, now).1 !in {Moved, Restamped} ==> PhaseSet(file, args, now).0 == file
  {
    hide MergeMeta, IsoLt, NowIsoNanos, ValidateTransition, ValidateTransitionWithState;
  }

  /** Reopening takes the scope away from the gates and loses none of it: a scope that was set is in the draft fields,
      and a draft is only replaced by a scope. */
  lemma ReopenKeepsTheScope(s: PhaseState, args: ReopenArgs)
    requires PhaseReopen(Some(s), args).1 == Reopened
    ensures
      var after := PhaseReopen(Some(s), args).0.value;
      && !NonEmpty(after.verification) && !NonEmpty(after.allowedPaths) && !after.approved
      && (NonEmpty(s.verification) ==> after.draftVerification == s.verification)
      && (NonEmpty(s.allowedPaths) ==> after.draftAllowedPaths == s.allowedPaths)
      && (!NonEmpty(s.verification) ==> after.draftVerification == s.draftVerification)
      && (!NonEmpty(s.allowedPaths) ==> after.draftAllowedPaths == s.draftAllowedPaths)
      && ValidateTransitionWithState(after, Execute, true).Some?
  {
  }
}
