/** What each verb answers and leaves behind, told from the file and the arguments alone. */
module VerbOutcomes {
  import opened Prelude
  import opened Timestamps
  import opened Transition
  import opened Lifecycle
  import opened LifecycleRuns

  // ---------------------------------------------------------------------- the gate

  predicate Scoped(s: PhaseState) {
    s.verification.Some? && s.verification.value != [] && s.allowedPaths.Some? && s.allowedPaths.value != []
  }

  /** Approved, and not before the stamp. */
  predicate ApprovedSince(s: PhaseState, stamp: Option<Iso>) {
    s.approved && stamp.Some? && s.approvedAt.Some? && !IsoLt(s.approvedAt, stamp)
  }

  /** The gate opens for an approved step forward with what that step needs, for a reset backward, and for done again. */
  lemma GateExactly(s: PhaseState, to: Phase, reset: bool)
    ensures ValidateTransitionWithState(s, to, reset).None? <==>
            match s.phase
            case None => to == Discuss
            case Some(Discuss) => to == Plan
            case Some(Plan) => (to == Execute && Scoped(s) && ApprovedSince(s, s.planFinalizedAt)) || (to == Discuss && reset)
            case Some(Execute) =>
              (to == Done && ApprovedSince(s, s.executeAttemptStartedAt)) || (to in {Discuss, Plan} && reset)
            case Some(Done) => to == Done || (to in {Discuss, Plan, Execute} && reset)
            case Some(Other(_)) => false
  {
    hide IsoLt;
  }

  // ----------------------------------------------------------------------- reopen

  /** Exactly when a reopening goes through. */
  lemma ReopenExactly(file: Option<PhaseState>, args: ReopenArgs)
    ensures PhaseReopen(file, args).1 == Reopened <==>
            && args.tty && args.reason != "" && args.email != "" && args.recordPresent && file.Some?
            && (args.target == Discuss || (args.target == Plan && file.value.phase in {Some(Execute), Some(Done)}))
            && (file.value.approved ==> args.reset)
    ensures PhaseReopen(file, args).1 != Reopened ==> PhaseReopen(file, args).0 == file
  {
  }

  /** Where it leads: to the phase asked for, unapproved, with the scope set aside; everything else is as before. */
  lemma ReopenLeaves(s: PhaseState, args: ReopenArgs)
    requires PhaseReopen(Some(s), args).1 == Reopened
    ensures PhaseReopen(Some(s), args).0.Some?
    ensures
      var after := PhaseReopen(Some(s), args).0.value;
      && after.phase == Some(args.target)
      && !after.approved && after.approvedBy == None && after.approvedAt == None
      && after.verification == None && after.allowedPaths == None && after.executeAttemptStartedAt == None
      && (after.draftVerification == if NonEmpty(s.verification) then s.verification else s.draftVerification)
      && (after.draftAllowedPaths == if NonEmpty(s.allowedPaths) then s.allowedPaths else s.draftAllowedPaths)
      && after.planFinalizedAt == s.planFinalizedAt && after.manual == s.manual && after.schemaVersion == s.schemaVersion
      && after.updatedAt == s.updatedAt && after.updatedBy == s.updatedBy && after.meta == s.meta
  {
  }

  /** From work under way or done, back to plan and on again: reopen, give a scope, approve once the plan stamp is a second
      old, move. */
  function BackThroughPlan(reopen: ReopenArgs, scope: (seq<string>, seq<string>), t: nat): seq<Timed> {
    [Timed(ReopenVerb(reopen), t), Timed(EditVerb(scope.0, scope.1), t)] + ApproveAndMove(Execute, t)
  }

  predicate GoodReopen(args: ReopenArgs) {
    args.tty && args.reason != "" && args.email != "" && args.recordPresent && args.target == Plan && args.reset
  }

  lemma ReopenLeadsBack(sys: Sys, reopen: ReopenArgs, scope: (seq<string>, seq<string>), t: nat)
    requires Inv(sys) && sys.clock <= t && (InPhase(sys.file, Execute) || InPhase(sys.file, Done))
    requires GoodReopen(reopen) && scope.0 != [] && scope.1 != []
    ensures
      var path := BackThroughPlan(reopen, scope, t);
      && Monotone(sys.clock, path)
      && InPhase(Run(sys, path[..1]).file, Plan) && InPhase(Run(sys, path).file, Execute)
  {
    ReopenExactly(sys.file, reopen);
    ReopenLeaves(sys.file.value, reopen);
    var path := BackThroughPlan(reopen, scope, t);
    var reopened := Step(sys, path[0].verb, t);
    StepKeepsInv(sys, path[0].verb, t);
    var scoped := Step(reopened, path[1].verb, t);
    StepKeepsInv(reopened, path[1].verb, t);
    StampIsPast(scoped, t);
    hide Inv, Monotone, Run, ApproveAndMove, StampNs, PhaseReopen;
    NothingIsMonotone(t + NANOS_PER_SECOND);
    ApprovedMove(scoped, Execute, t, []);
    RunNothing();
    var tail := ApproveAndMove(Execute, t);
    assert tail + [] == tail;
    RunOne(reopened, path[1], tail);
    RunOne(sys, path[0], [path[1]] + tail);
    assert path == [path[0]] + ([path[1]] + tail);
    NothingIsMonotone(t);
    RunOne(sys, path[0], []);
    assert path[..1] == [path[0]] + [];
  }

  // ---------------------------------------------------------------------- approve

  /** Exactly when an approval takes effect, and all it changes. */
  lemma ApproveExactly(file: Option<PhaseState>, args: ApproveArgs, now: nat)
    ensures PhaseApprove(file, args, now).1 == Approved <==>
            && args.tty && args.email != "" && args.recordPresent && args.confirmed && file.Some?
            && file.value.manual && !file.value.approved && file.value.phase in {Some(Plan), Some(Execute)}
    ensures PhaseApprove(file, args, now).1 != Approved ==> PhaseApprove(file, args, now).0 == file
    ensures PhaseApprove(file, args, now).1 == Approved ==>
              var s := PhaseApprove(file, args, now).0;
              && s.Some? && s.value.approved && s.value.approvedBy == Some(args.email)
              && s.value.approvedAt == Some(if args.at.Some? then args.at.value else NowIsoZ(now))
              && s.value.(approved := false, approvedBy := None, approvedAt := None)
                 == file.value.(approvedBy := None, approvedAt := None)
  {
  }

  // -------------------------------------------------------------------------- set

  function Current(file: Option<PhaseState>): PhaseState {
    if file.Some? then file.value else EMPTY_STATE
  }

  predicate SchemaIsOurs(s: PhaseState) {
    s.schemaVersion in {None, Some(SCHEMA_VERSION)}
  }

  /** A move asks for another phase, or for the same one with a reset. It goes through exactly when the gate opens and
      nothing else stands against it. */
  lemma MovesExactly(file: Option<PhaseState>, args: SetArgs, now: nat)
    ensures PhaseSet(file, args, now).1 == Moved <==>
            var s := Current(file);
            && (s.phase != Some(args.target) || args.reset)
            && ValidateTransitionWithState(s, args.target, args.reset).None?
            && !(args.automation && s.manual) && !args.stdin.BadStdin? && SchemaIsOurs(s)
  {
    hide IsoLt, NowIsoNanos, MergeMeta, DoneShape, HasMutations;
  }

  /** Setting the present phase again only restamps; in done, only with something to write and everything there. */
  lemma RestampsExactly(file: Option<PhaseState>, args: SetArgs, now: nat)
    ensures PhaseSet(file, args, now).1 == Restamped <==>
            var s := Current(file);
            && s.phase == Some(args.target) && !args.reset
            && (args.target == Done ==> HasMutations(args) && forall f :: f in DONE_REQUIRED_FIELDS ==> f in s.meta && s.meta[f] != "")
            && !(args.automation && s.manual) && !args.stdin.BadStdin? && SchemaIsOurs(s)
    ensures PhaseSet(file, args, now).1 == Restamped ==> PhaseSet(file, args, now).0.Some?
    ensures PhaseSet(file, args, now).1 == Restamped ==>
              var before, after := Current(file), PhaseSet(file, args, now).0.value;
              && after.updatedAt == Some(NowIsoNanos(now)) && after.updatedBy == Some(args.actor)
              && after.(updatedAt := None, updatedBy := None, meta := map[], schemaVersion := None)
                 == before.(updatedAt := None, updatedBy := None, meta := map[], schemaVersion := None)
  {
    hide IsoLt, NowIsoNanos, MergeMeta, HasMutations, ValidateTransition, ValidateTransitionWithState;
  }

  /** What a move leaves: the phase asked for with its stamp, the approval spent if it paid for the move or the move was a
      reset, and everything else as before. */
  lemma MoveLeaves(file: Option<PhaseState>, args: SetArgs, now: nat)
    requires PhaseSet(file, args, now).1 == Moved
    ensures PhaseSet(file, args, now).0.Some?
    ensures
      var before, after := Current(file), PhaseSet(file, args, now).0.value;
      && after.phase == Some(args.target) && after.schemaVersion == Some(SCHEMA_VERSION)
      && after.updatedAt == Some(NowIsoNanos(now)) && after.updatedBy == Some(args.actor)
      && (after.planFinalizedAt == if args.target == Plan then Some(NowIsoNanos(now)) else before.planFinalizedAt)
      && (after.executeAttemptStartedAt ==
          if args.target == Execute then Some(NowIsoNanos(now)) else before.executeAttemptStartedAt)
      && (if args.reset || (before.phase in {Some(Plan), Some(Execute)} && args.target in {Execute, Done})
          then !after.approved else after.approved == before.approved)
      && after.verification == before.verification && after.allowedPaths == before.allowedPaths
      && after.draftVerification == before.draftVerification && after.draftAllowedPaths == before.draftAllowedPaths
      && after.manual == before.manual
  {
    MovedIs(file, args, now);
    hide IsoLt, NowIsoNanos, MergeMeta, PhaseSet;
  }

  lemma MovedIs(file: Option<PhaseState>, args: SetArgs, now: nat)
    requires PhaseSet(file, args, now).1 == Moved
    ensures PhaseSet(file, args, now).0 == WriteState(MovedState(Current(file), args, NowIsoNanos(now)))
    ensures PhaseSet(file, args, now).0.Some?
  {
    hide IsoLt, NowIsoNanos, MergeMeta, ValidateTransition, ValidateTransitionWithState, DoneShape, HasMutations, MovedState;
  }

  // --------------------------------------------------------- what was last given

  /** The value an invocation gives for a metadata key: stdin wins over the flags, and only some keys may be given. */
  function Given(args: SetArgs, key: string): Option<string> {
    if args.stdin.StdinJson? && key in args.stdin.fields && key in ALLOWED_STDIN_FIELDS then Some(args.stdin.fields[key])
    else if key == "plan_id" && args.planId.Some? then args.planId
    else if key == "summary" && args.summary.Some? then args.summary
    else None
  }

  function MetaAt(file: Option<PhaseState>, key: string): Option<string> {
    if file.Some? && key in file.value.meta then Some(file.value.meta[key]) else None
  }

  /** The value for a key that the verbs of a run leave: the one last given by a `phase set` that wrote. */
  function LastGiven(sys: Sys, verbs: seq<Timed>, key: string): Option<string>
    requires Monotone(sys.clock, verbs)
    decreases |verbs|
  {
    if verbs == [] then MetaAt(sys.file, key)
    else
      var front, last := verbs[..|verbs| - 1], verbs[|verbs| - 1];
      MonotoneFront(sys.clock, verbs);
      var before := LastGiven(sys, front, key);
      if last.verb.SetVerb? && Given(last.verb.set_, key).Some?
         && PhaseSet(Run(sys, front).file, last.verb.set_, last.now).1 in {Moved, Restamped}
      then Given(last.verb.set_, key) else before
  }

  lemma {:induction false} MonotoneFront(from: nat, verbs: seq<Timed>)
    requires verbs != [] && Monotone(from, verbs)
    ensures Monotone(from, verbs[..|verbs| - 1])
    decreases |verbs|
  {
    var front := verbs[..|verbs| - 1];
    if front != [] {
      MonotoneFront(verbs[0].now, verbs[1..]);
      assert verbs[1..][..|verbs| - 2] == front[1..];
    }
  }

  lemma {:induction false} RunSnoc(sys: Sys, verbs: seq<Timed>)
    requires verbs != [] && Monotone(sys.clock, verbs)
    ensures Monotone(sys.clock, verbs[..|verbs| - 1])
    ensures
      var before, last := Run(sys, verbs[..|verbs| - 1]), verbs[|verbs| - 1];
      last.now >= before.clock && Run(sys, verbs) == Step(before, last.verb, last.now)
    decreases |verbs|
  {
    MonotoneFront(sys.clock, verbs);
    var front := verbs[..|verbs| - 1];
    StepClock(sys, verbs[0]);
    var next := Step(sys, verbs[0].verb, verbs[0].now);
    hide Step;
    if front == [] {
      assert verbs[1..] == [];
    } else {
      RunSnoc(next, verbs[1..]);
      assert verbs[1..][..|verbs| - 2] == front[1..];
    }
  }

  lemma MergeGives(meta: map<string, string>, args: SetArgs, key: string)
    ensures
      var merged := MergeMeta(meta, args);
      if Given(args, key).Some? then key in merged && merged[key] == Given(args, key).value
      else (key in merged <==> key in meta) && (key in merged ==> merged[key] == meta[key])
  {
  }

  /** One verb gives a key the value it was given, or leaves it. */
  lemma StepGives(sys: Sys, t: Timed, key: string)
    requires t.now >= sys.clock
    ensures MetaAt(Step(sys, t.verb, t.now).file, key)
         == if t.verb.SetVerb? && Given(t.verb.set_, key).Some?
               && PhaseSet(sys.file, t.verb.set_, t.now).1 in {Moved, Restamped}
            then Given(t.verb.set_, key) else MetaAt(sys.file, key)
  {
    match t.verb
    case SetVerb(args) => SetGives(sys.file, args, t.now, key);
    case ApproveVerb(args) => OthersGiveNothing(sys.file, args, t.now, key);
    case ReopenVerb(args) =>
      if PhaseReopen(sys.file, args).1 == Reopened {
        ReopenLeaves(sys.file.value, args);
      }
    case EditVerb(_, _) =>
    hide MergeMeta, Given, PhaseSet, PhaseApprove, PhaseReopen;
  }

  lemma OthersGiveNothing(file: Option<PhaseState>, args: ApproveArgs, now: nat, key: string)
    ensures MetaAt(PhaseApprove(file, args, now).0, key) == MetaAt(file, key)
  {
    ApproveExactly(file, args, now);
    hide PhaseApprove, NowIsoZ;
  }

  lemma SetGives(file: Option<PhaseState>, args: SetArgs, now: nat, key: string)
    ensures MetaAt(PhaseSet(file, args, now).0, key)
         == if Given(args, key).Some? && PhaseSet(file, args, now).1 in {Moved, Restamped} then Given(args, key)
            else MetaAt(file, key)
  {
    MergeGives(Current(file).meta, args, key);
    hide Given;
    SetMerges(file, args, now);
    hide MergeMeta, PhaseSet;
  }

  /** All that a `phase set` does to the metadata. */
  lemma SetMerges(file: Option<PhaseState>, args: SetArgs, now: nat)
    ensures PhaseSet(file, args, now).1 !in {Moved, Restamped} ==> PhaseSet(file, args, now).0 == file
    ensures PhaseSet(file, args, now).1 in {Moved, Restamped} ==>
              PhaseSet(file, args, now).0.Some? && PhaseSet(file, args, now).0.value.meta == MergeMeta(Current(file).meta, args)
  {
    if PhaseSet(file, args, now).1 == Moved {
      MovedIs(file, args, now);
      MovedMerges(Current(file), args, NowIsoNanos(now));
      hide PhaseSet, MovedState, MergeMeta;
    } else {
      hide MergeMeta, IsoLt, NowIsoNanos, ValidateTransition, ValidateTransitionWithState, DoneShape, HasMutations, MovedState;
    }
  }

  lemma MovedMerges(s: PhaseState, args: SetArgs, now: Iso)
    ensures MovedState(s, args, now).meta == MergeMeta(s.meta, args)
  {
    hide MergeMeta;
  }

  /** Over any run no verb loses metadata: each key has the value last given for it. */
  lemma {:induction false} MetaIsLastGiven(sys: Sys, verbs: seq<Timed>, key: string)
    requires Monotone(sys.clock, verbs)
    ensures MetaAt(Run(sys, verbs).file, key) == LastGiven(sys, verbs, key)
    decreases |verbs|
  {
    if verbs != [] {
      RunSnoc(sys, verbs);
      MetaIsLastGiven(sys, verbs[..|verbs| - 1], key);
      StepGives(Run(sys, verbs[..|verbs| - 1]), verbs[|verbs| - 1], key);
      hide Step, Given, MetaAt, PhaseSet, Run;
    }
  }
}
