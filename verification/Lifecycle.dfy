/** The verbs that change the phase state: `phase set`, `phase approve`, `phase reopen`, and the
    outside editor that fills in `verification` and `allowed_paths`. */
module Lifecycle {
  import opened Prelude
  import opened Timestamps
  import opened Transition

  // ---------------------------------------------------------------- phase set

  datatype Stdin = NoStdin | BadStdin | StdinJson(fields: map<string, string>)

  /** `automation` says HARNESS_AUTOMATION asks for an autopilot mode. */
  datatype SetArgs = SetArgs(target: Phase, reset: bool, planId: Option<string>, summary: Option<string>,
                             stdin: Stdin, automation: bool, actor: string)

  datatype SetOutcome =
    | Moved | Restamped | IdempotentNoop
    | AutomationRefused | DivergentDone | StdinUnparseable | SchemaRefused
    | SetRejected(why: Rejection)

  const ALLOWED_STDIN_FIELDS := {
    "next_action", "current_checkpoint", "checkpoint_path", "state_path", "plan_path", "summary", "plan_id"
  }

  const DONE_REQUIRED_FIELDS := [
    "plan_id", "state_path", "plan_path", "checkpoint_path", "current_checkpoint", "next_action"
  ]

  const SCHEMA_VERSION := 2

  predicate DoneShape(meta: map<string, string>) {
    forall f :: f in DONE_REQUIRED_FIELDS ==> f in meta && meta[f] != ""
  }

  function MergeMeta(meta: map<string, string>, args: SetArgs): map<string, string> {
    var m1 := if args.planId.Some? then meta["plan_id" := args.planId.value] else meta;
    var m2 := if args.summary.Some? then m1["summary" := args.summary.value] else m1;
    match args.stdin
    case StdinJson(fields) => m2 + map k | k in fields && k in ALLOWED_STDIN_FIELDS :: fields[k]
    case _ => m2
  }

  predicate HasMutations(args: SetArgs) {
    args.planId.Some? || args.summary.Some? || !args.stdin.NoStdin?
  }

  /** Every write stamps schema version 2, or refuses a foreign one. */
  function WriteState(s: PhaseState): Option<PhaseState> {
    if s.schemaVersion.None? then Some(s.(schemaVersion := Some(SCHEMA_VERSION)))
    else if s.schemaVersion.value == SCHEMA_VERSION then Some(s)
    else None
  }

  function ClearApproval(s: PhaseState): PhaseState {
    s.(approved := false, approvedBy := None, approvedAt := None)
  }

  function StampTransition(s: PhaseState, to: Phase, now: Iso): PhaseState {
    match to
    case Plan => s.(planFinalizedAt := Some(now))
    case Execute => s.(executeAttemptStartedAt := Some(now))
    case _ => s
  }

  /** An approval gates one forward move and is consumed by it. */
  predicate ConsumesApproval(from: Option<Phase>, to: Phase) {
    from in {Some(Plan), Some(Execute)} && to in {Execute, Done}
  }

  /** The state a successful move writes. */
  function MovedState(s: PhaseState, args: SetArgs, now: Iso): PhaseState {
    var s1 := s.(phase := Some(args.target), updatedAt := Some(now), updatedBy := Some(args.actor));
    var s2 := if args.reset || (ConsumesApproval(s.phase, args.target) && s.approved) then ClearApproval(s1) else s1;
    StampTransition(s2.(meta := MergeMeta(s.meta, args)), args.target, now)
  }

  function Written(before: Option<PhaseState>, s: PhaseState, ok: SetOutcome): (Option<PhaseState>, SetOutcome) {
    match WriteState(s)
    case Some(w) => (Some(w), ok)
    case None => (before, SchemaRefused)
  }

  /** `file` is the state file: None when it does not exist, and then it reads as `{}`. */
  function PhaseSet(file: Option<PhaseState>, args: SetArgs, nowNs: nat): (Option<PhaseState>, SetOutcome) {
    var s := if file.Some? then file.value else EMPTY_STATE;
    var now := NowIsoNanos(nowNs);
    if args.automation && s.manual then (file, AutomationRefused)
    else if s.phase == Some(Done) && args.target == Done && !args.reset && !DoneShape(s.meta) then
      (file, DivergentDone)
    else if s.phase == Some(Done) && args.target == Done && !args.reset && !HasMutations(args) then
      (file, IdempotentNoop)
    else if s.phase == Some(args.target) && !args.reset then
      if args.stdin.BadStdin? then (file, StdinUnparseable)
      else
        Written(file, s.(updatedAt := Some(now), updatedBy := Some(args.actor), meta := MergeMeta(s.meta, args)), Restamped)
    else
      var legacy := ValidateTransition(s.phase, args.target, s.approved, args.reset);
      if legacy.Some? then (file, SetRejected(legacy.value))
      else
        var gate := ValidateTransitionWithState(s, args.target, args.reset);
        if gate.Some? then (file, SetRejected(gate.value))
        else if args.stdin.BadStdin? then (file, StdinUnparseable)
        else Written(file, MovedState(s, args, now), Moved)
  }

  // ------------------------------------------------------------ phase approve

  datatype ApproveArgs = ApproveArgs(tty: bool, email: string, recordPresent: bool, at: Option<Iso>, confirmed: bool)

  datatype ApproveOutcome =
    | Approved | AlreadyApproved | UserCancelled
    | NonTty | EmailUnset | RecordMissing | StateMissing | DuringAutopilot | WrongPhase

  function ApprovedState(s: PhaseState, args: ApproveArgs, nowNs: nat): PhaseState {
    var at := if args.at.Some? then args.at.value else NowIsoZ(nowNs);
    s.(approved := true, approvedBy := Some(args.email), approvedAt := Some(at))
  }

  function PhaseApprove(file: Option<PhaseState>, args: ApproveArgs, nowNs: nat): (Option<PhaseState>, ApproveOutcome) {
    if !args.tty then (file, NonTty)
    else if args.email == "" then (file, EmailUnset)
    else if !args.recordPresent then (file, RecordMissing)
    else if file.None? then (file, StateMissing)
    else if !file.value.manual then (file, DuringAutopilot)
    else if file.value.approved then (file, AlreadyApproved)
    else if file.value.phase !in {Some(Plan), Some(Execute)} then (file, WrongPhase)
    else if !args.confirmed then (file, UserCancelled)
    else (Some(ApprovedState(file.value, args, nowNs)), Approved)
  }

  // ------------------------------------------------------------- phase reopen

  datatype ReopenArgs = ReopenArgs(tty: bool, reason: string, target: Phase, email: string, recordPresent: bool,
                                   reset: bool)

  datatype ReopenOutcome =
    | Reopened
    | ReopenNonTty | MissingReason | InvalidTarget | ReopenEmailUnset | ReopenRecordMissing | ReopenStateMissing
    | InvalidSource | NeedsResetApproval

  function ReopenedState(s: PhaseState, target: Phase): PhaseState {
    ClearApproval(s).(
      phase := Some(target),
      draftVerification := if NonEmpty(s.verification) then s.verification else s.draftVerification,
      draftAllowedPaths := if NonEmpty(s.allowedPaths) then s.allowedPaths else s.draftAllowedPaths,
      verification := None,
      allowedPaths := None,
      executeAttemptStartedAt := None)
  }

  function PhaseReopen(file: Option<PhaseState>, args: ReopenArgs): (Option<PhaseState>, ReopenOutcome) {
    if !args.tty then (file, ReopenNonTty)
    else if args.reason == "" then (file, MissingReason)
    else if args.target !in {Plan, Discuss} then (file, InvalidTarget)
    else if args.email == "" then (file, ReopenEmailUnset)
    else if !args.recordPresent then (file, ReopenRecordMissing)
    else if file.None? then (file, ReopenStateMissing)
    else if args.target == Plan && file.value.phase !in {Some(Execute), Some(Done)} then (file, InvalidSource)
    else if file.value.approved && !args.reset then (file, NeedsResetApproval)
    else (Some(ReopenedState(file.value, args.target)), Reopened)
  }

  // ------------------------------------------------------------ outside edits

  function EditScope(file: Option<PhaseState>, verification: seq<string>, allowedPaths: seq<string>): Option<PhaseState> {
    match file
    case None => None
    case Some(s) => Some(s.(verification := Some(verification), allowedPaths := Some(allowedPaths)))
  }
}
