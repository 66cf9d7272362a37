/** The verbs as they run: each edits a copy of the state field by field, writes it, and logs one row. */
module WorkspaceVerbs {
  import opened Prelude
  import opened Timestamps
  import opened Transition
  import opened Lifecycle

  /** A row of the audit log. The before and after hashes are modelled by the contents they hash. */
  datatype VerbRow = VerbRow(verb: string, before: Option<PhaseState>, after: Option<PhaseState>)

  class Workspace {
    var file: Option<PhaseState>
    var log: seq<VerbRow>

    constructor ()
      ensures file == None && log == []
    {
      file := None;
      log := [];
    }

    method Set(args: SetArgs, nowNs: nat) returns (outcome: SetOutcome)
      modifies this
      ensures (file, outcome) == PhaseSet(old(file), args, nowNs)
      ensures log == old(log) + (match outcome
                                 case Moved => [VerbRow("phase.set", old(file), file)]
                                 case Restamped => [VerbRow("phase.set.noop", old(file), file)]
                                 case IdempotentNoop => [VerbRow("phase.set.idempotent-noop", old(file), file)]
                                 case _ => [])
    {
      var state := if file.Some? then file.value else EMPTY_STATE;
      var current := state.phase;
      var before := file;
      if args.automation && state.manual {
        return AutomationRefused;
      }
      if current == Some(Done) && args.target == Done && !args.reset {
        if !DoneShape(state.meta) {
          return DivergentDone;
        }
        if !HasMutations(args) {
          log := log + [VerbRow("phase.set.idempotent-noop", before, file)];
          return IdempotentNoop;
        }
      }
      if current == Some(args.target) && !args.reset {
        var restamped := state;
        restamped := restamped.(updatedAt := Some(NowIsoNanos(nowNs)));
        restamped := restamped.(updatedBy := Some(args.actor));
        if args.stdin.BadStdin? {
          return StdinUnparseable;
        }
        restamped := restamped.(meta := MergeMeta(state.meta, args));
        var written := WriteStateAtomic(restamped);
        if !written {
          return SchemaRefused;
        }
        log := log + [VerbRow("phase.set.noop", before, file)];
        return Restamped;
      }
      var legacy := ValidateTransition(current, args.target, state.approved, args.reset);
      if legacy.Some? {
        return SetRejected(legacy.value);
      }
      var gate := ValidateTransitionWithState(state, args.target, args.reset);
      if gate.Some? {
        return SetRejected(gate.value);
      }
      var next := state;
      next := next.(phase := Some(args.target));
      next := next.(updatedAt := Some(NowIsoNanos(nowNs)));
      next := next.(updatedBy := Some(args.actor));
      if args.reset {
        next := next.(approved := false, approvedBy := None, approvedAt := None);
      }
      if ConsumesApproval(current, args.target) && state.approved {
        next := next.(approved := false, approvedBy := None, approvedAt := None);
      }
      if args.stdin.BadStdin? {
        return StdinUnparseable;
      }
      next := next.(meta := MergeMeta(state.meta, args));
      next := StampTransition(next, args.target, NowIsoNanos(nowNs));
      var written := WriteStateAtomic(next);
      if !written {
        return SchemaRefused;
      }
      log := log + [VerbRow("phase.set", before, file)];
      return Moved;
    }

    method WriteStateAtomic(data: PhaseState) returns (written: bool)
      modifies this`file
      ensures written <==> WriteState(data).Some?
      ensures file == if written then WriteState(data) else old(file)
    {
      var stamped := data;
      if stamped.schemaVersion.None? {
        stamped := stamped.(schemaVersion := Some(SCHEMA_VERSION));
      } else if stamped.schemaVersion.value != SCHEMA_VERSION {
        return false;
      }
      file := Some(stamped);
      return true;
    }

    method Approve(args: ApproveArgs, nowNs: nat) returns (outcome: ApproveOutcome)
      modifies this
      ensures (file, outcome) == PhaseApprove(old(file), args, nowNs)
      ensures log == old(log) + (if outcome == Approved then [VerbRow("phase.approve", old(file), file)] else [])
    {
      if !args.tty { return NonTty; }
      if args.email == "" { return EmailUnset; }
      if !args.recordPresent { return RecordMissing; }
      if file.None? { return StateMissing; }
      var before := file.value;
      if !before.manual { return DuringAutopilot; }
      if before.approved { return AlreadyApproved; }
      if before.phase != Some(Plan) && before.phase != Some(Execute) { return WrongPhase; }
      if !args.confirmed { return UserCancelled; }
      var after := before;
      after := after.(approved := true);
      after := after.(approvedBy := Some(args.email));
      after := after.(approvedAt := Some(if args.at.Some? then args.at.value else NowIsoZ(nowNs)));
      log := log + [VerbRow("phase.approve", file, Some(after))];
      file := Some(after);
      return Approved;
    }

    method Reopen(args: ReopenArgs) returns (outcome: ReopenOutcome)
      modifies this
      ensures (file, outcome) == PhaseReopen(old(file), args)
      ensures log == old(log) + (if outcome == Reopened then [VerbRow("phase.reopen", old(file), file)] else [])
    {
      if !args.tty { return ReopenNonTty; }
      if args.reason == "" { return MissingReason; }
      if args.target != Plan && args.target != Discuss { return InvalidTarget; }
      if args.email == "" { return ReopenEmailUnset; }
      if !args.recordPresent { return ReopenRecordMissing; }
      if file.None? { return ReopenStateMissing; }
      var before := file.value;
      if args.target == Plan && before.phase != Some(Execute) && before.phase != Some(Done) { return InvalidSource; }
      if before.approved && !args.reset { return NeedsResetApproval; }
      var after := before;
      after := after.(phase := Some(args.target));
      after := after.(approved := false, approvedBy := None, approvedAt := None);
      if NonEmpty(before.verification) {
        after := after.(draftVerification := before.verification);
      }
      after := after.(verification := None);
      if NonEmpty(before.allowedPaths) {
        after := after.(draftAllowedPaths := before.allowedPaths);
      }
      after := after.(allowedPaths := None);
      after := after.(executeAttemptStartedAt := None);
      log := log + [VerbRow("phase.reopen", file, Some(after))];
      file := Some(after);
      return Reopened;
    }
  }
}
