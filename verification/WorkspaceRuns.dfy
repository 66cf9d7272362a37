/** The verbs played one after another on a workspace, and what its audit log then proves. */
module WorkspaceRuns {
  import opened Prelude
  import opened Timestamps
  import opened Transition
  import opened Lifecycle
  import opened LifecycleRuns
  import opened WorkspaceVerbs

  function PhaseIn(file: Option<PhaseState>): Option<Phase> {
    if file.Some? then file.value.phase else None
  }

  /** A logged move that an approval paid for. */
  predicate IsForward(row: VerbRow) {
    && row.after.Some? && row.after.value.phase.Some?
    && ConsumesApproval(PhaseIn(row.before), row.after.value.phase.value)
    && PhaseIn(row.before) != row.after.value.phase
  }

  /** The approvals, forward moves and revocations that a log tells of, read from its rows alone. */
  function LogLedger(log: seq<VerbRow>): Ledger {
    if log == [] then Ledger(0, 0, 0)
    else
      var row, ledger := log[|log| - 1], LogLedger(log[..|log| - 1]);
      if row.verb == "phase.approve" then ledger.(approvals := ledger.approvals + 1)
      else if row.verb == "phase.set" && IsForward(row) then ledger.(forward := ledger.forward + 1)
      else if row.verb in {"phase.set", "phase.reopen"} && IsApproved(row.before) then
        ledger.(revoked := ledger.revoked + 1)
      else ledger
  }

  /** All of a state but the two fields the outside editor fills in. */
  function WithoutScope(file: Option<PhaseState>): Option<PhaseState> {
    if file.Some? then Some(file.value.(verification := None, allowedPaths := None)) else None
  }

  /** The state after the last row. */
  function LastLogged(start: Option<PhaseState>, log: seq<VerbRow>): Option<PhaseState> {
    if log == [] then start else log[|log| - 1].after
  }

  /** The log is a history from `start` to `file`: every row begins where the one before it ended, up to outside edits of
      the scope, and the file is where the last row ended. */
  ghost predicate IsHistory(start: Option<PhaseState>, log: seq<VerbRow>, file: Option<PhaseState>) {
    && (forall i :: 0 <= i < |log| ==> WithoutScope(log[i].before) == WithoutScope(LastLogged(start, log[..i])))
    && WithoutScope(file) == WithoutScope(LastLogged(start, log))
  }

  lemma HistoryGrows(start: Option<PhaseState>, log: seq<VerbRow>, file: Option<PhaseState>, row: VerbRow)
    requires IsHistory(start, log, file) && row.before == file
    ensures IsHistory(start, log + [row], row.after)
  {
    var longer := log + [row];
    forall i | 0 <= i < |longer|
      ensures WithoutScope(longer[i].before) == WithoutScope(LastLogged(start, longer[..i]))
    {
      assert longer[..i] == log[..i];
      assert log[..|log|] == log;
    }
  }

  lemma LedgerSnoc(log: seq<VerbRow>, row: VerbRow)
    ensures
      var ledger := LogLedger(log);
      LogLedger(log + [row])
      == if row.verb == "phase.approve" then ledger.(approvals := ledger.approvals + 1)
         else if row.verb == "phase.set" && IsForward(row) then ledger.(forward := ledger.forward + 1)
         else if row.verb in {"phase.set", "phase.reopen"} && IsApproved(row.before) then
           ledger.(revoked := ledger.revoked + 1)
         else ledger
  {
    assert (log + [row])[..|log|] == log;
  }

  /** One verb on the workspace. Its log and file move as the ledger of the run does. */
  method PlayOne(w: Workspace, t: Timed, ghost sys: Sys, ghost start: Option<PhaseState>)
    requires t.now >= sys.clock && w.file == sys.file && LogLedger(w.log) == sys.ledger && IsHistory(start, w.log, w.file)
    modifies w
    ensures w.file == Step(sys, t.verb, t.now).file && LogLedger(w.log) == Step(sys, t.verb, t.now).ledger
    ensures IsHistory(start, w.log, w.file)
  {
    match t.verb
    case SetVerb(args) => PlaySet(w, args, t.now, sys, start);
    case ApproveVerb(args) => PlayApprove(w, args, t.now, sys, start);
    case ReopenVerb(args) => PlayReopen(w, args, t.now, sys, start);
    case EditVerb(verification, allowedPaths) =>
      w.file := EditScope(w.file, verification, allowedPaths);
  }

  method PlaySet(w: Workspace, args: SetArgs, now: nat, ghost sys: Sys, ghost start: Option<PhaseState>)
    requires now >= sys.clock && w.file == sys.file && LogLedger(w.log) == sys.ledger && IsHistory(start, w.log, w.file)
    modifies w
    ensures w.file == Step(sys, SetVerb(args), now).file && LogLedger(w.log) == Step(sys, SetVerb(args), now).ledger
    ensures IsHistory(start, w.log, w.file)
  {
    hide PhaseSet, LogLedger, IsHistory;
    MovedMeans(sys.file, args, now);
    ghost var log := w.log;
    var outcome := w.Set(args, now);
    if w.log != log {
      ghost var row := w.log[|log|];
      assert w.log == log + [row];
      LedgerSnoc(log, row);
      HistoryGrows(start, log, sys.file, row);
    }
  }

  method PlayApprove(w: Workspace, args: ApproveArgs, now: nat, ghost sys: Sys, ghost start: Option<PhaseState>)
    requires now >= sys.clock && w.file == sys.file && LogLedger(w.log) == sys.ledger && IsHistory(start, w.log, w.file)
    modifies w
    ensures w.file == Step(sys, ApproveVerb(args), now).file
    ensures LogLedger(w.log) == Step(sys, ApproveVerb(args), now).ledger
    ensures IsHistory(start, w.log, w.file)
  {
    hide PhaseApprove, LogLedger, IsHistory;
    RefusedApprove(sys.file, args, now);
    ghost var log := w.log;
    var outcome := w.Approve(args, now);
    if w.log != log {
      ghost var row := w.log[|log|];
      assert w.log == log + [row];
      LedgerSnoc(log, row);
      HistoryGrows(start, log, sys.file, row);
    }
  }

  method PlayReopen(w: Workspace, args: ReopenArgs, now: nat, ghost sys: Sys, ghost start: Option<PhaseState>)
    requires now >= sys.clock && w.file == sys.file && LogLedger(w.log) == sys.ledger && IsHistory(start, w.log, w.file)
    modifies w
    ensures w.file == Step(sys, ReopenVerb(args), now).file
    ensures LogLedger(w.log) == Step(sys, ReopenVerb(args), now).ledger
    ensures IsHistory(start, w.log, w.file)
  {
    hide PhaseReopen, LogLedger, IsHistory;
    RefusedReopen(sys.file, args);
    ghost var log := w.log;
    var outcome := w.Reopen(args);
    if w.log != log {
      ghost var row := w.log[|log|];
      assert w.log == log + [row];
      LedgerSnoc(log, row);
      HistoryGrows(start, log, sys.file, row);
    }
  }

  lemma MovedMeans(file: Option<PhaseState>, args: SetArgs, now: nat)
    ensures
      var (after, outcome) := PhaseSet(file, args, now);
      && (outcome == Moved ==> after.Some? && after.value.phase == Some(args.target))
      && (outcome !in {Moved, Restamped} ==> after == file)
  {
    hide NowIsoNanos, MergeMeta, ValidateTransition, ValidateTransitionWithState;
  }

  lemma RefusedApprove(file: Option<PhaseState>, args: ApproveArgs, now: nat)
    ensures PhaseApprove(file, args, now).1 != Approved ==> PhaseApprove(file, args, now).0 == file
  {
  }

  lemma RefusedReopen(file: Option<PhaseState>, args: ReopenArgs)
    ensures PhaseReopen(file, args).1 != Reopened ==> PhaseReopen(file, args).0 == file
  {
  }

  /** Any sequence of verbs and outside edits on a fresh workspace. Read from the audit log alone: every approval was
      spent on one forward move, or revoked, or is still held; and nothing but the scope ever changed without a row. */
  method Play(w: Workspace, verbs: seq<Timed>, ghost sys: Sys)
    requires Fresh(sys) && Monotone(sys.clock, verbs) && w.file == sys.file && w.log == []
    modifies w
    ensures w.file == Run(sys, verbs).file && LogLedger(w.log) == Run(sys, verbs).ledger
    ensures
      var ledger := LogLedger(w.log);
      ledger.approvals == ledger.forward + ledger.revoked + (if IsApproved(w.file) then 1 else 0)
    ensures IsHistory(old(w.file), w.log, w.file)
  {
    assert LogLedger([]) == sys.ledger;
    hide Step, Inv, Fresh;
    ghost var now, start := sys, w.file;
    assert verbs[0..] == verbs;
    for i := 0 to |verbs|
      invariant Monotone(now.clock, verbs[i..]) && Run(sys, verbs) == Run(now, verbs[i..])
      invariant w.file == now.file && LogLedger(w.log) == now.ledger
      invariant IsHistory(start, w.log, w.file)
    {
      StepClock(now, verbs[i]);
      assert verbs[i..][0] == verbs[i] && verbs[i..][1..] == verbs[i + 1..];
      PlayOne(w, verbs[i], now, start);
      now := Step(now, verbs[i].verb, verbs[i].now);
    }
    ApprovalConservation(sys, verbs);
  }
}
