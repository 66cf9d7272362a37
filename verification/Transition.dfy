/** The phase state and the two transition validators. */
module Transition {
  import opened Prelude
  import opened Timestamps

  datatype Phase = Discuss | Plan | Execute | Done | Other(name: string)

  /** `.scratch/phase-state.json`; `manual` is false only for a non-manual execution_mode. */
  datatype PhaseState = PhaseState(
    phase: Option<Phase>,
    approved: bool,
    approvedBy: Option<string>,
    approvedAt: Option<Iso>,
    verification: Option<seq<string>>,
    allowedPaths: Option<seq<string>>,
    draftVerification: Option<seq<string>>,
    draftAllowedPaths: Option<seq<string>>,
    planFinalizedAt: Option<Iso>,
    executeAttemptStartedAt: Option<Iso>,
    manual: bool,
    schemaVersion: Option<int>,
    updatedAt: Option<Iso>,
    updatedBy: Option<string>,
    meta: map<string, string>)

  /** What `{}` reads as: every key missing. */
  const EMPTY_STATE := PhaseState(None, false, None, None, None, None, None, None, None, None,
                                  true, None, None, None, map[])

  datatype Row = Row(requiresApproved: bool, requiresReset: bool)

  datatype Rejection =
    | Undefined | NeedsApproval | NeedsReset
    | VerificationMissing | AllowedPathsMissing
    | PlanFinalizedAtMissing | ApprovalPredatesPlan
    | ExecuteAttemptMissing | ApprovalPredatesExecute

  function TransitionTable(from: Option<Phase>, to: Phase): Option<Row> {
    match (from, to)
    case (None, Discuss) => Some(Row(false, false))
    case (Some(Discuss), Plan) => Some(Row(false, false))
    case (Some(Plan), Execute) => Some(Row(true, false))
    case (Some(Execute), Done) => Some(Row(true, false))
    case (Some(Plan), Discuss) => Some(Row(false, true))
    case (Some(Execute), Plan) => Some(Row(false, true))
    case (Some(Execute), Discuss) => Some(Row(false, true))
    case (Some(Done), Discuss) => Some(Row(false, true))
    case (Some(Done), Plan) => Some(Row(false, true))
    case (Some(Done), Execute) => Some(Row(false, true))
    case (Some(Done), Done) => Some(Row(false, false))
    case _ => None
  }

  /** `None` accepts the move. */
  function ValidateTransition(from: Option<Phase>, to: Phase, approved: bool, reset: bool): Option<Rejection> {
    match TransitionTable(from, to)
    case None => Some(Undefined)
    case Some(row) =>
      if row.requiresApproved && !approved then Some(NeedsApproval)
      else if row.requiresReset && !reset then Some(NeedsReset)
      else None
  }

  predicate NonEmpty(v: Option<seq<string>>) {
    v.Some? && v.value != []
  }

  function ValidateTransitionWithState(s: PhaseState, to: Phase, reset: bool): Option<Rejection> {
    var legacy := ValidateTransition(s.phase, to, s.approved, reset);
    if legacy.Some? then legacy
    else if s.phase == Some(Plan) && to == Execute then
      if !NonEmpty(s.verification) then Some(VerificationMissing)
      else if !NonEmpty(s.allowedPaths) then Some(AllowedPathsMissing)
      else if s.planFinalizedAt.None? then Some(PlanFinalizedAtMissing)
      else if s.approvedAt.None? || IsoLt(s.approvedAt, s.planFinalizedAt) then Some(ApprovalPredatesPlan)
      else None
    else if s.phase == Some(Execute) && to == Done then
      if s.executeAttemptStartedAt.None? then Some(ExecuteAttemptMissing)
      else if s.approvedAt.None? || IsoLt(s.approvedAt, s.executeAttemptStartedAt) then Some(ApprovalPredatesExecute)
      else None
    else None
  }

  predicate Known(p: Phase) {
    !p.Other?
  }

  function Rank(p: Phase): nat
    requires Known(p)
  {
    match p
    case Discuss => 0
    case Plan => 1
    case Execute => 2
    case Done => 3
  }

  /** The table, read as a rule on the order of the phases: one step forward, approved once work is
      gated; strictly backward with an explicit reset; or the done re-stamp. */
  lemma TableIsOrdered(from: Phase, to: Phase, approved: bool, reset: bool)
    requires Known(from) && Known(to)
    ensures ValidateTransition(Some(from), to, approved, reset).None? <==>
            || (Rank(to) == Rank(from) + 1 && (Rank(from) >= 1 ==> approved))
            || (Rank(to) < Rank(from) && reset)
            || (from == Done && to == Done)
  {
    match from {
      case Discuss =>
      case Plan =>
      case Execute =>
      case Done =>
    }
  }
}
