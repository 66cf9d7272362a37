/** The read-only status projection and the next-action advice. */
module StatusNext {
  import opened Prelude
  import opened Timestamps
  import opened Transition

  datatype Command =
    | SetPhase(target: Phase)
    | ApprovePhase(approver: Option<string>)
    | ReopenToPlan

  datatype NextResult = NextResult(requiresHuman: bool, agentSafe: bool, command: Option<Command>, exitCode: nat)

  function ApprovedFresh(s: PhaseState, phase: Phase): bool {
    if !s.approved then false
    else if phase == Execute then
      s.approvedAt.Some? && s.executeAttemptStartedAt.Some? && !IsoLt(s.approvedAt, s.executeAttemptStartedAt)
    else if phase == Plan then
      s.approvedAt.Some? && s.planFinalizedAt.Some? && !IsoLt(s.approvedAt, s.planFinalizedAt)
    else s.approved
  }

  function CurrentPhase(s: PhaseState): Phase {
    if s.phase.Some? then s.phase.value else Discuss
  }

  function ComputeNextAction(s: PhaseState): Option<Command> {
    match CurrentPhase(s)
    case Discuss => Some(SetPhase(Plan))
    case Plan =>
      if ApprovedFresh(s, Plan) then Some(SetPhase(Execute))
      else if s.approvedBy.Some? && s.approvedBy.value != "" then Some(ApprovePhase(s.approvedBy))
      else Some(ApprovePhase(None))
    case Execute => if ApprovedFresh(s, Execute) then Some(SetPhase(Done)) else Some(ReopenToPlan)
    case Done => None
    case Other(_) => None
  }

  function ProjectedExecuteGateValid(s: PhaseState): bool {
    s.phase == Some(Execute) && ApprovedFresh(s, Execute)
  }

  function CanEnterExecute(s: PhaseState): bool {
    s.phase == Some(Plan) && ApprovedFresh(s, Plan)
  }

  function ComputeNext(s: PhaseState): NextResult {
    var command := ComputeNextAction(s);
    match CurrentPhase(s)
    case Discuss => NextResult(false, true, command, 0)
    case Plan => if ApprovedFresh(s, Plan) then NextResult(false, true, command, 0) else NextResult(true, false, command, 17)
    case Execute => if ApprovedFresh(s, Execute) then NextResult(false, true, command, 0) else NextResult(true, false, command, 17)
    case Done => NextResult(false, false, None, 0)
    case Other(_) => NextResult(false, false, None, 0)
  }

  /** The status booleans say exactly what the gate will do, in every state. */
  lemma StatusAgreesWithGate(s: PhaseState)
    ensures ProjectedExecuteGateValid(s) <==>
            s.phase == Some(Execute) && ValidateTransitionWithState(s, Done, false).None?
    ensures NonEmpty(s.verification) && NonEmpty(s.allowedPaths) ==>
              (CanEnterExecute(s) <==>
               s.phase == Some(Plan) && ValidateTransitionWithState(s, Execute, false).None?)
  {
  }

  /** In plan and execute the advice is agent-safe exactly when the gate accepts the forward move, and then it names that
      move. Plan needs a scope for that; execute does not. */
  lemma AdviceIsAccepted(s: PhaseState)
    requires s.phase in {Some(Plan), Some(Execute)}
    requires s.phase == Some(Plan) ==> NonEmpty(s.verification) && NonEmpty(s.allowedPaths)
    ensures
      var forward := if s.phase == Some(Plan) then Execute else Done;
      && (ComputeNext(s).agentSafe <==> ValidateTransitionWithState(s, forward, false).None?)
      && (ComputeNext(s).agentSafe <==> ComputeNext(s).command == Some(SetPhase(forward)))
      && (ComputeNext(s).agentSafe <==> ComputeNext(s).exitCode == 0 && !ComputeNext(s).requiresHuman)
  {
    StatusAgreesWithGate(s);
  }

  /** Agent-safe advice is a command the gate accepts, exactly in states that name a phase and, in plan, have a scope. A
      state without a phase reads as discuss here and as no phase there. */
  lemma SafeAdviceExactly(s: PhaseState)
    requires ComputeNext(s).agentSafe
    ensures ComputeNext(s).command.Some? && ComputeNext(s).command.value.SetPhase?
    ensures ValidateTransitionWithState(s, ComputeNext(s).command.value.target, false).None? <==>
              s.phase.Some? && (s.phase == Some(Plan) ==> NonEmpty(s.verification) && NonEmpty(s.allowedPaths))
  {
    if s.phase == Some(Execute) {
      AdviceIsAccepted(s);
    }
  }

  /** The advice for an empty state is agent-safe, and the gate refuses it. */
  lemma AdviceWithoutPhaseIsRefused()
    ensures ComputeNext(EMPTY_STATE).agentSafe && ComputeNext(EMPTY_STATE).command == Some(SetPhase(Plan))
    ensures ValidateTransitionWithState(EMPTY_STATE, Plan, false).Some?
  {
    assert !ValidateTransitionWithState(EMPTY_STATE, Plan, false).None?;
  }

  /** Without a scope the plan projection over-promises: it can say yes to a move the gate refuses. */
  lemma ScopelessPlanOverPromises(s: PhaseState)
    requires CanEnterExecute(s)
    ensures ValidateTransitionWithState(s, Execute, false).None? <==>
            NonEmpty(s.verification) && NonEmpty(s.allowedPaths)
  {
  }
}
