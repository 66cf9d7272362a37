/** What following the advice leads to. */
module AdviceRuns {
  import opened Prelude
  import opened Timestamps
  import opened Transition
  import opened Lifecycle
  import opened LifecycleRuns
  import opened StatusNext
  import opened VerbOutcomes

  /** An invocation of the advised command. The person who types it may add an approval time, a reason and the reset flag
      of a reopening. */
  predicate Carries(command: Option<Command>, verb: Verb) {
    match verb
    case SetVerb(args) => command == Some(SetPhase(args.target)) && !args.reset
    case ApproveVerb(args) =>
      command.Some? && command.value.ApprovePhase?
      && (command.value.approver.Some? ==> args.email == command.value.approver.value)
    case ReopenVerb(args) => command == Some(ReopenToPlan) && args.target == Plan
    case EditVerb(_, _) => false
  }

  /** Outside edits, and verbs as advised for the state they find. */
  predicate FollowsAdvice(sys: Sys, verbs: seq<Timed>)
    requires Monotone(sys.clock, verbs)
    decreases |verbs|
  {
    if verbs == [] then true
    else
      StepClock(sys, verbs[0]);
      && (verbs[0].verb.EditVerb? || (sys.file.Some? && Carries(ComputeNext(sys.file.value).command, verbs[0].verb)))
      && FollowsAdvice(Step(sys, verbs[0].verb, verbs[0].now), verbs[1..])
  }

  // -------------------------------------------------------------- one piece of advice

  /** When a human is asked, it is in plan or execute, with no approval the gate would take. In plan the advice is to
      approve, as whoever approved last, and doing so takes effect exactly when no approval is held. In execute it is to
      reopen to plan, and doing so takes effect exactly when the reset flag is given for an approval that is held. */
  lemma HumanAdvice(s: PhaseState, approve: ApproveArgs, reopen: ReopenArgs, now: nat)
    requires approve.tty && approve.email != "" && approve.recordPresent && approve.confirmed
    requires reopen.tty && reopen.reason != "" && reopen.email != "" && reopen.recordPresent && reopen.target == Plan
    ensures ComputeNext(s).requiresHuman <==> s.phase in {Some(Plan), Some(Execute)} && !ComputeNext(s).agentSafe
    ensures ComputeNext(s).requiresHuman <==> ComputeNext(s).exitCode == 17
    ensures s.phase == Some(Plan) && ComputeNext(s).requiresHuman ==>
              && ComputeNext(s).command == Some(ApprovePhase(if s.approvedBy == Some("") then None else s.approvedBy))
              && !ApprovedSince(s, s.planFinalizedAt)
              && (PhaseApprove(Some(s), approve, now).1 == Approved <==> s.manual && !s.approved)
    ensures s.phase == Some(Execute) && ComputeNext(s).requiresHuman ==>
              && ComputeNext(s).command == Some(ReopenToPlan)
              && !ApprovedSince(s, s.executeAttemptStartedAt)
              && (PhaseReopen(Some(s), reopen).1 == Reopened <==> (s.approved ==> reopen.reset))
  {
    ApproveExactly(Some(s), approve, now);
    ReopenExactly(Some(s), reopen);
    hide IsoLt;
  }

  /** In done and in an unknown phase there is no advice. */
  lemma NoAdvice(s: PhaseState)
    ensures ComputeNext(s).command.None? <==> s.phase.Some? && (s.phase.value == Done || s.phase.value.Other?)
    ensures ComputeNext(s).command.None? ==> !ComputeNext(s).agentSafe && ComputeNext(s).exitCode == 0
  {
  }

  // ----------------------------------------------------------------- following it

  /** Done, or held up by nothing but the move to done. */
  predicate Finishing(file: Option<PhaseState>) {
    file.Some?
    && (file.value.phase == Some(Done)
        || (file.value.phase == Some(Execute) && ApprovedSince(file.value, file.value.executeAttemptStartedAt)))
  }

  lemma AdviceStep(sys: Sys, verb: Verb, now: nat)
    requires now >= sys.clock && !Finishing(sys.file)
    requires verb.EditVerb? || (sys.file.Some? && Carries(ComputeNext(sys.file.value).command, verb))
    ensures !Finishing(Step(sys, verb, now).file)
  {
    hide IsoLt, NowIsoNanos, NowIsoZ, MergeMeta;
  }

  lemma {:induction false} NotFinishingStays(sys: Sys, verbs: seq<Timed>)
    requires Monotone(sys.clock, verbs) && FollowsAdvice(sys, verbs) && !Finishing(sys.file)
    ensures !Finishing(Run(sys, verbs).file)
    decreases |verbs|
  {
    if verbs != [] {
      StepClock(sys, verbs[0]);
      AdviceStep(sys, verbs[0].verb, verbs[0].now);
      hide Step, Finishing, Carries, ComputeNext;
      NotFinishingStays(Step(sys, verbs[0].verb, verbs[0].now), verbs[1..]);
    }
  }

  /** Nothing to do, or the one move that is left. */
  function LastMove(sys: Sys): seq<Timed> {
    if InPhase(sys.file, Done) then [] else [Timed(SetTo(Done, false), sys.clock)]
  }

  lemma LastMoveFinishes(sys: Sys)
    requires Inv(sys) && Finishing(sys.file)
    ensures
      var path := LastMove(sys);
      Monotone(sys.clock, path) && FollowsAdvice(sys, path) && InPhase(Run(sys, path).file, Done)
  {
    if !InPhase(sys.file, Done) {
      var move := SetTo(Done, false);
      GateExactly(sys.file.value, Done, false);
      MovesExactly(sys.file, move.set_, sys.clock);
      MoveLeaves(sys.file, move.set_, sys.clock);
      hide IsoLt, NowIsoNanos, PhaseSet, ValidateTransitionWithState;
      assert LastMove(sys)[1..] == [];
    }
  }

  /** The advice alone leads to done only from done itself, and from execute with a fresh approval. From anywhere else it
      leads round for ever: the move to execute spends the approval, and in execute without one the advice is to go back
      to plan, never to approve. */
  lemma AdviceLeadsToDoneExactly(sys: Sys)
    requires Inv(sys)
    ensures (exists verbs :: Monotone(sys.clock, verbs) && FollowsAdvice(sys, verbs) && InPhase(Run(sys, verbs).file, Done))
            <==> Finishing(sys.file)
  {
    if Finishing(sys.file) {
      LastMoveFinishes(sys);
    } else {
      forall verbs | Monotone(sys.clock, verbs) && FollowsAdvice(sys, verbs)
        ensures !InPhase(Run(sys, verbs).file, Done)
      {
        NotFinishingStays(sys, verbs);
      }
    }
  }

}
