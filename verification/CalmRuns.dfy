/**
 Lost requests, lost responses, crashes and shut gates never lose an operation.  In every run in which nothing refuses the
 operation it stays open or becomes reconciled, so one undisturbed reconcile run completes it.
 */
module CalmRuns {
  import opened Wrappers
  import opened Pairing
  import opened JournalValidation
  import opened OperationRecords
  import opened OperationTransactions
  import opened OperationInvariant
  import opened TransferIdentities
  import opened TransactionEffects
  import opened ExternalLedger
  import opened Protocol
  import opened ProtocolSafety
  import opened ProtocolTheorems
  import opened Recovery

  /**
   Nothing refuses the operation: authorisation is granted or fails without an answer, the configuration names this ledger,
   accounts are accepted or unanswered, and a batch that reaches the ledger is admitted.  Gates may be shut, requests and
   responses may be lost, the ledger may be unavailable, workers may crash, rebuild and interleave.
   */
  predicate CalmOccurrence(o: Occurrence) {
    match o
    case Act(_, Authorize(verdict)) => verdict != Denied
    case Act(_, Begin(routing, _)) => routing.financialEngine == Some(AUTHORITY)
    case Act(_, Provision(answer)) => answer.AccountAccepted? || answer.AccountUnknown?
    case Act(_, Post(delivery, admitted, _, _)) => admitted || delivery == LostRequest
    case _ => true
  }

  /** Nobody carries a refusal, and nobody is about to fence. */
  predicate CalmWorker(worker: Worker) {
    match worker
    case Receipting(outcome, _) => outcome.AcceptedOutcome? || outcome.UnknownOutcome?
    case Quarantining => false
    case _ => true
  }

  predicate CalmStatus(status: Status) {
    status in {Intent, Submitted, Unknown, Accepted, Reconciled}
  }

  ghost predicate Calm(s: System) {
    && Safe(s) && s.rows.op.identity.engine == TigerBeetle && s.rows.op.identity.engineVerified
    && CalmStatus(s.rows.op.status) && !s.refused && s.refusedAccounts == {}
    && forall w | 0 <= w < |s.workers| :: CalmWorker(s.workers[w])
  }

  /** One worker has moved, calmly. */
  ghost predicate CalmMove(s: System, t: System, w: nat)
    requires w < |s.workers|
  {
    && |t.workers| == |s.workers| && t.workers == s.workers[w := t.workers[w]] && CalmWorker(t.workers[w])
    && CalmStatus(t.rows.op.status) && t.refused == s.refused && t.refusedAccounts == s.refusedAccounts
  }

  lemma StayIsCalm(s: System, w: nat)
    requires Calm(s) && w < |s.workers|
    ensures CalmMove(s, s, w)
  {
    assert s.workers[w := s.workers[w]] == s.workers;
  }

  lemma GotoIsCalm(s: System, w: nat, next: Worker)
    requires Calm(s) && w < |s.workers| && CalmWorker(next)
    ensures CalmMove(s, Goto(s, w, next), w)
  {
  }

  lemma CommitIsCalm(s: System, w: nat, committed: Committed, next: Worker)
    requires Calm(s) && w < |s.workers| && CalmWorker(next) && (committed.Success? ==> CalmStatus(committed.value.op.status))
    ensures CalmMove(s, Commit(s, w, committed, next), w)
  {
  }

  // ----- the steps of a submission

  lemma BeginIsCalm(s: System, w: nat, job: Job, routing: Routing, now: Time)
    requires Calm(s) && w < |s.workers| && s.workers[w] == Beginning(job) && routing.financialEngine == Some(AUTHORITY)
    ensures CalmMove(s, BeginStep(s, w, job, routing, now), w)
  {
    var (committed, decision) := BeginSubmission(s.rows, job == ReconcileJob, AUTHORITY, routing, now);
    BeginSubmissionKeeps(s.rows, job == ReconcileJob, AUTHORITY, routing, now);
    assert !decision.RoutingChanged?;
    match decision {
      case Proceed(reconcile) => CommitIsCalm(s, w, committed, Provisioning(reconcile, DistinctAccounts(s.rows.lines)));
      case AlreadyTerminal => GotoIsCalm(s, w, Idle);
      case Blocked => GotoIsCalm(s, w, Deferring);
      case _ =>
    }
  }

  lemma ProvisionIsCalm(s: System, w: nat, reconcile: bool, pending: seq<string>, verdict: AccountVerdict)
    requires Calm(s) && w < |s.workers| && s.workers[w] == Provisioning(reconcile, pending)
    requires verdict.AccountAccepted? || verdict.AccountUnknown?
    ensures CalmMove(s, ProvisionStep(s, w, reconcile, pending, verdict), w)
  {
  }

  lemma IdentifyIsCalm(s: System, w: nat, reconcile: bool)
    requires Calm(s) && w < |s.workers| && s.workers[w] == Identifying(reconcile)
    ensures CalmMove(s, IdentifyStep(s, w, reconcile), w)
  {
    IdentifiedRowsFit(s);
    PersistIdentitiesKeeps(s.rows, Expected(s));
    CommitIsCalm(s, w, PersistIdentities(s.rows, Expected(s)).0, if reconcile then LookingUp else Posting);
  }

  lemma LookupIsCalm(s: System, w: nat, available: bool)
    requires Calm(s) && w < |s.workers| && s.workers[w] == LookingUp
    ensures CalmMove(s, LookupStep(s, w, available), w)
  {
    LookupIsTruthful(s, available);
    var outcome := ExternalLedger.ReconcileJournal(s.log, s.rows.op.identity, s.rows.lines, available);
    if outcome.AcceptedOutcome? { TrueAcceptanceMatches(s, outcome); }
    GotoIsCalm(s, w, LookupStep(s, w, available).workers[w]);
  }

  lemma PostIsCalm(s: System, w: nat, delivery: Delivery, admitted: bool, reason: RejectionReason, clock: Time)
    requires Calm(s) && w < |s.workers| && s.workers[w] == Posting && (admitted || delivery == LostRequest)
    ensures CalmMove(s, PostStep(s, w, delivery, admitted, reason, clock), w)
  {
    PostIsTruthful(s, delivery, admitted, reason, clock);
    var posted := ExternalLedger.PostJournal(s.log, s.rows.op.identity, s.rows.lines, delivery, admitted, reason, clock);
    if posted.outcome.AcceptedOutcome? { TrueAcceptancePasses(s, s.(log := posted.log), posted.outcome); }
  }

  lemma TrueAcceptancePasses(s: System, t: System, outcome: Outcome)
    requires t.rows == s.rows && TrueAcceptance(t, outcome)
    ensures CheckedOutcome(s, outcome) == outcome
  {
  }

  lemma ReceiptIsCalm(s: System, w: nat, outcome: Outcome, observed: Option<Engine>, now: Time)
    requires Calm(s) && w < |s.workers| && s.workers[w] == Receipting(outcome, observed)
    ensures CalmMove(s, ReceiptStep(s, w, outcome, observed, now), w)
  {
    assert CalmWorker(s.workers[w]) && WorkerFits(s, s.workers[w]);
    CalmReceipt(s, outcome, observed, now);
    CommitIsCalm(s, w, WriteReceipt(s.rows, outcome, observed, now), Idle);
    CommitIsCalm(s, w, WriteReceipt(s.rows, outcome, observed, now), Finalizing);
  }

  /** A true acceptance or an unknown outcome leaves the operation open or reconciled, or is refused. */
  lemma CalmReceipt(s: System, outcome: Outcome, observed: Option<Engine>, now: Time)
    requires Calm(s) && WorkerFits(s, Receipting(outcome, observed)) && CalmWorker(Receipting(outcome, observed))
    ensures var receipt := WriteReceipt(s.rows, outcome, observed, now);
      receipt.Success? ==> CalmStatus(receipt.value.op.status)
  {
    if outcome.AcceptedOutcome? {
      TrueAcceptanceMatches(s, outcome);
    }
  }

  lemma FinalizeIsCalm(s: System, w: nat, now: Time)
    requires Calm(s) && w < |s.workers|
    ensures CalmMove(s, Commit(s, w, FinalizeAccepted(s.rows, now), Idle), w)
  {
    FinalizeLeaves(s.rows, now);
    CommitIsCalm(s, w, FinalizeAccepted(s.rows, now), Idle);
  }

  lemma FinalizeLeaves(rows: Rows, now: Time)
    requires CalmStatus(rows.op.status)
    ensures FinalizeAccepted(rows, now).Success? ==> CalmStatus(FinalizeAccepted(rows, now).value.op.status)
  {
  }

  lemma DeferIsCalm(s: System, w: nat, now: Time)
    requires Calm(s) && w < |s.workers|
    ensures CalmMove(s, Commit(s, w, DeferBlocked(s.rows, now), Idle), w)
  {
    CommitIsCalm(s, w, DeferBlocked(s.rows, now), Idle);
  }

  lemma OpeningIsCalm(s: System, w: nat, action: Action)
    requires Calm(s) && w < |s.workers| && CalmOccurrence(Act(w, action))
    requires s.workers[w].Idle? || s.workers[w].Loaded? || s.workers[w].Beginning? || s.workers[w].Deferring?
    ensures CalmMove(s, SubmissionStep(s, w, action), w)
  {
    StayIsCalm(s, w);
    match (s.workers[w], action)
    case (Idle, Start(job)) => GotoIsCalm(s, w, Loaded(job));
    case (Loaded(job), Authorize(verdict)) => GotoIsCalm(s, w, if verdict == Authorised then Beginning(job) else Idle);
    case (Beginning(job), Begin(routing, now)) => BeginIsCalm(s, w, job, routing, now);
    case (Deferring, Defer(now)) => DeferIsCalm(s, w, now);
    case _ =>
  }

  lemma CallIsCalm(s: System, w: nat, action: Action)
    requires Calm(s) && w < |s.workers| && CalmOccurrence(Act(w, action))
    requires s.workers[w].Provisioning? || s.workers[w].Identifying? || s.workers[w].LookingUp? || s.workers[w].Posting?
    ensures CalmMove(s, SubmissionStep(s, w, action), w)
  {
    StayIsCalm(s, w);
    match (s.workers[w], action)
    case (Provisioning(reconcile, pending), Provision(verdict)) => ProvisionIsCalm(s, w, reconcile, pending, verdict);
    case (Identifying(reconcile), Identify) => IdentifyIsCalm(s, w, reconcile);
    case (LookingUp, Lookup(available)) => LookupIsCalm(s, w, available);
    case (Posting, Post(delivery, admitted, reason, clock)) => PostIsCalm(s, w, delivery, admitted, reason, clock);
    case _ =>
  }

  lemma ClosingIsCalm(s: System, w: nat, action: Action)
    requires Calm(s) && w < |s.workers| && (s.workers[w].Receipting? || s.workers[w].Finalizing?)
    ensures CalmMove(s, SubmissionStep(s, w, action), w)
  {
    StayIsCalm(s, w);
    match (s.workers[w], action)
    case (Receipting(outcome, observed), Receipt(now)) => ReceiptIsCalm(s, w, outcome, observed, now);
    case (Finalizing, Finalize(now)) => FinalizeIsCalm(s, w, now);
    case _ =>
  }

  lemma SubmissionIsCalm(s: System, w: nat, action: Action)
    requires Calm(s) && w < |s.workers| && CalmOccurrence(Act(w, action))
    ensures CalmMove(s, SubmissionStep(s, w, action), w)
  {
    StayIsCalm(s, w);
    match s.workers[w]
    case Idle | Loaded(_) | Beginning(_) | Deferring => OpeningIsCalm(s, w, action);
    case Provisioning(_, _) | Identifying(_) | LookingUp | Posting => CallIsCalm(s, w, action);
    case Receipting(_, _) | Finalizing => ClosingIsCalm(s, w, action);
    case RebuildLookingUp | RebuildChecking(_) | RebuildCommitting(_) | Quarantining => RebuildingStays(s, w, action);
  }

  // ----- the steps of a rebuild

  lemma RebuildLookupIsCalm(s: System, w: nat, available: bool)
    requires Calm(s) && w < |s.workers|
    ensures CalmMove(s, RebuildLookupStep(s, w, available), w)
  {
    LookupIsTruthful(s, available);
    GotoIsCalm(s, w, RebuildLookupStep(s, w, available).workers[w]);
  }

  /** The ledger's true acceptance agrees with the record, so the rebuild's check passes. */
  lemma TrueAcceptanceAgrees(s: System, outcome: Outcome)
    requires StateFits(s) && TrueAcceptance(s, outcome)
    ensures RebuildAgrees(s.rows, outcome)
  {
  }

  lemma RebuildCheckIsCalm(s: System, w: nat, outcome: Outcome)
    requires Calm(s) && w < |s.workers| && s.workers[w] == RebuildChecking(outcome)
    ensures CalmMove(s, RebuildCheckStep(s, w, outcome), w)
  {
    assert WorkerFits(s, s.workers[w]);
    TrueAcceptanceAgrees(s, outcome);
    GotoIsCalm(s, w, RebuildCommitting(outcome));
  }

  /** A rebuild from a true acceptance meets no other event under its keys. */
  lemma RebuildMeetsNoConflict(rows: Rows, outcome: Outcome, now: Time)
    requires Consistent(rows) && CalmStatus(rows.op.status) && outcome.AcceptedOutcome?
    requires |outcome.transferIds| == |PairsOf(rows.lines)|
    ensures RebuildAccepted(rows, outcome, now) != Failure(EventConflict)
    ensures RebuildAccepted(rows, outcome, now).Success? ==> CalmStatus(RebuildAccepted(rows, outcome, now).value.op.status)
  {
    NothingMissing(rows, outcome.transferIds);
    var event := ReconciledEvent(rows.op.identity, OrElse(rows.op.reconciledAt, now));
    if rows.op.status == Reconciled {
      assert Collisions(rows.outbox, event) == {event.eventId};
    } else if rows.op.status == Accepted {
      assert Collisions(rows.outbox, event) == {};
    }
    assert rows.op.status in {Accepted, Reconciled} ==> AppendEvent(rows.outbox, event).Success?;
    RebuildFailsOnlyOn(rows, outcome, now);
  }

  /** A conflict of a rebuild is a conflict of its event. */
  lemma RebuildFailsOnlyOn(rows: Rows, outcome: Outcome, now: Time)
    requires outcome.AcceptedOutcome?
    ensures var event := ReconciledEvent(rows.op.identity, OrElse(rows.op.reconciledAt, now));
      RebuildProjection(rows, outcome, now) == Failure(EventConflict) ==>
        rows.op.status in {Accepted, Reconciled} && AppendEvent(rows.outbox, event).Failure?
    ensures RebuildProjection(rows, outcome, now).Success? ==>
      RebuildProjection(rows, outcome, now).value.op.status
        == if rows.op.status in {Accepted, Reconciled} then Reconciled else rows.op.status
  {
  }

  lemma RebuildCommitIsCalm(s: System, w: nat, outcome: Outcome, now: Time)
    requires Calm(s) && w < |s.workers| && s.workers[w] == RebuildCommitting(outcome)
    ensures CalmMove(s, RebuildCommitStep(s, w, outcome, now), w)
  {
    assert WorkerFits(s, s.workers[w]);
    RebuildMeetsNoConflict(s.rows, outcome, now);
    CommitIsCalm(s, w, RebuildAccepted(s.rows, outcome, now), Idle);
  }

  lemma RebuildIsCalm(s: System, w: nat, action: Action)
    requires Calm(s) && w < |s.workers|
    ensures CalmMove(s, RebuildStep(s, w, action), w)
  {
    StayIsCalm(s, w);
    assert CalmWorker(s.workers[w]);
    match (s.workers[w], action)
    case (Idle, StartRebuild) => GotoIsCalm(s, w, RebuildLookingUp);
    case (RebuildLookingUp, RebuildLookup(available)) => RebuildLookupIsCalm(s, w, available);
    case (RebuildChecking(outcome), RebuildCheck) => RebuildCheckIsCalm(s, w, outcome);
    case (RebuildCommitting(outcome), RebuildCommit(now)) => RebuildCommitIsCalm(s, w, outcome, now);
    case _ =>
  }

  // ----- every run

  lemma StepIsCalm(s: System, w: nat, action: Action)
    requires Calm(s) && w < |s.workers| && CalmOccurrence(Act(w, action))
    ensures CalmMove(s, Step(s, w, action), w)
  {
    GotoIsCalm(s, w, Idle);
    SubmissionIsCalm(s, w, action);
    RebuildIsCalm(s, w, action);
  }

  lemma NextIsCalm(s: System, o: Occurrence)
    requires Calm(s) && CalmOccurrence(o)
    ensures Calm(Next(s, o))
  {
    NextIsSafe(s, o);
    NextIsOrderly(s, o);
    if o.Act? && o.worker < |s.workers| {
      StepIsCalm(s, o.worker, o.action);
    }
  }

  lemma {:induction false} RunIsCalm(s: System, occurrences: seq<Occurrence>)
    requires Calm(s) && forall o | o in occurrences :: CalmOccurrence(o)
    ensures Calm(Run(s, occurrences))
    decreases |occurrences|
  {
    if occurrences != [] {
      NextIsCalm(s, occurrences[0]);
      RunIsCalm(Next(s, occurrences[0]), occurrences[1..]);
    }
  }

  /** Routed to this ledger by the engine it was created under. */
  ghost predicate RoutedHere(s: System) {
    Initial(s) && s.rows.op.identity.engine == TigerBeetle && s.rows.op.identity.engineVerified
  }

  /**
   Whatever is lost, crashes or interleaves, an operation nothing refuses is never rejected and never fenced: it is open,
   or it is reconciled.
   */
  lemma NothingLosesAnOperation(initial: System, past: seq<Occurrence>)
    requires RoutedHere(initial) && forall o | o in past :: CalmOccurrence(o)
    ensures var s := Run(initial, past);
      && s.rows.op.status in {Intent, Submitted, Unknown, Accepted, Reconciled}
      && s.rows.op.rejectionReason == None && s.rows.op.recoveryReason == None
  {
    InitialIsCalm(initial);
    RunIsCalm(initial, past);
  }

  lemma InitialIsCalm(s: System)
    requires RoutedHere(s)
    ensures Calm(s)
  {
    InitialIsSafe(s);
    assert forall w | 0 <= w < |s.workers| :: s.workers[w] in s.workers;
  }

  /** Undisturbed, and nothing is refused. */
  ghost predicate Welcoming(script: Script) {
    Undisturbed(script) && script.admitted && forall account :: script.verdict(account).AccountAccepted?
  }

  /**
   After any such run, one undisturbed reconcile run of an idle worker reconciles the operation, and the ledger then holds
   its transfers exactly once.
   */
  lemma LostResponsesAreRecovered(initial: System, past: seq<Occurrence>, w: nat, script: Script)
    requires RoutedHere(initial) && forall o | o in past :: CalmOccurrence(o)
    requires w < |Run(initial, past).workers| && Run(initial, past).workers[w] == Idle && Welcoming(script)
    ensures var s := Run(initial, past);
      var t := if s.rows.op.status == Reconciled then s else Run(s, SubmitScript(s, w, ReconcileJob, script));
      && t.rows.op.status == Reconciled
      && exists clock :: Applied(t.log, initial.rows.op.identity) == Batch(initial.rows.op.identity, initial.rows.lines, clock)
  {
    var s := Run(initial, past);
    InitialIsCalm(initial);
    RunIsCalm(initial, past);
    FinalStatesAbsorb(initial, past);
    if s.rows.op.status != Reconciled {
      assert AllAccepted(s, DistinctAccounts(s.rows.lines), script);
      RecoverySettlesFrom(s, w, script);
    }
  }
}
