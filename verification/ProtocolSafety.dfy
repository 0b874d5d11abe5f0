/**
 Safety over every run: the ledger's effect of an operation is nothing or exactly its transfers once, an
 accepted or reconciled operation has been applied, and terminal states are left only for manual recovery.
 */
module ProtocolSafety {
  import opened Wrappers
  import opened Pairing
  import opened JournalValidation
  import opened OperationRecords
  import opened OperationTransactions
  import opened OperationInvariant
  import opened TransferIdentities
  import opened ExternalLedger
  import opened Protocol

  // ----- what is kept

  ghost function Effect(s: System): seq<LedgerTransfer> {
    Applied(s.log, s.rows.op.identity)
  }

  ghost predicate AccountsReady(s: System) {
    forall line | line in s.rows.lines :: line.account in s.provisioned
  }

  /** The acceptance a ledger reports for an operation it has applied. */
  ghost predicate TrueAcceptance(s: System, outcome: Outcome) {
    && Effect(s) != []
    && outcome == Accepting(s.rows.op.identity, s.rows.lines, MaxTimestamp(Effect(s)))
  }

  ghost predicate WorkerFits(s: System, worker: Worker) {
    match worker
    case Provisioning(_, pending) => forall line | line in s.rows.lines :: line.account in s.provisioned || line.account in pending
    case Identifying(_) => AccountsReady(s)
    case LookingUp | Posting => AccountsReady(s) && IdsPersisted(s.rows)
    case Receipting(outcome, observed) =>
      && outcome.operationId == s.rows.op.identity.operationId
      && (outcome.AcceptedOutcome? ==> TrueAcceptance(s, outcome) && observed == Some(AUTHORITY))
    case RebuildChecking(outcome) => TrueAcceptance(s, outcome) && s.rows.op.identity.engine == AUTHORITY
    case RebuildCommitting(outcome) => TrueAcceptance(s, outcome) && s.rows.op.identity.engine == AUTHORITY
    case RebuildLookingUp => s.rows.op.identity.engine == AUTHORITY
    case _ => true
  }

  ghost predicate StateFits(s: System) {
    && Consistent(s.rows)
    && IdsAgree(s.rows)
    && (s.rows.op.status !in {Reconciled, ManualRecovery} ==> s.rows.journal.status == Draft)
    && AppliedAtMostOnce(s.log, s.rows.op.identity, s.rows.lines)
    && (Effect(s) != [] ==> AccountsReady(s) && IdsPersisted(s.rows))
    && (s.rows.op.status in {Accepted, Reconciled} ==>
          && Effect(s) != []
          && s.rows.op.engineAcceptedAt == Some(MaxTimestamp(Effect(s)))
          && s.rows.op.observedEngine == Some(AUTHORITY))
  }

  ghost predicate Safe(s: System) {
    StateFits(s) && forall w | 0 <= w < |s.workers| :: WorkerFits(s, s.workers[w])
  }

  /** What only ever grows. */
  ghost predicate Progress(s: System, t: System) {
    && SameIntent(s.rows, t.rows)
    && s.provisioned <= t.provisioned
    && (IdsPersisted(s.rows) ==> IdsPersisted(t.rows))
    && (Effect(s) != [] ==> Effect(t) == Effect(s))
  }

  lemma ProgressKeepsWorker(s: System, t: System, worker: Worker)
    requires Progress(s, t) && WorkerFits(s, worker)
    ensures WorkerFits(t, worker)
  {
  }

  /** A step that moves one worker keeps `Safe` if it makes progress and both state and moved worker fit. */
  lemma StepKeepsSafe(s: System, t: System, w: nat, next: Worker)
    requires Safe(s) && w < |s.workers| && t.workers == s.workers[w := next]
    requires Progress(s, t) && StateFits(t) && WorkerFits(t, next)
    ensures Safe(t)
  {
    forall v | 0 <= v < |t.workers| ensures WorkerFits(t, t.workers[v]) {
      if v != w { ProgressKeepsWorker(s, t, s.workers[v]); }
    }
  }

  lemma GotoKeeps(s: System, w: nat, next: Worker)
    requires Safe(s) && w < |s.workers| && WorkerFits(s, next)
    ensures Safe(Goto(s, w, next))
  {
    StepKeepsSafe(s, Goto(s, w, next), w, next);
  }

  // ----- the ledger

  lemma ExpectedIdsOwned(identity: Identity, lines: seq<Line>)
    ensures forall i | 0 <= i < |ExpectedIds(identity, lines)| :: Owns(identity, ExpectedIds(identity, lines)[i])
    ensures forall i, j | 0 <= i < j < |ExpectedIds(identity, lines)| ::
      ExpectedIds(identity, lines)[i] != ExpectedIds(identity, lines)[j]
  {
  }

  lemma {:induction false} MaxOfCreated(batch: seq<LedgerTransfer>)
    ensures MaxStatus(seq(|batch|, i requires 0 <= i < |batch| => Created(batch[i].timestamp))) == MaxTimestamp(batch)
    ensures MaxStatus(seq(|batch|, i requires 0 <= i < |batch| => Exists(batch[i].timestamp))) == MaxTimestamp(batch)
    ensures FirstRefusal(seq(|batch|, i requires 0 <= i < |batch| => Created(batch[i].timestamp))) == None
    ensures FirstRefusal(seq(|batch|, i requires 0 <= i < |batch| => Exists(batch[i].timestamp))) == None
  {
    if batch != [] {
      MaxOfCreated(batch[1..]);
      var created := seq(|batch|, i requires 0 <= i < |batch| => Created(batch[i].timestamp));
      var exist := seq(|batch|, i requires 0 <= i < |batch| => Exists(batch[i].timestamp));
      var rest := batch[1..];
      assert created[1..] == seq(|rest|, i requires 0 <= i < |rest| => Created(rest[i].timestamp));
      assert exist[1..] == seq(|rest|, i requires 0 <= i < |rest| => Exists(rest[i].timestamp));
    }
  }

  lemma NothingRefusedLocally(identity: Identity, lines: seq<Line>)
    requires WellFormed(lines) && NoSelfTransfer(lines)
    ensures LocalRefusal(identity, lines) == None && PairsOf(lines) != []
  {
    ValidationsAgree(lines);
    WellFormedHasTransfers(lines);
  }

  /** A lookup of a journal that was applied answers the acceptance under the expected identities. */
  lemma LookupConfirms(log: seq<LedgerTransfer>, identity: Identity, lines: seq<Line>)
    requires WellFormed(lines) && NoSelfTransfer(lines) && Applied(log, identity) != [] && AppliedAtMostOnce(log, identity, lines)
    ensures ReconcileJournal(log, identity, lines, true) == Accepting(identity, lines, MaxTimestamp(Applied(log, identity)))
  {
    NothingRefusedLocally(identity, lines);
    LookupFindsApplied(log, identity, lines);
    var clock :| Applied(log, identity) == Batch(identity, lines, clock);
    var expected := Batch(identity, lines, 0);
    forall i | 0 <= i < |expected| ensures StoredAmong(Applied(log, identity), expected[i]) {
      assert SameTransfer(Applied(log, identity)[i], expected[i]);
    }
  }

  /** What a lookup answers: nothing when the ledger has nothing, otherwise the true acceptance. */
  lemma LookupIsTruthful(s: System, available: bool)
    requires StateFits(s)
    ensures var outcome := ReconcileJournal(s.log, s.rows.op.identity, s.rows.lines, available);
      if !available then outcome == UnknownOutcome(s.rows.op.identity.operationId, Unavailable)
      else if Effect(s) == [] then outcome == UnknownOutcome(s.rows.op.identity.operationId, NotFound)
      else TrueAcceptance(s, outcome)
  {
    var identity, lines := s.rows.op.identity, s.rows.lines;
    NothingRefusedLocally(identity, lines);
    LookupFindsApplied(s.log, identity, lines);
    if Effect(s) != [] { LookupConfirms(s.log, identity, lines); }
  }

  /** The client's view of a reached ledger: what it finds stored is the operation's effect. */
  lemma BatchFindsEffect(s: System, clock: Time)
    requires StateFits(s)
    ensures var batch := Batch(s.rows.op.identity, s.rows.lines, clock);
      LookupTransfers(s.log, seq(|batch|, i requires 0 <= i < |batch| => batch[i].id)) == Effect(s)
  {
    PostedBatchLooksUp(s.log, s.rows.op.identity, s.rows.lines, clock);
    LookupFindsApplied(s.log, s.rows.op.identity, s.rows.lines);
  }

  lemma PostApplies(s: System, reason: RejectionReason, clock: Time)
    requires StateFits(s) && Effect(s) == []
    ensures var batch := Batch(s.rows.op.identity, s.rows.lines, clock);
      var answer := CreateTransfers(s.log, batch, true, reason);
      && answer.log == s.log + batch
      && TrueAcceptance(s.(log := answer.log), InterpretPost(s.rows.op.identity, s.rows.lines, Some(answer.statuses)))
  {
    var batch := Batch(s.rows.op.identity, s.rows.lines, clock);
    BatchFindsEffect(s, clock);
    AppendedBatchIsEffect(s, clock);
    MaxOfCreated(batch);
    NothingRefusedLocally(s.rows.op.identity, s.rows.lines);
    var statuses := CreateTransfers(s.log, batch, true, reason).statuses;
    assert statuses == seq(|batch|, i requires 0 <= i < |batch| => Created(batch[i].timestamp));
    assert ExistsDifferent !in statuses;
  }

  lemma PostFinds(s: System, admits: bool, reason: RejectionReason, clock: Time)
    requires StateFits(s) && Effect(s) != []
    ensures var answer := CreateTransfers(s.log, Batch(s.rows.op.identity, s.rows.lines, clock), admits, reason);
      && answer.log == s.log
      && TrueAcceptance(s, InterpretPost(s.rows.op.identity, s.rows.lines, Some(answer.statuses)))
  {
    var batch := Batch(s.rows.op.identity, s.rows.lines, clock);
    BatchFindsEffect(s, clock);
    var effect := Effect(s);
    var at :| effect == Batch(s.rows.op.identity, s.rows.lines, at);
    assert forall i | 0 <= i < |batch| :: SameTransfer(effect[i], batch[i]);
    MaxOfCreated(effect);
    var statuses := CreateTransfers(s.log, batch, admits, reason).statuses;
    assert statuses == seq(|effect|, i requires 0 <= i < |effect| => Exists(effect[i].timestamp));
    assert ExistsDifferent !in statuses;
  }

  lemma PostRefused(s: System, reason: RejectionReason, clock: Time)
    requires StateFits(s) && Effect(s) == []
    ensures var answer := CreateTransfers(s.log, Batch(s.rows.op.identity, s.rows.lines, clock), false, reason);
      && answer.log == s.log
      && InterpretPost(s.rows.op.identity, s.rows.lines, Some(answer.statuses))
         == RejectedOutcome(s.rows.op.identity.operationId, reason)
  {
    BatchFindsEffect(s, clock);
    NothingRefusedLocally(s.rows.op.identity, s.rows.lines);
    var statuses := CreateTransfers(s.log, Batch(s.rows.op.identity, s.rows.lines, clock), false, reason).statuses;
    assert statuses[0] == Refused(reason) && ExistsDifferent !in statuses;
  }

  /** The ways a post can end: applied now, found applied, refused with nothing applied, or unknown. */
  lemma PostIsTruthful(s: System, delivery: Delivery, admits: bool, reason: RejectionReason, clock: Time)
    requires StateFits(s)
    ensures var posted := PostJournal(s.log, s.rows.op.identity, s.rows.lines, delivery, admits, reason, clock);
      var applies := delivery != LostRequest && admits && Effect(s) == [];
      && posted.log == (if applies then s.log + Batch(s.rows.op.identity, s.rows.lines, clock) else s.log)
      && (if delivery != Delivered then posted.outcome == UnknownOutcome(s.rows.op.identity.operationId, UnknownReason.ResponseLost)
          else if Effect(s) == [] && !admits then posted.outcome == RejectedOutcome(s.rows.op.identity.operationId, reason)
          else TrueAcceptance(s.(log := posted.log), posted.outcome))
  {
    NothingRefusedLocally(s.rows.op.identity, s.rows.lines);
    if delivery != LostRequest {
      if Effect(s) != [] {
        PostFinds(s, admits, reason, clock);
        assert s.(log := s.log) == s;
      } else if admits {
        PostApplies(s, reason, clock);
      } else {
        PostRefused(s, reason, clock);
      }
    }
  }

  lemma PostedBatchLooksUp(log: seq<LedgerTransfer>, identity: Identity, lines: seq<Line>, clock: Time)
    ensures var batch := Batch(identity, lines, clock);
      seq(|batch|, i requires 0 <= i < |batch| => batch[i].id) == ExpectedIds(identity, lines)
  {
  }

  lemma AppendedBatchIsEffect(s: System, clock: Time)
    requires Effect(s) == []
    ensures var batch := Batch(s.rows.op.identity, s.rows.lines, clock);
      Applied(s.log + batch, s.rows.op.identity) == batch
  {
    var batch := Batch(s.rows.op.identity, s.rows.lines, clock);
    AppliedConcat(s.log, batch, s.rows.op.identity);
    AppliedAll(batch, s.rows.op.identity);
  }

  // ----- one lemma per kind of step

  lemma InitialIsSafe(s: System)
    requires Initial(s)
    ensures Safe(s) && Effect(s) == []
  {
    IntentIsConsistent(s.rows.op.identity, s.rows.lines, 0, s.rows.outbox);
    AppliedNone(s.log, s.rows.op.identity);
    assert forall w | 0 <= w < |s.workers| :: s.workers[w] in s.workers;
  }

  /** Replacing the rows by consistent ones for the same intent keeps the state, if acceptance stays true. */
  lemma RowsUpdateFits(s: System, rows: Rows)
    requires StateFits(s) && Consistent(rows) && SameIntent(s.rows, rows) && IdsAgree(rows)
    requires IdsPersisted(s.rows) ==> IdsPersisted(rows)
    requires rows.op.status !in {Reconciled, ManualRecovery} ==> rows.journal.status == Draft
    requires rows.op.status in {Accepted, Reconciled} ==>
      && Effect(s) != []
      && rows.op.engineAcceptedAt == Some(MaxTimestamp(Effect(s)))
      && rows.op.observedEngine == Some(AUTHORITY)
    ensures StateFits(s.(rows := rows)) && Progress(s, s.(rows := rows))
  {
  }

  /** A transaction that keeps the record, the identities and the journal keeps the state. */
  lemma CommitKeeps(s: System, w: nat, committed: Committed, next: Worker)
    requires Safe(s) && w < |s.workers|
    requires committed.Success? ==>
      && Progress(s, s.(rows := committed.value)) && StateFits(s.(rows := committed.value))
      && WorkerFits(s.(rows := committed.value), next)
    ensures Safe(Commit(s, w, committed, next))
  {
    match committed
    case Success(rows) => StepKeepsSafe(s, Commit(s, w, committed, next), w, next);
    case Failure(_) => GotoKeeps(s, w, Idle);
  }

  lemma BegunRowsFit(s: System, reconcile: bool, routing: Routing, now: Time)
    requires StateFits(s)
    ensures var (committed, decision) := BeginSubmission(s.rows, reconcile, AUTHORITY, routing, now);
      decision.Proceed? ==>
        && committed.Success? && SameIntent(s.rows, committed.value)
        && Progress(s, s.(rows := committed.value)) && StateFits(s.(rows := committed.value))
  {
    var (committed, decision) := BeginSubmission(s.rows, reconcile, AUTHORITY, routing, now);
    BeginSubmissionKeeps(s.rows, reconcile, AUTHORITY, routing, now);
    if decision.Proceed? { RowsUpdateFits(s, committed.value); }
  }

  lemma BeginStepKeeps(s: System, w: nat, job: Job, routing: Routing, now: Time)
    requires Safe(s) && w < |s.workers| && s.workers[w] == Beginning(job)
    ensures Safe(BeginStep(s, w, job, routing, now))
  {
    var (committed, decision) := BeginSubmission(s.rows, job == ReconcileJob, AUTHORITY, routing, now);
    match decision {
      case Proceed(reconcile) =>
        BegunRowsFit(s, job == ReconcileJob, routing, now);
        CommitKeeps(s, w, committed, Provisioning(reconcile, DistinctAccounts(s.rows.lines)));
      case AlreadyTerminal => GotoKeeps(s, w, Idle);
      case RoutingChanged(observed) => GotoKeeps(s, w, Failing(s, EngineRoutingChanged, observed));
      case Blocked => GotoKeeps(s, w, Deferring);
    }
  }

  lemma AccountAcceptedKeeps(s: System, w: nat, reconcile: bool, pending: seq<string>)
    requires Safe(s) && w < |s.workers| && pending != [] && WorkerFits(s, Provisioning(reconcile, pending))
    ensures Safe(Goto(s, w, Provisioning(reconcile, pending[1..])).(provisioned := s.provisioned + {pending[0]}))
  {
    var t := Goto(s, w, Provisioning(reconcile, pending[1..])).(provisioned := s.provisioned + {pending[0]});
    assert forall account | account in pending :: account == pending[0] || account in pending[1..];
    StepKeepsSafe(s, t, w, Provisioning(reconcile, pending[1..]));
  }

  lemma RefusedAccountKeeps(s: System, w: nat, accounts: set<string>, next: Worker)
    requires Safe(s) && w < |s.workers| && WorkerFits(s, next)
    ensures Safe(Goto(s, w, next).(refusedAccounts := accounts))
  {
    StepKeepsSafe(s, Goto(s, w, next).(refusedAccounts := accounts), w, next);
  }

  lemma ProvisionStepKeeps(s: System, w: nat, reconcile: bool, pending: seq<string>, verdict: AccountVerdict)
    requires Safe(s) && w < |s.workers| && s.workers[w] == Provisioning(reconcile, pending)
    ensures Safe(ProvisionStep(s, w, reconcile, pending, verdict))
  {
    var next := ProvisionStep(s, w, reconcile, pending, verdict).workers[w];
    if pending == [] {
      GotoKeeps(s, w, Identifying(reconcile));
    } else {
      match AccountAnswer(s, pending[0], verdict)
      case AccountAccepted => AccountAcceptedKeeps(s, w, reconcile, pending);
      case AccountRejected(_) => RefusedAccountKeeps(s, w, s.refusedAccounts + {pending[0]}, next);
      case AccountUnknown(_) => GotoKeeps(s, w, next);
      case AccountManual(_) => GotoKeeps(s, w, next);
    }
  }

  lemma IdentifyStepKeeps(s: System, w: nat, reconcile: bool)
    requires Safe(s) && w < |s.workers| && s.workers[w] == Identifying(reconcile)
    ensures Safe(IdentifyStep(s, w, reconcile))
  {
    var (committed, _) := PersistIdentities(s.rows, Expected(s));
    IdentifiedRowsFit(s);
    CommitKeeps(s, w, committed, if reconcile then LookingUp else Posting);
  }

  lemma IdentifiedRowsFit(s: System)
    requires StateFits(s)
    ensures var (committed, persisted) := PersistIdentities(s.rows, Expected(s));
      && persisted && committed.Success? && SameIntent(s.rows, committed.value) && IdsPersisted(committed.value)
      && Progress(s, s.(rows := committed.value)) && StateFits(s.(rows := committed.value))
  {
    PersistedIds(s.rows);
    PersistIdentitiesKeeps(s.rows, Expected(s));
  }

  lemma LookupStepKeeps(s: System, w: nat, available: bool)
    requires Safe(s) && w < |s.workers| && s.workers[w] == LookingUp
    ensures Safe(LookupStep(s, w, available))
  {
    LookupIsTruthful(s, available);
    var t := LookupStep(s, w, available);
    StepKeepsSafe(s, t, w, t.workers[w]);
  }

  lemma PostStepKeeps(s: System, w: nat, delivery: Delivery, admitted: bool, reason: RejectionReason, clock: Time)
    requires Safe(s) && w < |s.workers| && s.workers[w] == Posting
    ensures Safe(PostStep(s, w, delivery, admitted, reason, clock))
  {
    var admits := admitted && !(s.remembers && s.refused);
    PostIsTruthful(s, delivery, admits, reason, clock);
    var t := PostStep(s, w, delivery, admitted, reason, clock);
    if delivery != LostRequest && admits && Effect(s) == [] {
      AppendedBatchIsEffect(s, clock);
      assert Effect(t) == Batch(t.rows.op.identity, t.rows.lines, clock);
    }
    StepKeepsSafe(s, t, w, t.workers[w]);
  }

  lemma ReceiptStepKeeps(s: System, w: nat, outcome: Outcome, observed: Option<Engine>, now: Time)
    requires Safe(s) && w < |s.workers| && s.workers[w] == Receipting(outcome, observed)
    ensures Safe(ReceiptStep(s, w, outcome, observed, now))
  {
    WriteReceiptKeeps(s.rows, outcome, observed, now);
    if outcome.AcceptedOutcome? { TrueAcceptanceMatches(s, outcome); }
    var committed := WriteReceipt(s.rows, outcome, observed, now);
    if committed.Success? {
      ReceiptKeepsIds(s.rows, outcome, observed, now);
      RowsUpdateFits(s, committed.value);
    }
    var finalizes := outcome.AcceptedOutcome? && committed.Success? && committed.value.op.status == Accepted;
    CommitKeeps(s, w, committed, if finalizes then Finalizing else Idle);
  }

  /** A true acceptance passes the receipt's mapping check, so `mapping_mismatch` is never taken. */
  lemma TrueAcceptanceMatches(s: System, outcome: Outcome)
    requires StateFits(s) && TrueAcceptance(s, outcome)
    ensures MappingMatches(s.rows, outcome) && CheckedOutcome(s, outcome) == outcome
  {
    ExpectedIdsOwned(s.rows.op.identity, s.rows.lines);
    DistinctHaveFullSet(outcome.transferIds);
    KeysAreInitial(s.rows.transfers, |PairsOf(s.rows.lines)|);
  }

  lemma FinalizeStepKeeps(s: System, w: nat, now: Time)
    requires Safe(s) && w < |s.workers|
    ensures Safe(Commit(s, w, FinalizeAccepted(s.rows, now), Idle))
  {
    FinalizeAcceptedKeeps(s.rows, now);
    var committed := FinalizeAccepted(s.rows, now);
    if committed.Success? {
      FinalizeKeepsIds(s.rows, now);
      RowsUpdateFits(s, committed.value);
    }
    CommitKeeps(s, w, committed, Idle);
  }

  lemma RebuildCommitStepKeeps(s: System, w: nat, outcome: Outcome, now: Time)
    requires Safe(s) && w < |s.workers| && s.workers[w] == RebuildCommitting(outcome)
    ensures Safe(RebuildCommitStep(s, w, outcome, now))
  {
    NothingMissing(s.rows, outcome.transferIds);
    RebuildProjectionKeeps(s.rows, outcome, now);
    var committed := RebuildAccepted(s.rows, outcome, now);
    if committed == Failure(EventConflict) {
      GotoKeeps(s, w, Quarantining);
    } else {
      if committed.Success? {
        RebuildKeepsIds(s.rows, outcome, now);
        RowsUpdateFits(s, committed.value);
      }
      CommitKeeps(s, w, committed, Idle);
    }
  }

  lemma RebuildLookupStepKeeps(s: System, w: nat, available: bool)
    requires Safe(s) && w < |s.workers| && s.workers[w] == RebuildLookingUp
    ensures Safe(RebuildLookupStep(s, w, available))
  {
    LookupIsTruthful(s, available);
    var t := RebuildLookupStep(s, w, available);
    StepKeepsSafe(s, t, w, t.workers[w]);
  }

  lemma QuarantineStepKeeps(s: System, w: nat)
    requires Safe(s) && w < |s.workers|
    ensures Safe(Commit(s, w, Quarantine(s.rows), Idle))
  {
    QuarantineKeeps(s.rows);
    if Quarantine(s.rows).Success? {
      RowsUpdateFits(s, Quarantine(s.rows).value);
    }
    CommitKeeps(s, w, Quarantine(s.rows), Idle);
  }

  lemma DeferStepKeeps(s: System, w: nat, now: Time)
    requires Safe(s) && w < |s.workers|
    ensures Safe(Commit(s, w, DeferBlocked(s.rows, now), Idle))
  {
    DeferBlockedKeeps(s.rows, now);
    RowsUpdateFits(s, DeferBlocked(s.rows, now).value);
    CommitKeeps(s, w, DeferBlocked(s.rows, now), Idle);
  }

  lemma RebuildCheckGoes(s: System, w: nat, outcome: Outcome)
    requires w < |s.workers| && s.workers[w] == RebuildChecking(outcome)
    ensures RebuildCheckStep(s, w, outcome) == Goto(s, w, RebuildCommitting(outcome)) || RebuildCheckStep(s, w, outcome) == Goto(s, w, Quarantining)
  {
  }

  lemma RebuildCheckStepKeeps(s: System, w: nat, outcome: Outcome)
    requires Safe(s) && w < |s.workers| && s.workers[w] == RebuildChecking(outcome)
    ensures Safe(RebuildCheckStep(s, w, outcome))
  {
    RebuildCheckGoes(s, w, outcome);
    GotoKeeps(s, w, RebuildCommitting(outcome));
    GotoKeeps(s, w, Quarantining);
  }

  lemma AuthorizeStepKeeps(s: System, w: nat, job: Job, verdict: Authorization)
    requires Safe(s) && w < |s.workers| && s.workers[w] == Loaded(job)
    ensures Safe(AuthorizeStep(s, w, job, verdict))
  {
    GotoKeeps(s, w, AuthorizeStep(s, w, job, verdict).workers[w]);
  }

  lemma OpeningStepIsSafe(s: System, w: nat, action: Action)
    requires Safe(s) && w < |s.workers|
    requires s.workers[w].Idle? || s.workers[w].Loaded? || s.workers[w].Beginning? || s.workers[w].Deferring?
    ensures Safe(SubmissionStep(s, w, action))
  {
    match (s.workers[w], action)
    case (Idle, Start(job)) => GotoKeeps(s, w, Loaded(job));
    case (Loaded(job), Authorize(verdict)) => AuthorizeStepKeeps(s, w, job, verdict);
    case (Beginning(job), Begin(routing, now)) => BeginStepKeeps(s, w, job, routing, now);
    case (Deferring, Defer(now)) => DeferStepKeeps(s, w, now);
    case _ =>
  }

  lemma CallStepIsSafe(s: System, w: nat, action: Action)
    requires Safe(s) && w < |s.workers|
    requires s.workers[w].Provisioning? || s.workers[w].Identifying? || s.workers[w].LookingUp? || s.workers[w].Posting?
    ensures Safe(SubmissionStep(s, w, action))
  {
    match (s.workers[w], action)
    case (Provisioning(reconcile, pending), Provision(verdict)) => ProvisionStepKeeps(s, w, reconcile, pending, verdict);
    case (Identifying(reconcile), Identify) => IdentifyStepKeeps(s, w, reconcile);
    case (LookingUp, Lookup(available)) => LookupStepKeeps(s, w, available);
    case (Posting, Post(delivery, admitted, reason, clock)) => PostStepKeeps(s, w, delivery, admitted, reason, clock);
    case _ =>
  }

  lemma ClosingStepIsSafe(s: System, w: nat, action: Action)
    requires Safe(s) && w < |s.workers| && (s.workers[w].Receipting? || s.workers[w].Finalizing?)
    ensures Safe(SubmissionStep(s, w, action))
  {
    match (s.workers[w], action)
    case (Receipting(outcome, observed), Receipt(now)) => ReceiptStepKeeps(s, w, outcome, observed, now);
    case (Finalizing, Finalize(now)) => FinalizeStepKeeps(s, w, now);
    case _ =>
  }

  /** A worker in a rebuild is not moved by the actions of a submission. */
  lemma RebuildingStays(s: System, w: nat, action: Action)
    requires w < |s.workers|
    requires match s.workers[w]
      case RebuildLookingUp => true
      case RebuildChecking(_) => true
      case RebuildCommitting(_) => true
      case Quarantining => true
      case _ => false
    ensures SubmissionStep(s, w, action) == s
  {
  }

  lemma SubmissionStepIsSafe(s: System, w: nat, action: Action)
    requires Safe(s) && w < |s.workers|
    ensures Safe(SubmissionStep(s, w, action))
  {
    match s.workers[w]
    case Idle | Loaded(_) | Beginning(_) | Deferring => OpeningStepIsSafe(s, w, action);
    case Provisioning(_, _) | Identifying(_) | LookingUp | Posting => CallStepIsSafe(s, w, action);
    case Receipting(_, _) | Finalizing => ClosingStepIsSafe(s, w, action);
    case _ => RebuildingStays(s, w, action);
  }

  lemma RebuildStepIsSafe(s: System, w: nat, action: Action)
    requires Safe(s) && w < |s.workers|
    ensures Safe(RebuildStep(s, w, action))
  {
    match (s.workers[w], action)
    case (Idle, StartRebuild) => if s.rows.op.identity.engine == AUTHORITY { GotoKeeps(s, w, RebuildLookingUp); }
    case (RebuildLookingUp, RebuildLookup(available)) => RebuildLookupStepKeeps(s, w, available);
    case (RebuildChecking(outcome), RebuildCheck) => RebuildCheckStepKeeps(s, w, outcome);
    case (RebuildCommitting(outcome), RebuildCommit(now)) => RebuildCommitStepKeeps(s, w, outcome, now);
    case (Quarantining, FenceProjection) => QuarantineStepKeeps(s, w);
    case _ =>
  }

  lemma StepIsSafe(s: System, w: nat, action: Action)
    requires Safe(s) && w < |s.workers|
    ensures Safe(Step(s, w, action))
  {
    GotoKeeps(s, w, Idle);
    SubmissionStepIsSafe(s, w, action);
    RebuildStepIsSafe(s, w, action);
  }

  // ----- the rest of the world

  lemma OthersPostKeeps(s: System, transfers: seq<LedgerTransfer>)
    requires Safe(s) && forall t | t in transfers :: !Owns(s.rows.op.identity, t.id)
    ensures Safe(s.(log := s.log + transfers)) && Effect(s.(log := s.log + transfers)) == Effect(s)
  {
    AppliedConcat(s.log, transfers, s.rows.op.identity);
    AppliedNone(transfers, s.rows.op.identity);
    var t := s.(log := s.log + transfers);
    forall v | 0 <= v < |t.workers| ensures WorkerFits(t, t.workers[v]) {
      ProgressKeepsWorker(s, t, s.workers[v]);
    }
  }

  lemma OthersPublishKeeps(s: System, event: Event)
    requires Safe(s)
    ensures Safe(Next(s, OthersPublish(event)))
  {
    var appended := AppendEvent(s.rows.outbox, event);
    var t := Next(s, OthersPublish(event));
    if t != s {
      AppendEventKeepsKeys(s.rows.outbox, event);
      ForeignEventKeepsRecord(s.rows, event);
      RowsUpdateFits(s, t.rows);
      forall v | 0 <= v < |t.workers| ensures WorkerFits(t, t.workers[v]) {
        ProgressKeepsWorker(s, t, s.workers[v]);
      }
    }
  }

  lemma ForeignEventKeepsRecord(rows: Rows, event: Event)
    requires Consistent(rows) && AppendEvent(rows.outbox, event).Success?
    requires event.eventId != rows.op.identity.reconciledEventId && !SameDedupeKey(event, ReconciledEvent(rows.op.identity, 0))
    ensures Consistent(rows.(outbox := AppendEvent(rows.outbox, event).value))
  {
    AppendEventKeepsKeys(rows.outbox, event);
    var outbox := AppendEvent(rows.outbox, event).value;
    if rows.op.status !in {Reconciled, ManualRecovery} {
      forall t ensures Collisions(outbox, ReconciledEvent(rows.op.identity, t)) == {} {
        assert Collisions(rows.outbox, ReconciledEvent(rows.op.identity, t)) == {};
        forall id | id in outbox ensures id !in Collisions(outbox, ReconciledEvent(rows.op.identity, t)) {
          if id in rows.outbox { assert id !in Collisions(rows.outbox, ReconciledEvent(rows.op.identity, t)); }
        }
      }
    }
  }

  lemma NextIsSafe(s: System, o: Occurrence)
    requires Safe(s)
    ensures Safe(Next(s, o))
  {
    match o
    case Act(w, action) => if w < |s.workers| { StepIsSafe(s, w, action); }
    case OthersPost(transfers) => if forall t | t in transfers :: !Owns(s.rows.op.identity, t.id) { OthersPostKeeps(s, transfers); }
    case OthersPublish(event) => OthersPublishKeeps(s, event);
  }

  lemma {:induction false} RunIsSafe(s: System, occurrences: seq<Occurrence>)
    requires Safe(s)
    ensures Safe(Run(s, occurrences))
    decreases |occurrences|
  {
    if occurrences != [] {
      NextIsSafe(s, occurrences[0]);
      RunIsSafe(Next(s, occurrences[0]), occurrences[1..]);
    }
  }
}
