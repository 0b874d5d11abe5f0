/**
 What each transaction of an operation leaves behind: which status, which reasons, when it is tried again, what becomes of
 the journal, the transfer rows and the outbox; and exactly when a submission may go ahead.
 */
module TransactionEffects {
  import opened Wrappers
  import opened Pairing
  import opened JournalValidation
  import opened OperationRecords
  import opened OperationTransactions
  import opened OperationInvariant
  import opened TransferIdentities

  /** How long an operation that could not be settled waits for its next try, in milliseconds. */
  const RETRY_DELAY := 5000

  // ----- the words of the statements

  /** Only the operation row differs. */
  ghost predicate OnlyOperation(before: Rows, after: Rows) {
    after == before.(op := after.op)
  }

  /** Who the operation is, how often it was tried, when it was first submitted and when it was reconciled stay as they were. */
  ghost predicate SameHistory(before: Operation, after: Operation) {
    && after.identity == before.identity && after.attempts == before.attempts
    && after.submittedAt == before.submittedAt && after.reconciledAt == before.reconciledAt
  }

  /** The transfer rows have this status and are otherwise what they were. */
  ghost predicate RowsBecome(before: Rows, after: Rows, status: TransferStatus) {
    && after.transfers.Keys == before.transfers.Keys
    && forall p | p in before.transfers :: after.transfers[p] == before.transfers[p].(status := status)
  }

  /** The journal is posted for its operation at this time: reversals reverse their source. */
  ghost predicate PostedAt(rows: Rows, at: Time) {
    var id := rows.op.identity;
    && rows.journal.postedAt == Some(at)
    && (if id.operationType == JournalReverse
        then rows.journal.status == Reversed && rows.journal.reversesEntryId == id.sourceJournalId
        else rows.journal.status == JournalStatus.Posted && rows.journal.reversesEntryId == None)
  }

  /** Every row is accepted under the identity of its position, as of this time. */
  ghost predicate RowsAcceptedAt(before: Rows, after: Rows, ids: seq<TransferId>, at: Time) {
    && after.transfers.Keys == before.transfers.Keys
    && forall p | p in before.transfers ::
         && p < |ids|
         && after.transfers[p] == before.transfers[p].(engineTransferId := Some(ids[p]), status := RowAccepted, observedAt := Some(at))
  }

  /** The outbox has gained this event, under its id, and lost nothing. */
  ghost predicate Published(before: Rows, after: Rows, event: Event) {
    && after.outbox.Keys == before.outbox.Keys + {event.eventId}
    && after.outbox[event.eventId] == event
    && forall id | id in before.outbox && id != event.eventId :: after.outbox[id] == before.outbox[id]
  }

  // ----- the first transaction of a submission

  /**
   A first attempt on the operation's own ledger goes ahead if and only if posting is enabled, the period is open and
   the configured engine is the operation's.  Otherwise nothing is written: it is put off when the engine is right,
   and turned away when it is not.
   */
  lemma FirstAttemptIsGated(rows: Rows, routing: Routing, now: Time)
    requires Consistent(rows) && rows.op.status == Intent && rows.op.identity.engineVerified
    ensures var (after, decision) := BeginSubmission(rows, false, rows.op.identity.engine, routing, now);
      var routed := routing.financialEngine == Some(rows.op.identity.engine);
      var open := routing.postingEnabled && routing.periodOpen;
      && after.Success?
      && (after.value.op.status == Submitted <==> routed && open)
      && (after.value.op.status != Submitted ==> after.value == rows)
      && (decision == Proceed(false) <==> routed && open)
      && (decision == Blocked <==> routed && !open)
      && (decision == RoutingChanged(routing.financialEngine) <==> !routed)
      && OnlyOperation(rows, after.value)
      && (routed && open ==>
            && after.value.op.attempts == rows.op.attempts + 1 && after.value.op.lastError == None
            && after.value.op.submittedAt == (if rows.op.submittedAt.Some? then rows.op.submittedAt else Some(now))
            && after.value.op.scheduledAt == rows.op.scheduledAt)
  {
  }

  /** A later attempt, or a reconcile job, looks the operation up whatever is configured by now. */
  lemma RetryIsNotGated(rows: Rows, reconcile: bool, routing: Routing, now: Time)
    requires Consistent(rows) && rows.op.identity.engineVerified && !Terminal(rows.op.status)
    requires reconcile || rows.op.status != Intent
    ensures var (after, decision) := BeginSubmission(rows, reconcile, rows.op.identity.engine, routing, now);
      && after.Success? && decision == Proceed(true) && OnlyOperation(rows, after.value)
      && (if rows.op.status in {Intent, Unknown}
          then after.value.op.status == Submitted && after.value.op.attempts == rows.op.attempts + 1
               && after.value.op.lastError == None
               && after.value.op.submittedAt == (if rows.op.submittedAt.Some? then rows.op.submittedAt else Some(now))
          else after.value == rows)
  {
  }

  /** A final operation is left alone, and another ledger's operation is turned away. */
  lemma OthersAreTurnedAway(rows: Rows, reconcile: bool, authority: Engine, routing: Routing, now: Time)
    requires rows.op.status in {Reconciled, Rejected, ManualRecovery} || !rows.op.identity.engineVerified || rows.op.identity.engine != authority
    ensures BeginSubmission(rows, reconcile, authority, routing, now) ==
      (Success(rows), if rows.op.status in {Reconciled, Rejected, ManualRecovery} then AlreadyTerminal else RoutingChanged(None))
  {
  }

  /** Putting off changes when the operation is tried again and says why, and nothing else. */
  lemma PutOffMeans(rows: Rows, now: Time)
    requires Consistent(rows)
    ensures DeferBlocked(rows, now)
         == Success(rows.(op := rows.op.(scheduledAt := now + RETRY_DELAY, lastError := Some(PostingBlocked))))
  {
  }

  // ----- the identities

  /** The list has one identity per pair, and every identity already stored is the one listed for its position. */
  ghost predicate ListAgrees(rows: Rows, expected: seq<TransferId>) {
    && |expected| == |PairsOf(rows.lines)|
    && forall p | p in rows.transfers && rows.transfers[p].engineTransferId.Some? ::
         p < |expected| && rows.transfers[p].engineTransferId.value == expected[p]
  }

  lemma AgreementIsByPosition(rows: Rows, expected: seq<TransferId>)
    requires Consistent(rows)
    ensures IdentitiesAgree(rows.transfers, expected) <==> ListAgrees(rows, expected)
  {
    KeysAreInitial(rows.transfers, |PairsOf(rows.lines)|);
  }

  /** A list that agrees is stored on every row; one that does not is turned away and nothing is written. */
  lemma IdentifyingMeans(rows: Rows, expected: seq<TransferId>)
    requires Consistent(rows)
    ensures var (after, persisted) := PersistIdentities(rows, expected);
      && after.Success? && (persisted <==> ListAgrees(rows, expected))
      && after.value == rows.(transfers := after.value.transfers) && after.value.transfers.Keys == rows.transfers.Keys
      && (!persisted ==> after.value == rows)
      && (persisted ==> forall p | p in rows.transfers ::
            p < |expected| && after.value.transfers[p] == rows.transfers[p].(engineTransferId := Some(expected[p])))
  {
    AgreementIsByPosition(rows, expected);
    if ListAgrees(rows, expected) { FillingMeans(rows.transfers, expected); }
  }

  lemma FillingMeans(transfers: map<nat, TransferRow>, expected: seq<TransferId>)
    requires forall p | p in transfers :: p < |expected|
    requires forall p | p in transfers && transfers[p].engineTransferId.Some? :: transfers[p].engineTransferId.value == expected[p]
    ensures var filled := FillMissingIds(transfers, expected);
      && TransfersUpdateAllowed(transfers, filled)
      && forall p | p in transfers :: filled[p] == transfers[p].(engineTransferId := Some(expected[p]))
  {
    forall p | p in transfers ensures FillMissingIds(transfers, expected)[p] == transfers[p].(engineTransferId := Some(expected[p]))
    {
      assert transfers[p].engineTransferId.Some? ==> transfers[p].engineTransferId == Some(expected[p]);
    }
  }

  // ----- the receipt

  /**
   A lost response or an unavailable ledger leaves the operation unknown: no reason is recorded, the rows stay
   unresolved, and it is tried again later.
   */
  lemma UnknownReceiptMeans(rows: Rows, why: UnknownReason, observed: Option<Engine>, now: Time)
    requires Consistent(rows) && rows.op.status in {Submitted, Unknown}
    ensures var receipt := WriteReceipt(rows, UnknownOutcome(rows.op.identity.operationId, why), observed, now);
      && receipt.Success? && OnlyOperation(rows, receipt.value)
      && receipt.value.op.status == Unknown
      && receipt.value.op.rejectionReason == None && receipt.value.op.recoveryReason == None && receipt.value.op.engineAcceptedAt == None
      && receipt.value.op.scheduledAt == now + RETRY_DELAY && receipt.value.op.lastError == Some(LedgerUnknown(why))
      && receipt.value.op.observedEngine == observed && SameHistory(rows.op, receipt.value.op)
      && (forall p | p in receipt.value.transfers :: receipt.value.transfers[p].status == RowUnresolved)
  {
    var receipt := WriteReceipt(rows, UnknownOutcome(rows.op.identity.operationId, why), observed, now);
    assert WithStatus(rows.transfers, RowUnresolved) == rows.transfers;
    assert receipt.Success?;
  }

  /** A refusal is recorded with the ledger's own reason, on the operation and on its rows. */
  lemma RejectedReceiptMeans(rows: Rows, reason: RejectionReason, observed: Option<Engine>, now: Time)
    requires Consistent(rows) && rows.op.status == Submitted
    ensures var receipt := WriteReceipt(rows, RejectedOutcome(rows.op.identity.operationId, reason), observed, now);
      && receipt.Success? && receipt.value.op.status == Rejected && receipt.value.op.rejectionReason == Some(reason)
      && receipt.value.op.recoveryReason == None && receipt.value.op.engineAcceptedAt == None && receipt.value.op.lastError == None
      && receipt.value.op.observedEngine == observed && receipt.value.op.scheduledAt == now
      && SameHistory(rows.op, receipt.value.op)
      && RowsBecome(rows, receipt.value, RowRejected)
      && receipt.value.journal == rows.journal && receipt.value.outbox == rows.outbox
  {
  }

  /** An outcome for the operators is recorded with its own reason, and everything is fenced. */
  lemma ManualReceiptMeans(rows: Rows, recovery: RecoveryReason, observed: Option<Engine>, now: Time)
    requires Consistent(rows) && rows.op.status in {Intent, Submitted, Unknown}
    ensures var receipt := WriteReceipt(rows, ManualOutcome(rows.op.identity.operationId, recovery), observed, now);
      && receipt.Success? && receipt.value.op.status == ManualRecovery && receipt.value.op.recoveryReason == Some(recovery)
      && receipt.value.op.rejectionReason == None && receipt.value.op.engineAcceptedAt == None && receipt.value.op.lastError == None
      && receipt.value.op.observedEngine == observed && receipt.value.op.scheduledAt == now
      && SameHistory(rows.op, receipt.value.op) && RowsBecome(rows, receipt.value, RowManualRecovery)
      && receipt.value.journal == rows.journal && receipt.value.outbox == rows.outbox
  {
  }

  /** The ledger names exactly the expected identities, in order, under the operation's mapping version. */
  ghost predicate NamesExpected(rows: Rows, outcome: Outcome) {
    && outcome.AcceptedOutcome? && outcome.operationId == rows.op.identity.operationId
    && outcome.mappingVersion == rows.op.identity.mappingVersion
    && outcome.transferIds == ExpectedIds(rows.op.identity, rows.lines) && outcome.transferCount == |outcome.transferIds|
  }

  /** An acceptance under the expected identities is recorded with its time; the rows get their identities and stay open. */
  lemma AcceptedReceiptMeans(rows: Rows, outcome: Outcome, observed: Option<Engine>, now: Time)
    requires Consistent(rows) && IdsAgree(rows) && rows.op.status in {Submitted, Accepted} && NamesExpected(rows, outcome)
    ensures var receipt := WriteReceipt(rows, outcome, observed, now);
      && receipt.Success? && receipt.value.op.status == Accepted
      && receipt.value.op.engineAcceptedAt == Some(outcome.acceptedAt) && receipt.value.op.observedEngine == observed
      && receipt.value.op.rejectionReason == None && receipt.value.op.recoveryReason == None && receipt.value.op.lastError == None
      && receipt.value.op.scheduledAt == rows.op.scheduledAt && SameHistory(rows.op, receipt.value.op)
      && receipt.value.transfers.Keys == rows.transfers.Keys
      && (forall p | p in rows.transfers ::
            receipt.value.transfers[p] == rows.transfers[p].(engineTransferId := Some(outcome.transferIds[p])))
      && receipt.value.journal == rows.journal && receipt.value.outbox == rows.outbox
  {
    ExpectedMatches(rows, outcome);
    assert WriteReceipt(rows, outcome, observed, now) == RecordAcceptance(rows, outcome, observed);
    RecordingAllowed(rows, outcome, observed);
  }

  lemma ExpectedMatches(rows: Rows, outcome: Outcome)
    requires Consistent(rows) && IdsAgree(rows) && NamesExpected(rows, outcome)
    ensures MappingMatches(rows, outcome)
  {
    KeysAreInitial(rows.transfers, |PairsOf(rows.lines)|);
    DistinctHaveFullSet(outcome.transferIds);
  }

  lemma RecordingAllowed(rows: Rows, outcome: Outcome, observed: Option<Engine>)
    requires Consistent(rows) && IdsAgree(rows) && rows.op.status in {Submitted, Accepted} && NamesExpected(rows, outcome)
    ensures RecordAcceptance(rows, outcome, observed)
         == Success(rows.(op := AcceptedOperation(rows.op, outcome.acceptedAt, observed), transfers := WithIds(rows.transfers, outcome.transferIds)))
  {
    assert TransfersUpdateAllowed(rows.transfers, WithIds(rows.transfers, outcome.transferIds));
  }

  /** What makes an acceptance unbelievable: version, counts, repeated identities, or one that contradicts a stored one. */
  ghost predicate Contradicts(rows: Rows, outcome: Outcome) {
    && outcome.AcceptedOutcome?
    && (outcome.mappingVersion != rows.op.identity.mappingVersion
        || outcome.transferCount != |PairsOf(rows.lines)| || |outcome.transferIds| != |PairsOf(rows.lines)|
        || (exists i, j :: 0 <= i < j < |outcome.transferIds| && outcome.transferIds[i] == outcome.transferIds[j])
        || (exists p :: p in rows.transfers && p < |outcome.transferIds| && rows.transfers[p].engineTransferId.Some?
                        && rows.transfers[p].engineTransferId.value != outcome.transferIds[p]))
  }

  lemma {:induction false} RepeatsHaveSmallerSet<T>(s: seq<T>, i: nat, j: nat)
    requires i < j < |s| && s[i] == s[j]
    ensures |set x | x in s| < |s|
  {
    var rest := s[..j] + s[j + 1..];
    assert (set x | x in s) == set x | x in rest by {
      forall x | x in s ensures x in rest {
        var k :| 0 <= k < |s| && s[k] == x;
        assert x == rest[if k < j then k else if k == j then i else k - 1];
      }
    }
    SetNoLarger(rest);
  }

  lemma {:induction false} SetNoLarger<T>(s: seq<T>)
    ensures |set x | x in s| <= |s|
  {
    if s != [] {
      SetNoLarger(s[1..]);
      assert (set x | x in s) == {s[0]} + set x | x in s[1..];
    }
  }

  lemma ContradictionFails(rows: Rows, outcome: Outcome)
    requires Consistent(rows) && Contradicts(rows, outcome)
    ensures !MappingMatches(rows, outcome)
  {
    KeysAreInitial(rows.transfers, |PairsOf(rows.lines)|);
    if i, j :| 0 <= i < j < |outcome.transferIds| && outcome.transferIds[i] == outcome.transferIds[j] {
      RepeatsHaveSmallerSet(outcome.transferIds, i, j);
    }
  }

  /** An acceptance that contradicts what is stored fences everything, with the time the ledger gave. */
  lemma ContradictingReceiptMeans(rows: Rows, outcome: Outcome, observed: Option<Engine>, now: Time)
    requires Consistent(rows) && rows.op.status in {Intent, Submitted, Unknown, Accepted} && Contradicts(rows, outcome)
    requires outcome.operationId == rows.op.identity.operationId
    ensures var receipt := WriteReceipt(rows, outcome, observed, now);
      && receipt.Success? && receipt.value.op.status == ManualRecovery && receipt.value.op.recoveryReason == Some(MappingMismatch)
      && receipt.value.op.engineAcceptedAt == Some(outcome.acceptedAt) && receipt.value.op.lastError == Some(TransferProjectionMismatch)
      && receipt.value.op.observedEngine == observed
      && RowsBecome(rows, receipt.value, RowManualRecovery)
      && receipt.value.journal == rows.journal && receipt.value.outbox == rows.outbox
  {
    ContradictionFails(rows, outcome);
    var fenced := MappingMismatched(rows.op, outcome.acceptedAt, observed);
    assert WriteReceipt(rows, outcome, observed, now) == Fence(rows, fenced);
    FencingAllowed(rows, fenced);
  }

  lemma FencingAllowed(rows: Rows, fenced: Operation)
    requires Consistent(rows) && rows.op.status != Rejected && fenced.status == ManualRecovery && fenced.identity == rows.op.identity
    requires StatusMatchesMetadata(fenced)
    ensures Fence(rows, fenced) == Success(rows.(op := fenced, transfers := WithStatus(rows.transfers, RowManualRecovery)))
  {
  }

  /** An outcome that names another operation fences this one, unless it was rejected. */
  lemma ForeignReceiptMeans(rows: Rows, outcome: Outcome, observed: Option<Engine>, now: Time)
    requires Consistent(rows) && outcome.operationId != rows.op.identity.operationId
    ensures var receipt := WriteReceipt(rows, outcome, observed, now);
      && (receipt.Success? <==> rows.op.status != Rejected)
      && (receipt.Success? ==>
            && receipt.value.op.status == ManualRecovery && receipt.value.op.recoveryReason == Some(MappingMismatch)
            && receipt.value.op.lastError == Some(OperationIdentityMismatch) && receipt.value.op.reconciledAt == None
            && RowsBecome(rows, receipt.value, RowManualRecovery)
            && receipt.value.journal == rows.journal && receipt.value.outbox == rows.outbox)
  {
  }

  /** A reconciled operation ignores its own receipts; an accepted one refuses any that is not an acceptance. */
  lemma SettledReceiptMeans(rows: Rows, outcome: Outcome, observed: Option<Engine>, now: Time)
    requires outcome.operationId == rows.op.identity.operationId
    ensures rows.op.status == Reconciled ==> WriteReceipt(rows, outcome, observed, now) == Success(rows)
    ensures rows.op.status == Accepted && !outcome.AcceptedOutcome? ==>
      WriteReceipt(rows, outcome, observed, now) == Failure(ReconciliationConflict)
  {
  }

  // ----- finalisation, rebuild and quarantine

  function EventAt(identity: Identity, at: Time): Event {
    Event(identity.reconciledEventId, "accounting.financial_operation.reconciled", identity.rowId,
          "accounting.financial_operation.reconciled:" + identity.operationId, identity.actorPrincipalId, at,
          identity.operationId, identity.journalId, identity.mappingVersion)
  }

  lemma EventIsAppended(rows: Rows, now: Time)
    requires Consistent(rows) && rows.op.status == Accepted
    ensures ReconciledEvent(rows.op.identity, now) == EventAt(rows.op.identity, now)
    ensures AppendEvent(rows.outbox, EventAt(rows.op.identity, now))
         == Success(rows.outbox[rows.op.identity.reconciledEventId := EventAt(rows.op.identity, now)])
  {
    assert RECONCILED_EVENT + ":" == "accounting.financial_operation.reconciled:";
    assert Collisions(rows.outbox, ReconciledEvent(rows.op.identity, now)) == {};
  }

  /** Finalising an accepted operation with a draft journal: reconciled, posted, accepted and published, all as of now. */
  lemma FinalizingMeans(rows: Rows, now: Time)
    requires Consistent(rows) && rows.op.status == Accepted && rows.journal.status == Draft
    ensures var done := FinalizeAccepted(rows, now);
      && done.Success? && done.value.op.status == Reconciled && done.value.op.reconciledAt == Some(now)
      && done.value.op.engineAcceptedAt == rows.op.engineAcceptedAt && done.value.op.lastError == None
      && PostedAt(done.value, now) && done.value.op.identity == rows.op.identity
      && done.value.transfers.Keys == rows.transfers.Keys
      && (forall p | p in rows.transfers ::
            done.value.transfers[p] == rows.transfers[p].(status := RowAccepted, observedAt := rows.op.engineAcceptedAt))
      && Published(rows, done.value, EventAt(rows.op.identity, now))
  {
    PostingBalanced(rows.lines);
    EventIsAppended(rows, now);
  }

  /** Any other operation is left alone. */
  lemma FinalizingOthersMeans(rows: Rows, now: Time)
    requires rows.op.status != Accepted
    ensures FinalizeAccepted(rows, now) == Success(rows)
  {
  }

  /** What a rebuild makes of the journal: posted as of now from a draft, and left alone otherwise. */
  lemma RepairMeans(rows: Rows, now: Time)
    requires SoundIntent(rows) && JournalFits(rows.op.identity, Accepted, rows.journal)
    ensures var after := RepairJournal(rows, now);
      && after.Success? && after.value == rows.(journal := after.value.journal)
      && (if rows.journal.status == Draft then PostedAt(after.value, now) else after.value.journal == rows.journal)
  {
    PostingBalanced(rows.lines);
  }

  lemma RebuildCommits(rows: Rows, outcome: Outcome, now: Time)
    requires Consistent(rows) && IdsAgree(rows) && rows.op.status == Accepted && NamesExpected(rows, outcome)
    ensures var op := RebuiltOperation(rows.op, outcome.acceptedAt, now);
      var repaired := RepairJournal(rows.(op := op), now);
      && repaired.Success?
      && RebuildAccepted(rows, outcome, now)
           == Success(Rows(op, repaired.value.journal, rows.lines,
                           RebuiltRows(rows.transfers, outcome.transferIds, outcome.acceptedAt),
                           rows.outbox[rows.op.identity.reconciledEventId := EventAt(rows.op.identity, now)]))
  {
    NothingMissing(rows, outcome.transferIds);
    RebuiltIds(rows.transfers, outcome.transferIds, outcome.acceptedAt);
    assert TransfersUpdateAllowed(rows.transfers, RebuiltRows(rows.transfers, outcome.transferIds, outcome.acceptedAt));
    RepairMeans(rows.(op := RebuiltOperation(rows.op, outcome.acceptedAt, now)), now);
    EventIsAppended(rows, now);
  }

  /** Rebuilding an accepted operation: reconciled as of now, under the times and identities the ledger gave. */
  lemma RebuildingMeans(rows: Rows, outcome: Outcome, now: Time)
    requires Consistent(rows) && IdsAgree(rows) && rows.op.status == Accepted && NamesExpected(rows, outcome)
    ensures var done := RebuildAccepted(rows, outcome, now);
      && done.Success? && done.value.op.status == Reconciled && done.value.op.reconciledAt == Some(now)
      && done.value.op.engineAcceptedAt == Some(outcome.acceptedAt) && done.value.op.identity == rows.op.identity
      && done.value.op.observedEngine == Some(rows.op.identity.engine) && done.value.op.lastError == None
      && RowsAcceptedAt(rows, done.value, outcome.transferIds, outcome.acceptedAt)
      && Published(rows, done.value, EventAt(rows.op.identity, now))
      && (if rows.journal.status == Draft then PostedAt(done.value, now) else done.value.journal == rows.journal)
  {
    RebuildCommits(rows, outcome, now);
    RepairMeans(rows.(op := RebuiltOperation(rows.op, outcome.acceptedAt, now)), now);
  }

  /** A rebuild of any other operation only puts lost rows back, unresolved and under the identities the ledger gave. */
  lemma RebuildingOthersMeans(rows: Rows, outcome: Outcome, now: Time)
    requires rows.op.status !in {Accepted, Reconciled} && outcome.AcceptedOutcome?
    requires |outcome.transferIds| == |PairsOf(rows.lines)|
    ensures var pairs, done := PairsOf(rows.lines), RebuildAccepted(rows, outcome, now);
      && done.Success? && done.value == rows.(transfers := done.value.transfers)
      && (forall p :: p in done.value.transfers <==> p in rows.transfers || 0 <= p < |pairs|)
      && (forall p | p in rows.transfers :: done.value.transfers[p] == rows.transfers[p])
      && (forall p | 0 <= p < |pairs| && p !in rows.transfers ::
            done.value.transfers[p]
              == TransferRow(pairs[p].debit, pairs[p].credit, pairs[p].amount, Some(outcome.transferIds[p]), RowUnresolved, None))
  {
  }

  /** The outbox holds something else under the event's id, or under its type and idempotency key. */
  ghost predicate HoldsAnother(outbox: map<string, Event>, event: Event) {
    exists id :: id in outbox && outbox[id] != event
      && (id == event.eventId || (outbox[id].eventType == event.eventType && outbox[id].idempotencyKey == event.idempotencyKey))
  }

  /** With another event in the way, neither finalisation nor rebuild writes anything. */
  lemma ConflictingEventStops(rows: Rows, outbox: map<string, Event>, outcome: Outcome, now: Time)
    requires Consistent(rows) && IdsAgree(rows) && rows.op.status == Accepted && NamesExpected(rows, outcome)
    requires OutboxKeysUnique(outbox) && HoldsAnother(outbox, EventAt(rows.op.identity, now))
    ensures rows.journal.status == Draft ==> FinalizeAccepted(rows.(outbox := outbox), now) == Failure(EventConflict)
    ensures RebuildAccepted(rows.(outbox := outbox), outcome, now) == Failure(EventConflict)
  {
    EventIsAppended(rows, now);
    AppendedIff(outbox, EventAt(rows.op.identity, now));
    if rows.journal.status == Draft { FinalizingNeedsTheEvent(rows, outbox, now); }
    RebuildingNeedsTheEvent(rows, outbox, outcome, now);
  }

  lemma FinalizingNeedsTheEvent(rows: Rows, outbox: map<string, Event>, now: Time)
    requires Consistent(rows) && rows.op.status == Accepted && rows.journal.status == Draft
    requires AppendEvent(outbox, ReconciledEvent(rows.op.identity, now)).Failure?
    ensures FinalizeAccepted(rows.(outbox := outbox), now) == Failure(AppendEvent(outbox, ReconciledEvent(rows.op.identity, now)).error)
  {
    PostingBalanced(rows.lines);
  }

  lemma RebuildingNeedsTheEvent(rows: Rows, outbox: map<string, Event>, outcome: Outcome, now: Time)
    requires Consistent(rows) && IdsAgree(rows) && rows.op.status == Accepted && NamesExpected(rows, outcome)
    requires AppendEvent(outbox, ReconciledEvent(rows.op.identity, now)).Failure?
    ensures RebuildAccepted(rows.(outbox := outbox), outcome, now)
         == Failure(AppendEvent(outbox, ReconciledEvent(rows.op.identity, now)).error)
  {
    var other := rows.(outbox := outbox);
    NothingMissing(other, outcome.transferIds);
    RebuiltIds(rows.transfers, outcome.transferIds, outcome.acceptedAt);
    assert TransfersUpdateAllowed(rows.transfers, RebuiltRows(rows.transfers, outcome.transferIds, outcome.acceptedAt));
    RepairMeans(other.(op := RebuiltOperation(rows.op, outcome.acceptedAt, now)), now);
  }

  /** Quarantine fences an operation and its rows, and leaves journal and outbox as evidence. */
  lemma QuarantiningMeans(rows: Rows)
    requires Consistent(rows) && rows.op.status != Rejected
    ensures var done := Quarantine(rows);
      && done.Success? && done.value.op.status == ManualRecovery && RowsBecome(rows, done.value, RowManualRecovery)
      && done.value.journal == rows.journal && done.value.outbox == rows.outbox
      && (rows.op.status == ManualRecovery ==> done.value == rows)
      && (rows.op.status != ManualRecovery ==>
            && done.value.op.recoveryReason == Some(MappingMismatch) && done.value.op.rejectionReason == None
            && done.value.op.lastError == Some(ProjectionRebuildMismatch) && done.value.op.reconciledAt == None)
  {
    assert WithStatus(rows.transfers, RowManualRecovery).Keys == rows.transfers.Keys;
    assert rows.op.status == ManualRecovery ==> forall p | p in rows.transfers :: rows.transfers[p] == rows.transfers[p].(status := RowManualRecovery);
  }

  // ----- posting in the PostgreSQL ledger

  /** Acceptance by the PostgreSQL ledger: accepted, posted and every row accepted, all as of now. */
  lemma AcceptingMeans(rows: Rows, now: Time)
    requires Consistent(rows) && IdsAgree(rows) && rows.op.status in {Intent, Submitted, Unknown}
    ensures var ids := ExpectedIds(rows.op.identity, rows.lines);
      var done := AcceptInPostgresql(rows, ids, now);
      && done.Success? && done.value.op.status == Accepted && done.value.op.engineAcceptedAt == Some(now)
      && done.value.op.observedEngine == Some(Postgresql) && done.value.op.identity == rows.op.identity
      && done.value.op.attempts == rows.op.attempts + (if rows.op.status == Submitted then 0 else 1)
      && PostedAt(done.value, now) && RowsAcceptedAt(rows, done.value, ids, now) && done.value.outbox == rows.outbox
  {
    PostingBalanced(rows.lines);
    RebuiltIds(rows.transfers, ExpectedIds(rows.op.identity, rows.lines), now);
    AcceptInPostgresqlKeeps(rows, ExpectedIds(rows.op.identity, rows.lines), now);
    assert TransfersUpdateAllowed(rows.transfers, RebuiltRows(rows.transfers, ExpectedIds(rows.op.identity, rows.lines), now));
  }
}
