/**
 The state invariant of a financial operation, and that every writer keeps it whatever a ledger answers.
 */
module OperationInvariant {
  import opened Wrappers
  import opened Pairing
  import opened JournalValidation
  import opened OperationRecords
  import opened OperationTransactions

  ghost predicate RowsMatchPairs(transfers: map<nat, TransferRow>, pairs: seq<Pair<string>>) {
    && (forall p | p in transfers :: p < |pairs|)
    && (forall p | 0 <= p < |pairs| :: p in transfers)
    && RowsAgree(transfers, pairs)
  }

  ghost predicate RowsAgree(transfers: map<nat, TransferRow>, pairs: seq<Pair<string>>) {
    forall p | p in transfers && p < |pairs| ::
      transfers[p].debit == pairs[p].debit && transfers[p].credit == pairs[p].credit && transfers[p].amount == pairs[p].amount
  }

  /** The row statuses that go with an operation status. */
  predicate RowStatusFits(op: Status, row: TransferStatus) {
    match op
    case Intent | Submitted | Unknown => row == RowUnresolved
    case Accepted => row == RowUnresolved || row == RowAccepted
    case Rejected => row == RowRejected
    case ManualRecovery => row == RowManualRecovery
    case Reconciled => row == RowAccepted
  }

  ghost predicate RowsFit(op: Status, transfers: map<nat, TransferRow>) {
    forall p | p in transfers ::
      && RowStatusFits(op, transfers[p].status)
      && (op in {Accepted, Reconciled} ==> transfers[p].engineTransferId.Some?)
  }

  ghost predicate JournalFits(identity: Identity, status: Status, journal: Journal) {
    && JournalCheck(journal)
    && (journal.status != Draft ==> journal.status == PostedStatus(identity) && journal.reversesEntryId == ReversesEntry(identity))
    && (status in {Intent, Submitted, Unknown, Rejected} ==> journal.status == Draft)
    && (status == Reconciled ==> journal.status != Draft)
  }

  ghost predicate EventFits(op: Operation, outbox: map<string, Event>) {
    && OutboxKeysUnique(outbox)
    && (op.status == Reconciled && op.reconciledAt.Some? ==>
          && op.identity.reconciledEventId in outbox
          && outbox[op.identity.reconciledEventId] == ReconciledEvent(op.identity, op.reconciledAt.value))
    && (op.status !in {Reconciled, ManualRecovery} ==> forall t :: Collisions(outbox, ReconciledEvent(op.identity, t)) == {})
  }

  /** The parts of a record no transaction changes. */
  ghost predicate SoundIntent(rows: Rows) {
    && WellFormed(rows.lines) && NoSelfTransfer(rows.lines)
    && (rows.op.identity.operationType == JournalReverse <==> rows.op.identity.sourceJournalId.Some?)
  }

  ghost predicate Consistent(rows: Rows) {
    && SoundIntent(rows)
    && StatusMatchesMetadata(rows.op)
    && RowsMatchPairs(rows.transfers, PairsOf(rows.lines))
    && RowsFit(rows.op.status, rows.transfers)
    && JournalFits(rows.op.identity, rows.op.status, rows.journal)
    && EventFits(rows.op, rows.outbox)
  }

  /** What a transaction may not touch. */
  ghost predicate SameIntent(before: Rows, after: Rows) {
    before.op.identity == after.op.identity && before.lines == after.lines
  }

  lemma PostingBalanced(lines: seq<Line>)
    requires WellFormed(lines)
    ensures BalancedForPosting(lines)
  {
    WellFormedHasTwoLines(lines);
  }

  lemma IntentIsConsistent(identity: Identity, lines: seq<Line>, now: Time, outbox: map<string, Event>)
    requires WellFormed(lines) && NoSelfTransfer(lines)
    requires identity.operationType == JournalReverse <==> identity.sourceJournalId.Some?
    requires OutboxKeysUnique(outbox) && forall t :: Collisions(outbox, ReconciledEvent(identity, t)) == {}
    ensures Consistent(IntentRows(identity, lines, now, outbox))
  {
  }

  lemma BeginSubmissionKeeps(rows: Rows, reconcileRequested: bool, authority: Engine, routing: Routing, now: Time)
    requires Consistent(rows)
    ensures var (after, decision) := BeginSubmission(rows, reconcileRequested, authority, routing, now);
      && after.Success? && Consistent(after.value) && SameIntent(rows, after.value)
      && (decision.Proceed? ==> after.value.op.status in {Submitted, Accepted})
      && (decision.Proceed? && !decision.reconcile ==> rows.op.status == Intent)
      && (!decision.Proceed? ==> after.value == rows)
  {
  }

  lemma DeferBlockedKeeps(rows: Rows, now: Time)
    requires Consistent(rows)
    ensures DeferBlocked(rows, now).Success? && Consistent(DeferBlocked(rows, now).value)
    ensures SameIntent(rows, DeferBlocked(rows, now).value)
  {
  }

  lemma PersistIdentitiesKeeps(rows: Rows, expected: seq<TransferId>)
    requires Consistent(rows)
    ensures var (after, persisted) := PersistIdentities(rows, expected);
      after.Success? && Consistent(after.value) && SameIntent(rows, after.value) && after.value.op == rows.op
  {
  }

  lemma FenceKeeps(rows: Rows, op: Operation)
    requires Consistent(rows) && op.status == ManualRecovery && op.identity == rows.op.identity
    ensures Fence(rows, op).Success? ==> Consistent(Fence(rows, op).value) && SameIntent(rows, Fence(rows, op).value)
    ensures Fence(rows, op).Success? <==> rows.op.status != Rejected && StatusMatchesMetadata(op)
  {
  }

  lemma RecordAcceptanceKeeps(rows: Rows, outcome: Outcome, observedEngine: Option<Engine>)
    requires Consistent(rows) && outcome.AcceptedOutcome? && MappingMatches(rows, outcome)
    ensures var after := RecordAcceptance(rows, outcome, observedEngine);
      after.Success? ==> Consistent(after.value) && SameIntent(rows, after.value) && rows.op.status in {Submitted, Accepted}
  {
    var after := RecordAcceptance(rows, outcome, observedEngine);
    if after.Success? {
      assert StatusTransition(rows.op.status, Accepted);
      assert RowsFit(Accepted, after.value.transfers);
      assert RowsMatchPairs(after.value.transfers, PairsOf(rows.lines));
    }
  }

  lemma RecordNonAcceptanceKeeps(rows: Rows, outcome: Outcome, observedEngine: Option<Engine>, now: Time)
    requires Consistent(rows) && !outcome.AcceptedOutcome? && rows.op.status !in {Accepted, Reconciled}
    ensures var after := RecordNonAcceptance(rows, outcome, observedEngine, now);
      after.Success? ==> Consistent(after.value) && SameIntent(rows, after.value)
  {
    var after := RecordNonAcceptance(rows, outcome, observedEngine, now);
    if after.Success? {
      assert StatusTransition(rows.op.status, NonAcceptedStatus(outcome));
      assert RowsMatchPairs(after.value.transfers, PairsOf(rows.lines));
    }
  }

  lemma WriteReceiptKeeps(rows: Rows, outcome: Outcome, observedEngine: Option<Engine>, now: Time)
    requires Consistent(rows)
    ensures var after := WriteReceipt(rows, outcome, observedEngine, now);
      after.Success? ==> Consistent(after.value) && SameIntent(rows, after.value)
  {
    if outcome.operationId != rows.op.identity.operationId {
      FenceKeeps(rows, IdentityMismatched(rows.op));
    } else if rows.op.status == Reconciled || (rows.op.status == Accepted && !outcome.AcceptedOutcome?) {
    } else if !outcome.AcceptedOutcome? {
      RecordNonAcceptanceKeeps(rows, outcome, observedEngine, now);
    } else if !MappingMatches(rows, outcome) {
      FenceKeeps(rows, MappingMismatched(rows.op, outcome.acceptedAt, observedEngine));
    } else {
      RecordAcceptanceKeeps(rows, outcome, observedEngine);
    }
  }

  lemma FinalizeAcceptedKeeps(rows: Rows, now: Time)
    requires Consistent(rows)
    ensures var after := FinalizeAccepted(rows, now);
      after.Success? ==> Consistent(after.value) && SameIntent(rows, after.value)
  {
    PostingBalanced(rows.lines);
    AppendEventKeepsKeys(rows.outbox, ReconciledEvent(rows.op.identity, now));
  }

  /** Finalisation commits exactly when the journal is still a draft. */
  lemma FinalizeCommitsIffDraft(rows: Rows, now: Time)
    requires Consistent(rows) && rows.op.status == Accepted
    ensures FinalizeAccepted(rows, now).Success? <==> rows.journal.status == Draft
    ensures FinalizeAccepted(rows, now).Success? ==> FinalizeAccepted(rows, now).value.op.status == Reconciled
    ensures FinalizeAccepted(rows, now).Failure? ==> FinalizeAccepted(rows, now).error == JournalImmutable
  {
    PostingBalanced(rows.lines);
  }

  lemma QuarantineKeeps(rows: Rows)
    requires Consistent(rows)
    ensures Quarantine(rows).Success? ==> Consistent(Quarantine(rows).value) && SameIntent(rows, Quarantine(rows).value)
    ensures Quarantine(rows).Success? <==> rows.op.status != Rejected
  {
  }

  lemma RepairJournalKeeps(rows: Rows, postedAt: Time)
    requires WellFormed(rows.lines) && JournalCheck(rows.journal)
    requires rows.op.identity.operationType == JournalReverse <==> rows.op.identity.sourceJournalId.Some?
    ensures var after := RepairJournal(rows, postedAt);
      after.Success? ==> JournalFits(rows.op.identity, Reconciled, after.value.journal) && after.value == rows.(journal := after.value.journal)
  {
    PostingBalanced(rows.lines);
  }

  lemma RebuiltRowsFit(transfers: map<nat, TransferRow>, pairs: seq<Pair<string>>, ids: seq<TransferId>, acceptedAt: Time)
    requires RowsMatchPairs(transfers, pairs) && |ids| == |pairs|
    ensures RowsMatchPairs(RebuiltRows(transfers, ids, acceptedAt), pairs)
    ensures forall status | status in {Accepted, Reconciled} :: RowsFit(status, RebuiltRows(transfers, ids, acceptedAt))
  {
  }

  lemma RebuildProjectionKeeps(rows: Rows, outcome: Outcome, now: Time)
    requires Consistent(rows) && outcome.AcceptedOutcome? && |outcome.transferIds| == |PairsOf(rows.lines)|
    ensures var after := RebuildProjection(rows, outcome, now);
      after.Success? ==> Consistent(after.value) && SameIntent(rows, after.value)
  {
    var at := OrElse(rows.op.reconciledAt, now);
    RepairJournalKeeps(rows.(op := RebuiltOperation(rows.op, outcome.acceptedAt, now)), at);
    AppendEventKeepsKeys(rows.outbox, ReconciledEvent(rows.op.identity, at));
    var after := RebuildProjection(rows, outcome, now);
    if after.Success? && rows.op.status in {Accepted, Reconciled} {
      assert after.value.transfers == RebuiltRows(rows.transfers, outcome.transferIds, outcome.acceptedAt);
      RebuiltRowsFit(rows.transfers, PairsOf(rows.lines), outcome.transferIds, outcome.acceptedAt);
      assert EventFits(after.value.op, after.value.outbox);
    }
  }

  lemma RebuildAcceptedKeeps(rows: Rows, outcome: Outcome, now: Time)
    requires Consistent(rows) && outcome.AcceptedOutcome? && |outcome.transferIds| == |PairsOf(rows.lines)|
    ensures var after := RebuildAccepted(rows, outcome, now);
      after.Success? ==> Consistent(after.value) && SameIntent(rows, after.value)
  {
    assert InsertMissing(rows.transfers, PairsOf(rows.lines), outcome.transferIds) == rows.transfers;
    assert rows.(transfers := rows.transfers) == rows;
    RebuildProjectionKeeps(rows, outcome, now);
  }

  lemma AcceptInPostgresqlKeeps(rows: Rows, ids: seq<TransferId>, now: Time)
    requires Consistent(rows) && |ids| == |PairsOf(rows.lines)|
    ensures var after := AcceptInPostgresql(rows, ids, now);
      after.Success? ==>
        && Consistent(after.value) && SameIntent(rows, after.value)
        && after.value.op.status == Accepted && after.value.journal == PostedJournal(rows.op.identity, now)
  {
    PostingBalanced(rows.lines);
    var after := AcceptInPostgresql(rows, ids, now);
    if after.Success? {
      assert rows.op.status in {Intent, Unknown, Submitted, Accepted};
      assert after.value.transfers == RebuiltRows(rows.transfers, ids, now);
      RebuiltRowsFit(rows.transfers, PairsOf(rows.lines), ids, now);
    }
  }
}
