/**
 Rebuilding a projection from the ledger agrees with having finalised it, loses nothing when transfer rows are
 missing, and settles after one run.
 */
module ProjectionRebuild {
  import opened Wrappers
  import opened Pairing
  import opened OperationRecords
  import opened OperationTransactions
  import opened OperationInvariant
  import opened TransferIdentities
  import opened ExternalLedger
  import opened Protocol
  import opened ProtocolSafety

  /** The record after transfer rows at some positions have been lost. */
  function Without(rows: Rows, lost: set<nat>): Rows {
    rows.(transfers := rows.transfers - lost)
  }

  /** What an honest ledger answers for an operation it has applied. */
  ghost function Confirmation(s: System): Outcome {
    Accepting(s.rows.op.identity, s.rows.lines, MaxTimestamp(Effect(s)))
  }

  /** The complete projection of an accepted operation: every row accepted under its expected identity. */
  function ProjectedRows(pairs: seq<Pair<string>>, ids: seq<TransferId>, acceptedAt: Time): map<nat, TransferRow>
    requires |ids| == |pairs|
  {
    map p: nat | 0 <= p < |pairs| ::
      TransferRow(pairs[p].debit, pairs[p].credit, pairs[p].amount, Some(ids[p]), RowAccepted, Some(acceptedAt))
  }

  /** Whatever rows were lost, the rebuilt ones are the complete projection. */
  lemma RebuiltIsProjected(transfers: map<nat, TransferRow>, pairs: seq<Pair<string>>, ids: seq<TransferId>, acceptedAt: Time)
    requires |ids| == |pairs| && RowsAgree(transfers, pairs) && forall p | p in transfers :: p < |pairs|
    ensures RebuiltRows(InsertMissing(transfers, pairs, ids), ids, acceptedAt) == ProjectedRows(pairs, ids, acceptedAt)
  {
    var inserted := InsertMissing(transfers, pairs, ids);
    assert forall p :: p in inserted <==> 0 <= p < |pairs|;
  }

  /** The rows inserted and kept can all become accepted. */
  lemma ProjectionAllowed(transfers: map<nat, TransferRow>, pairs: seq<Pair<string>>, ids: seq<TransferId>, acceptedAt: Time)
    requires |ids| == |pairs| && RowsAgree(transfers, pairs) && (forall p | p in transfers :: p < |pairs|)
    requires IdsAgreeWith(transfers, ids)
    requires forall p | p in transfers :: transfers[p].status in {RowUnresolved, RowAccepted}
    ensures TransfersUpdateAllowed(InsertMissing(transfers, pairs, ids), ProjectedRows(pairs, ids, acceptedAt))
  {
    var inserted := InsertMissing(transfers, pairs, ids);
    assert forall p :: p in inserted <==> 0 <= p < |pairs|;
  }

  /** The reconciled record both paths lead to. */
  ghost function Reconciliation(s: System, now: Time): Rows {
    var op := s.rows.op;
    Rows(ReconciledOperation(op, now), PostedJournal(op.identity, now), s.rows.lines,
         ProjectedRows(PairsOf(s.rows.lines), Expected(s), MaxTimestamp(Effect(s))),
         s.rows.outbox[op.identity.reconciledEventId := ReconciledEvent(op.identity, now)])
  }

  lemma FinalizeReconciles(s: System, now: Time)
    requires StateFits(s) && s.rows.op.status == Accepted
    ensures FinalizeAccepted(s.rows, now) == Success(Reconciliation(s, now))
  {
    FinalizeCommitsIffDraft(s.rows, now);
    FinalizedRowsAreProjected(s);
  }

  lemma FinalizedRowsAreProjected(s: System)
    requires StateFits(s) && s.rows.op.status == Accepted
    ensures AcceptedRows(s.rows.transfers, s.rows.op.engineAcceptedAt)
         == ProjectedRows(PairsOf(s.rows.lines), Expected(s), MaxTimestamp(Effect(s)))
  {
  }

  lemma LostRowsFit(s: System, lost: set<nat>)
    requires StateFits(s) && s.rows.op.status in {Accepted, Reconciled}
    ensures var transfers := s.rows.transfers - lost;
      && RowsAgree(transfers, PairsOf(s.rows.lines)) && (forall p | p in transfers :: p < |PairsOf(s.rows.lines)|)
      && IdsAgreeWith(transfers, Expected(s)) && (forall p | p in transfers :: transfers[p].status in {RowUnresolved, RowAccepted})
  {
  }

  /**
   Rebuilding an accepted operation from an honest ledger reaches exactly the record that finalising it at the
   same instant reaches, even when transfer rows have been lost.
   */
  lemma RebuildAgreesWithFinalization(s: System, lost: set<nat>, now: Time)
    requires StateFits(s) && s.rows.op.status == Accepted && s.rows.op.identity.engine == AUTHORITY
    ensures RebuildAgrees(Without(s.rows, lost), Confirmation(s))
    ensures RebuildAccepted(Without(s.rows, lost), Confirmation(s), now) == FinalizeAccepted(s.rows, now)
    ensures FinalizeAccepted(s.rows, now).Success?
  {
    FinalizeReconciles(s, now);
    LostRowsFit(s, lost);
    RebuildReconciles(s, lost, now);
  }

  /** Rebuilding an accepted record whose journal is a draft commits every update. */
  lemma DraftRebuildCommits(rows: Rows, outcome: Outcome, projected: map<nat, TransferRow>, now: Time)
    requires outcome.AcceptedOutcome? && rows.op.status == Accepted && rows.op.reconciledAt.None?
    requires rows.journal.status == Draft && BalancedForPosting(rows.lines)
    requires rows.op.identity.operationType == JournalReverse <==> rows.op.identity.sourceJournalId.Some?
    requires RebuiltRows(rows.transfers, outcome.transferIds, outcome.acceptedAt) == projected
    requires TransfersUpdateAllowed(rows.transfers, projected)
    requires Collisions(rows.outbox, ReconciledEvent(rows.op.identity, now)) == {}
    ensures RebuildProjection(rows, outcome, now)
         == Success(Rows(RebuiltOperation(rows.op, outcome.acceptedAt, now), PostedJournal(rows.op.identity, now), rows.lines,
                         projected, rows.outbox[rows.op.identity.reconciledEventId := ReconciledEvent(rows.op.identity, now)]))
  {
  }

  lemma RebuildReconciles(s: System, lost: set<nat>, now: Time)
    requires StateFits(s) && s.rows.op.status == Accepted && s.rows.op.identity.engine == AUTHORITY
    ensures RebuildAccepted(Without(s.rows, lost), Confirmation(s), now) == Success(Reconciliation(s, now))
  {
    assert BalancedForPosting(s.rows.lines) by { PostingBalanced(s.rows.lines); }
    LostRowsFit(s, lost);
    var pairs, ids, acceptedAt := PairsOf(s.rows.lines), Expected(s), MaxTimestamp(Effect(s));
    ProjectionAllowed(s.rows.transfers - lost, pairs, ids, acceptedAt);
    RebuiltIsProjected(s.rows.transfers - lost, pairs, ids, acceptedAt);
    var inserted := s.rows.(transfers := InsertMissing(s.rows.transfers - lost, pairs, ids));
    DraftRebuildCommits(inserted, Confirmation(s), ProjectedRows(pairs, ids, acceptedAt), now);
    assert RebuiltOperation(s.rows.op, acceptedAt, now) == ReconciledOperation(s.rows.op, now);
  }

  /** A reconciled record whose projection is complete. */
  ghost predicate Complete(s: System) {
    && StateFits(s) && s.rows.op.status == Reconciled && s.rows.op.identity.engine == AUTHORITY
    && s.rows.transfers == ProjectedRows(PairsOf(s.rows.lines), Expected(s), MaxTimestamp(Effect(s)))
    && s.rows.op.lastError == None
  }

  /** Finalisation completes the projection. */
  lemma FinalizationCompletes(s: System, now: Time)
    requires StateFits(s) && s.rows.op.status == Accepted && s.rows.op.identity.engine == AUTHORITY
    ensures FinalizeAccepted(s.rows, now).Success? && Complete(s.(rows := FinalizeAccepted(s.rows, now).value))
  {
    FinalizeReconciles(s, now);
    FinalizeAcceptedKeeps(s.rows, now);
    FinalizeKeepsIds(s.rows, now);
    RowsUpdateFits(s, FinalizeAccepted(s.rows, now).value);
  }

  /**
   A further rebuild changes nothing and quarantines nothing; if rows have been lost since, it puts back exactly
   what was there.
   */
  lemma RebuildSettles(s: System, lost: set<nat>, later: Time)
    requires Complete(s)
    ensures RebuildAgrees(Without(s.rows, lost), Confirmation(s))
    ensures RebuildAccepted(Without(s.rows, lost), Confirmation(s), later) == Success(s.rows)
  {
    LostRowsFit(s, lost);
    var pairs, ids, acceptedAt := PairsOf(s.rows.lines), Expected(s), MaxTimestamp(Effect(s));
    ProjectionAllowed(s.rows.transfers - lost, pairs, ids, acceptedAt);
    RebuiltIsProjected(s.rows.transfers - lost, pairs, ids, acceptedAt);
    var at := s.rows.op.reconciledAt.value;
    assert RebuiltOperation(s.rows.op, acceptedAt, later) == s.rows.op;
    assert !JournalStale(s.rows.op.identity, s.rows.journal);
    var event := ReconciledEvent(s.rows.op.identity, at);
    OwnEventIsTheOnlyHit(s.rows.outbox, event);
  }

  lemma OwnEventIsTheOnlyHit(outbox: map<string, Event>, event: Event)
    requires OutboxKeysUnique(outbox) && event.eventId in outbox && outbox[event.eventId] == event
    ensures AppendEvent(outbox, event) == Success(outbox)
  {
    assert Collisions(outbox, event) == {event.eventId};
  }
}
