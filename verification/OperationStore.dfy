/**
 The tables behind one financial operation, updated in place.  Every method is one transaction of the
 source, written statement by statement; when a statement is refused the transaction rolls back.  Each is
 proved to commit exactly what its function in `OperationTransactions` says, or to change nothing.
 */
module OperationStore {
  import opened Wrappers
  import opened Pairing
  import opened JournalValidation
  import opened OperationRecords
  import Transactions = OperationTransactions
  import opened OperationInvariant

  /** A committed transaction left `after`; a refused one left the rows as they were. */
  ghost predicate EndedAs(before: Rows, specified: Transactions.Committed, after: Rows, error: Option<TransactionError>) {
    match specified
    case Success(rows) => after == rows && error == None
    case Failure(why) => after == before && error == Some(why)
  }

  class OperationTables {
    var op: Operation
    var journal: Journal
    var lines: seq<Line>
    var transfers: map<nat, TransferRow>
    var outbox: map<string, Event>

    function Contents(): Rows
      reads this
    {
      Rows(op, journal, lines, transfers, outbox)
    }

    /** An accepted intent: its draft journal, its operation row and one transfer row per pair. */
    constructor (identity: Identity, lines: seq<Line>, now: Time, outbox: map<string, Event>)
      requires WellFormed(lines) && NoSelfTransfer(lines)
      requires identity.operationType == JournalReverse <==> identity.sourceJournalId.Some?
      requires OutboxKeysUnique(outbox) && forall t :: Collisions(outbox, ReconciledEvent(identity, t)) == {}
      ensures Contents() == Transactions.IntentRows(identity, lines, now, outbox)
      ensures Consistent(Contents())
    {
      this.op := Operation(identity, Intent, 0, now, None, None, None, None, None, None, None);
      this.journal := Journal(Draft, None, None);
      this.lines := lines;
      this.outbox := outbox;
      this.transfers := map[];
      new;
      var pairs := PairLines(lines);
      transfers := InsertTransferRows(pairs);
      IntentIsConsistent(identity, lines, now, outbox);
    }

    /** One row per transfer of the intent, inserted in order. */
    static method InsertTransferRows(pairs: seq<Pair<string>>) returns (rows: map<nat, TransferRow>)
      ensures rows == Transactions.FreshTransferRows(pairs)
    {
      rows := map[];
      for p := 0 to |pairs|
        invariant forall q :: q in rows <==> 0 <= q < p
        invariant forall q | 0 <= q < p :: rows[q] == Transactions.FreshTransferRows(pairs)[q]
      {
        rows := rows[p := TransferRow(pairs[p].debit, pairs[p].credit, pairs[p].amount, None, RowUnresolved, None)];
      }
    }

    // ----- statements

    method SetOperation(next: Operation) returns (error: Option<TransactionError>)
      modifies this`op
      ensures EndedAs(old(Contents()), Transactions.UpdateOperation(old(Contents()), next), Contents(), error)
    {
      if !OperationUpdateAllowed(op, next) { return Some(OperationConstraint); }
      op := next;
      return None;
    }

    method SetTransfers(next: map<nat, TransferRow>) returns (error: Option<TransactionError>)
      modifies this`transfers
      ensures EndedAs(old(Contents()), Transactions.UpdateTransfers(old(Contents()), next), Contents(), error)
    {
      if !TransfersUpdateAllowed(transfers, next) { return Some(TransferConstraint); }
      transfers := next;
      return None;
    }

    method SetJournal(next: Journal) returns (error: Option<TransactionError>)
      modifies this`journal
      ensures EndedAs(old(Contents()), Transactions.UpdateJournal(old(Contents()), next), Contents(), error)
    {
      error := JournalUpdateError(journal, next, lines);
      if error == None { journal := next; }
    }

    method Append(event: Event) returns (error: Option<TransactionError>)
      modifies this`outbox
      ensures match AppendEvent(old(outbox), event)
        case Success(after) => outbox == after && error == None
        case Failure(why) => outbox == old(outbox) && error == Some(why)
    {
      var appended := AppendEvent(outbox, event);
      if appended.Failure? { return Some(appended.error); }
      outbox := appended.value;
      return None;
    }

    method Rollback(snapshot: Rows)
      modifies this
      ensures Contents() == snapshot
    {
      op, journal, lines, transfers, outbox :=
        snapshot.op, snapshot.journal, snapshot.lines, snapshot.transfers, snapshot.outbox;
    }

    // ----- transactions

    method BeginSubmission(reconcileRequested: bool, authority: Engine, routing: Transactions.Routing, now: Time)
      returns (error: Option<TransactionError>, decision: Transactions.Decision)
      modifies this`op
      ensures var (specified, expected) := Transactions.BeginSubmission(old(Contents()), reconcileRequested, authority, routing, now);
        EndedAs(old(Contents()), specified, Contents(), error) && decision == expected
      ensures old(Consistent(Contents())) ==> Consistent(Contents())
    {
      if Consistent(Contents()) { BeginSubmissionKeeps(Contents(), reconcileRequested, authority, routing, now); }
      error := None;
      if Terminal(op.status) { return None, Transactions.AlreadyTerminal; }
      if !op.identity.engineVerified || op.identity.engine != authority {
        return None, Transactions.RoutingChanged(None);
      }
      if reconcileRequested || op.status in {Submitted, Unknown, Accepted} {
        if op.status == Unknown || (reconcileRequested && op.status == Intent) {
          error := SetOperation(Transactions.MarkSubmitted(op, now));
        }
        return error, Transactions.Proceed(true);
      }
      if routing.financialEngine != Some(op.identity.engine) {
        return None, Transactions.RoutingChanged(routing.financialEngine);
      }
      if !routing.postingEnabled || !routing.periodOpen { return None, Transactions.Blocked; }
      error := SetOperation(Transactions.MarkSubmitted(op, now));
      return error, Transactions.Proceed(false);
    }

    method DeferBlocked(now: Time) returns (error: Option<TransactionError>)
      modifies this`op
      ensures EndedAs(old(Contents()), Transactions.DeferBlocked(old(Contents()), now), Contents(), error)
      ensures old(Consistent(Contents())) ==> Consistent(Contents())
    {
      if Consistent(Contents()) { DeferBlockedKeeps(Contents(), now); }
      error := SetOperation(op.(scheduledAt := now + 5000, lastError := Some(PostingBlocked)));
    }

    /** Fills in the identities row by row, unless a stored one already disagrees. */
    method PersistIdentities(expected: seq<TransferId>) returns (error: Option<TransactionError>, persisted: bool)
      modifies this`transfers
      ensures var (specified, agreed) := Transactions.PersistIdentities(old(Contents()), expected);
        EndedAs(old(Contents()), specified, Contents(), error) && persisted == agreed
      ensures old(Consistent(Contents())) ==> Consistent(Contents())
    {
      if Consistent(Contents()) { PersistIdentitiesKeeps(Contents(), expected); }
      if !Transactions.IdentitiesAgree(transfers, expected) { return None, false; }
      var next := transfers;
      var todo := transfers.Keys;
      while todo != {}
        invariant todo <= transfers.Keys == next.Keys
        invariant forall p | p in todo :: next[p] == transfers[p]
        invariant forall p | p in transfers && p !in todo :: next[p] == Transactions.FillMissingIds(transfers, expected)[p]
      {
        var p :| p in todo;
        todo := todo - {p};
        if next[p].engineTransferId.None? && p < |expected| {
          next := next[p := next[p].(engineTransferId := Some(expected[p]))];
        }
      }
      assert next == Transactions.FillMissingIds(transfers, expected);
      error := SetTransfers(next);
      return error, true;
    }

    method Fence(fenced: Operation) returns (error: Option<TransactionError>)
      modifies this
      ensures EndedAs(old(Contents()), Transactions.Fence(old(Contents()), fenced), Contents(), error)
    {
      var snapshot := Contents();
      error := SetOperation(fenced);
      if error != None { return; }
      error := SetTransfers(WithStatus(transfers, RowManualRecovery));
      if error != None { Rollback(snapshot); }
    }

    method WriteReceipt(outcome: Outcome, observedEngine: Option<Engine>, now: Time) returns (error: Option<TransactionError>)
      modifies this
      ensures EndedAs(old(Contents()), Transactions.WriteReceipt(old(Contents()), outcome, observedEngine, now), Contents(), error)
      ensures old(Consistent(Contents())) ==> Consistent(Contents())
    {
      if Consistent(Contents()) { WriteReceiptKeeps(Contents(), outcome, observedEngine, now); }
      var snapshot := Contents();
      if outcome.operationId != op.identity.operationId {
        error := Fence(Transactions.IdentityMismatched(op));
        return;
      }
      if op.status == Reconciled { return None; }
      if op.status == Accepted && !outcome.AcceptedOutcome? { return Some(ReconciliationConflict); }
      if outcome.AcceptedOutcome? {
        if !Transactions.MappingMatches(Contents(), outcome) {
          error := Fence(Transactions.MappingMismatched(op, outcome.acceptedAt, observedEngine));
          return;
        }
        error := SetOperation(Transactions.AcceptedOperation(op, outcome.acceptedAt, observedEngine));
        if error != None { return; }
        error := SetTransfers(WithIds(transfers, outcome.transferIds));
        if error != None { Rollback(snapshot); }
        return;
      }
      error := SetOperation(Transactions.NonAcceptedOperation(op, outcome, observedEngine, now));
      if error != None { return; }
      error := SetTransfers(
        WithStatus(transfers, Transactions.NonAcceptedRowStatus(Transactions.NonAcceptedStatus(outcome))));
      if error != None { Rollback(snapshot); }
    }

    method FinalizeAccepted(now: Time) returns (error: Option<TransactionError>)
      modifies this
      ensures EndedAs(old(Contents()), Transactions.FinalizeAccepted(old(Contents()), now), Contents(), error)
      ensures old(Consistent(Contents())) ==> Consistent(Contents())
    {
      if Consistent(Contents()) { FinalizeAcceptedKeeps(Contents(), now); }
      if op.status != Accepted { return None; }
      var snapshot := Contents();
      error := SetOperation(Transactions.ReconciledOperation(op, now));
      if error != None { return; }
      error := SetJournal(Transactions.PostedJournal(op.identity, now));
      if error != None { Rollback(snapshot); return; }
      error := SetTransfers(AcceptedRows(transfers, snapshot.op.engineAcceptedAt));
      if error != None { Rollback(snapshot); return; }
      error := Append(ReconciledEvent(op.identity, now));
      if error != None { Rollback(snapshot); }
    }

    method RebuildProjection(outcome: Outcome, now: Time) returns (error: Option<TransactionError>)
      requires outcome.AcceptedOutcome?
      modifies this
      ensures EndedAs(old(Contents()), Transactions.RebuildProjection(old(Contents()), outcome, now), Contents(), error)
    {
      if op.status != Accepted && op.status != Reconciled { return None; }
      var snapshot := Contents();
      var at := Transactions.OrElse(op.reconciledAt, now);
      error := SetOperation(Transactions.RebuiltOperation(op, outcome.acceptedAt, now));
      if error != None { return; }
      if Transactions.JournalStale(op.identity, journal) {
        error := SetJournal(Transactions.PostedJournal(op.identity, at));
        if error != None { Rollback(snapshot); return; }
      }
      error := SetTransfers(Transactions.RebuiltRows(transfers, outcome.transferIds, outcome.acceptedAt));
      if error != None { Rollback(snapshot); return; }
      error := Append(ReconciledEvent(op.identity, at));
      if error != None { Rollback(snapshot); }
    }

    /** The surrounding transaction of a rebuild: insert the lost rows, then rebuild. */
    method RebuildAccepted(outcome: Outcome, now: Time) returns (error: Option<TransactionError>)
      requires outcome.AcceptedOutcome? && |outcome.transferIds| == |PairsOf(lines)|
      modifies this
      ensures EndedAs(old(Contents()), Transactions.RebuildAccepted(old(Contents()), outcome, now), Contents(), error)
      ensures old(Consistent(Contents())) ==> Consistent(Contents())
    {
      if Consistent(Contents()) { RebuildAcceptedKeeps(Contents(), outcome, now); }
      var snapshot := Contents();
      InsertLostRows(outcome.transferIds);
      error := RebuildProjection(outcome, now);
      if error != None { Rollback(snapshot); }
    }

    /** A row for every pair that has lost its own. */
    method InsertLostRows(ids: seq<TransferId>)
      requires |ids| == |PairsOf(lines)|
      modifies this`transfers
      ensures Contents() == old(Contents()).(transfers := Transactions.InsertMissing(old(transfers), PairsOf(lines), ids))
    {
      var snapshot := Contents();
      var pairs := PairLines(lines);
      for p := 0 to |pairs|
        invariant forall q :: q in transfers <==> q in snapshot.transfers || 0 <= q < p
        invariant forall q | q in snapshot.transfers :: transfers[q] == snapshot.transfers[q]
        invariant forall q | 0 <= q < p && q !in snapshot.transfers ::
          transfers[q] == TransferRow(pairs[q].debit, pairs[q].credit, pairs[q].amount, Some(ids[q]), RowUnresolved, None)
        invariant Contents() == snapshot.(transfers := transfers)
      {
        if p !in transfers {
          transfers := transfers[p := TransferRow(pairs[p].debit, pairs[p].credit, pairs[p].amount, Some(ids[p]),
                                                  RowUnresolved, None)];
        }
      }
      assert transfers == Transactions.InsertMissing(snapshot.transfers, pairs, ids);
    }

    method Quarantine() returns (error: Option<TransactionError>)
      modifies this
      ensures EndedAs(old(Contents()), Transactions.Quarantine(old(Contents())), Contents(), error)
      ensures old(Consistent(Contents())) ==> Consistent(Contents())
    {
      if Consistent(Contents()) { QuarantineKeeps(Contents()); }
      if op.status == ManualRecovery { return None; }
      error := Fence(op.(status := ManualRecovery, recoveryReason := Some(MappingMismatch), rejectionReason := None,
                         lastError := Some(ProjectionRebuildMismatch), reconciledAt := None));
    }
  }
}
