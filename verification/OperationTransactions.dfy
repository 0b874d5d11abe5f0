/**
 The writers of a financial operation, each one database transaction.  A transaction either commits all of
 its updates or, when a trigger or constraint refuses one of them, none.
 */
module OperationTransactions {
  import opened Wrappers
  import opened Pairing
  import opened OperationRecords

  type Committed = Result<Rows, TransactionError>

  /** The three updates every writer makes, guarded as the database guards them. */
  function UpdateOperation(rows: Rows, op: Operation): Committed {
    if OperationUpdateAllowed(rows.op, op) then Success(rows.(op := op)) else Failure(OperationConstraint)
  }

  function UpdateTransfers(rows: Rows, transfers: map<nat, TransferRow>): Committed {
    if TransfersUpdateAllowed(rows.transfers, transfers) then Success(rows.(transfers := transfers))
    else Failure(TransferConstraint)
  }

  function UpdateJournal(rows: Rows, journal: Journal): Committed {
    match JournalUpdateError(rows.journal, journal, rows.lines)
    case Some(error) => Failure(error)
    case None => Success(rows.(journal := journal))
  }

  // ----- creating the intent

  /** One unresolved transfer row per pair, without an engine identity. */
  function FreshTransferRows(pairs: seq<Pair<string>>): map<nat, TransferRow> {
    map p: nat | 0 <= p < |pairs| :: TransferRow(pairs[p].debit, pairs[p].credit, pairs[p].amount, None, RowUnresolved, None)
  }

  /** The rows an accepted intent starts with. */
  function IntentRows(identity: Identity, lines: seq<Line>, now: Time, outbox: map<string, Event>): Rows {
    Rows(Operation(identity, Intent, 0, now, None, None, None, None, None, None, None),
         Journal(Draft, None, None), lines, FreshTransferRows(PairsOf(lines)), outbox)
  }

  // ----- the first transaction of a submission

  /** What the submission transaction reads besides the operation: configuration and accounting period. */
  datatype Routing = Routing(postingEnabled: bool, financialEngine: Option<Engine>, periodOpen: bool)

  datatype Decision =
    | AlreadyTerminal
    | RoutingChanged(observed: Option<Engine>)
    | Blocked
    | Proceed(reconcile: bool)

  function MarkSubmitted(op: Operation, now: Time): Operation {
    op.(status := Submitted, attempts := op.attempts + 1,
        submittedAt := if op.submittedAt.Some? then op.submittedAt else Some(now), lastError := None)
  }

  function BeginSubmission(rows: Rows, reconcileRequested: bool, authority: Engine, routing: Routing, now: Time)
    : (Committed, Decision)
  {
    var op := rows.op;
    if Terminal(op.status) then (Success(rows), AlreadyTerminal)
    else if !op.identity.engineVerified || op.identity.engine != authority then (Success(rows), RoutingChanged(None))
    else if reconcileRequested || op.status in {Submitted, Unknown, Accepted} then
      if op.status == Unknown || (reconcileRequested && op.status == Intent)
      then (UpdateOperation(rows, MarkSubmitted(op, now)), Proceed(true))
      else (Success(rows), Proceed(true))
    else if routing.financialEngine != Some(op.identity.engine) then
      (Success(rows), RoutingChanged(routing.financialEngine))
    else if !routing.postingEnabled || !routing.periodOpen then (Success(rows), Blocked)
    else (UpdateOperation(rows, MarkSubmitted(op, now)), Proceed(false))
  }

  /** A blocked submission is put off; this runs as a statement of its own. */
  function DeferBlocked(rows: Rows, now: Time): Committed {
    UpdateOperation(rows, rows.op.(scheduledAt := now + 5000, lastError := Some(PostingBlocked)))
  }

  // ----- persisting the deterministic transfer identities

  /** The index a row takes when the rows are sorted by position. */
  function Rank(transfers: map<nat, TransferRow>, position: nat): nat {
    |set p | p in transfers && p < position|
  }

  predicate IdentitiesAgree(transfers: map<nat, TransferRow>, expected: seq<TransferId>) {
    && |transfers| == |expected|
    && forall p | p in transfers :: transfers[p].engineTransferId.Some? ==>
         var rank := Rank(transfers, p);
         rank < |expected| && transfers[p].engineTransferId.value == expected[rank]
  }

  function FillMissingIds(transfers: map<nat, TransferRow>, expected: seq<TransferId>): (filled: map<nat, TransferRow>)
    ensures filled.Keys == transfers.Keys
  {
    map p | p in transfers ::
      if transfers[p].engineTransferId.None? && p < |expected|
      then transfers[p].(engineTransferId := Some(expected[p])) else transfers[p]
  }

  function PersistIdentities(rows: Rows, expected: seq<TransferId>): (Committed, bool) {
    if IdentitiesAgree(rows.transfers, expected)
    then (UpdateTransfers(rows, FillMissingIds(rows.transfers, expected)), true)
    else (Success(rows), false)
  }

  // ----- the receipt

  ghost predicate Unique<T>(s: seq<T>) {
    forall i, j | 0 <= i < j < |s| :: s[i] != s[j]
  }

  /** The check made on an accepted outcome before it is believed. */
  predicate MappingMatches(rows: Rows, outcome: Outcome)
    requires outcome.AcceptedOutcome?
  {
    && outcome.mappingVersion == rows.op.identity.mappingVersion
    && outcome.transferCount == |rows.transfers|
    && |outcome.transferIds| == |rows.transfers|
    && |set id | id in outcome.transferIds| == |outcome.transferIds|
    && forall p | p in rows.transfers ::
         && p < |outcome.transferIds|
         && (rows.transfers[p].engineTransferId.None?
             || rows.transfers[p].engineTransferId == Some(outcome.transferIds[p]))
  }

  /** Fences the operation and all its transfer rows. */
  function Fence(rows: Rows, op: Operation): Committed {
    var updated := UpdateOperation(rows, op);
    if updated.Failure? then updated else UpdateTransfers(updated.value, WithStatus(updated.value.transfers, RowManualRecovery))
  }

  function AcceptedOperation(op: Operation, acceptedAt: Time, observedEngine: Option<Engine>): Operation {
    op.(status := Accepted, engineAcceptedAt := Some(acceptedAt), reconciledAt := None, rejectionReason := None,
        recoveryReason := None, observedEngine := observedEngine, lastError := None)
  }

  function NonAcceptedStatus(outcome: Outcome): Status
    requires !outcome.AcceptedOutcome?
  {
    match outcome
    case RejectedOutcome(_, _) => Rejected
    case ManualOutcome(_, _) => ManualRecovery
    case UnknownOutcome(_, _) => Unknown
  }

  function NonAcceptedRowStatus(status: Status): TransferStatus {
    match status
    case Rejected => RowRejected
    case ManualRecovery => RowManualRecovery
    case _ => RowUnresolved
  }

  function IdentityMismatched(op: Operation): Operation {
    op.(status := ManualRecovery, rejectionReason := None, recoveryReason := Some(MappingMismatch),
        lastError := Some(OperationIdentityMismatch), reconciledAt := None)
  }

  function MappingMismatched(op: Operation, acceptedAt: Time, observedEngine: Option<Engine>): Operation {
    op.(status := ManualRecovery, engineAcceptedAt := Some(acceptedAt), rejectionReason := None,
        recoveryReason := Some(MappingMismatch), observedEngine := observedEngine,
        lastError := Some(TransferProjectionMismatch), reconciledAt := None)
  }

  function NonAcceptedOperation(op: Operation, outcome: Outcome, observedEngine: Option<Engine>, now: Time): Operation
    requires !outcome.AcceptedOutcome?
  {
    op.(status := NonAcceptedStatus(outcome),
        engineAcceptedAt := None,
        rejectionReason := if outcome.RejectedOutcome? then Some(outcome.reason) else None,
        recoveryReason := if outcome.ManualOutcome? then Some(outcome.recovery) else None,
        observedEngine := observedEngine,
        lastError := if outcome.UnknownOutcome? then Some(LedgerUnknown(outcome.why)) else None,
        scheduledAt := if outcome.UnknownOutcome? then now + 5000 else now)
  }

  function RecordAcceptance(rows: Rows, outcome: Outcome, observedEngine: Option<Engine>): Committed
    requires outcome.AcceptedOutcome?
  {
    var updated := UpdateOperation(rows, AcceptedOperation(rows.op, outcome.acceptedAt, observedEngine));
    if updated.Failure? then updated
    else UpdateTransfers(updated.value, WithIds(rows.transfers, outcome.transferIds))
  }

  function RecordNonAcceptance(rows: Rows, outcome: Outcome, observedEngine: Option<Engine>, now: Time): Committed
    requires !outcome.AcceptedOutcome?
  {
    var updated := UpdateOperation(rows, NonAcceptedOperation(rows.op, outcome, observedEngine, now));
    if updated.Failure? then updated
    else UpdateTransfers(updated.value, WithStatus(rows.transfers, NonAcceptedRowStatus(NonAcceptedStatus(outcome))))
  }

  function WriteReceipt(rows: Rows, outcome: Outcome, observedEngine: Option<Engine>, now: Time): Committed {
    if outcome.operationId != rows.op.identity.operationId then Fence(rows, IdentityMismatched(rows.op))
    else if rows.op.status == Reconciled then Success(rows)
    else if rows.op.status == Accepted && !outcome.AcceptedOutcome? then Failure(ReconciliationConflict)
    else if !outcome.AcceptedOutcome? then RecordNonAcceptance(rows, outcome, observedEngine, now)
    else if !MappingMatches(rows, outcome) then
      Fence(rows, MappingMismatched(rows.op, outcome.acceptedAt, observedEngine))
    else RecordAcceptance(rows, outcome, observedEngine)
  }

  // ----- finalisation

  function ReconciledOperation(op: Operation, reconciledAt: Time): Operation {
    op.(status := Reconciled, reconciledAt := Some(reconciledAt), rejectionReason := None, recoveryReason := None,
        lastError := None)
  }

  function PostedJournal(identity: Identity, postedAt: Time): Journal {
    Journal(PostedStatus(identity), ReversesEntry(identity), Some(postedAt))
  }

  function FinalizeAccepted(rows: Rows, now: Time): Committed {
    var op := rows.op;
    if op.status != Accepted then Success(rows)
    else
      var first := UpdateOperation(rows, ReconciledOperation(op, now));
      if first.Failure? then first
      else
        var second := UpdateJournal(first.value, PostedJournal(op.identity, now));
        if second.Failure? then second
        else
          var third := UpdateTransfers(second.value, AcceptedRows(rows.transfers, op.engineAcceptedAt));
          if third.Failure? then third
          else
            var outbox := AppendEvent(rows.outbox, ReconciledEvent(op.identity, now));
            if outbox.Failure? then Failure(outbox.error) else Success(third.value.(outbox := outbox.value))
  }

  // ----- rebuild of the projection and quarantine

  /** The rows a rebuild inserts for positions that have lost theirs. */
  function InsertMissing(transfers: map<nat, TransferRow>, pairs: seq<Pair<string>>, ids: seq<TransferId>)
    : (filled: map<nat, TransferRow>)
    requires |ids| == |pairs|
  {
    transfers + map p: nat | 0 <= p < |pairs| && p !in transfers ::
      TransferRow(pairs[p].debit, pairs[p].credit, pairs[p].amount, Some(ids[p]), RowUnresolved, None)
  }

  /** Identity, status and observation of every row the ledger's list reaches. */
  function RebuiltRows(transfers: map<nat, TransferRow>, ids: seq<TransferId>, acceptedAt: Time)
    : (updated: map<nat, TransferRow>)
    ensures updated.Keys == transfers.Keys
  {
    map p | p in transfers ::
      if p < |ids| then transfers[p].(engineTransferId := Some(ids[p]), status := RowAccepted, observedAt := Some(acceptedAt))
      else transfers[p]
  }

  function OrElse(first: Option<Time>, second: Time): Time {
    if first.Some? then first.value else second
  }

  function RebuiltOperation(op: Operation, acceptedAt: Time, now: Time): Operation {
    ReconciledOperation(op, OrElse(op.reconciledAt, now)).(
      engineAcceptedAt := Some(acceptedAt), observedEngine := Some(op.identity.engine))
  }

  predicate JournalStale(identity: Identity, journal: Journal) {
    || journal.status != PostedStatus(identity)
    || journal.reversesEntryId != ReversesEntry(identity)
    || journal.postedAt.None?
  }

  function RepairJournal(rows: Rows, postedAt: Time): Committed {
    if JournalStale(rows.op.identity, rows.journal)
    then UpdateJournal(rows, PostedJournal(rows.op.identity, postedAt)) else Success(rows)
  }

  /** The projection of an operation the ledger has confirmed, written again from the ledger's answer. */
  function RebuildProjection(rows: Rows, outcome: Outcome, now: Time): Committed
    requires outcome.AcceptedOutcome?
  {
    var op := rows.op;
    if op.status != Accepted && op.status != Reconciled then Success(rows)
    else
      var at := OrElse(op.reconciledAt, now);
      var first := UpdateOperation(rows, RebuiltOperation(op, outcome.acceptedAt, now));
      if first.Failure? then first
      else
        var second := RepairJournal(first.value, at);
        if second.Failure? then second
        else
          var third := UpdateTransfers(second.value, RebuiltRows(rows.transfers, outcome.transferIds, outcome.acceptedAt));
          if third.Failure? then third
          else
            var outbox := AppendEvent(rows.outbox, ReconciledEvent(op.identity, at));
            if outbox.Failure? then Failure(outbox.error) else Success(third.value.(outbox := outbox.value))
  }

  /** Inserting the missing rows and rebuilding run in one transaction. */
  function RebuildAccepted(rows: Rows, outcome: Outcome, now: Time): Committed
    requires outcome.AcceptedOutcome? && |outcome.transferIds| == |PairsOf(rows.lines)|
  {
    RebuildProjection(
      rows.(transfers := InsertMissing(rows.transfers, PairsOf(rows.lines), outcome.transferIds)), outcome, now)
  }

  function Quarantine(rows: Rows): Committed {
    if rows.op.status == ManualRecovery then Success(rows)
    else Fence(rows, rows.op.(status := ManualRecovery, recoveryReason := Some(MappingMismatch), rejectionReason := None,
                              lastError := Some(ProjectionRebuildMismatch), reconciledAt := None))
  }

  // ----- posting in the PostgreSQL ledger

  /** The operation after the PostgreSQL ledger's own submission and acceptance updates. */
  function AcceptedByPostgresql(op: Operation, now: Time): Operation {
    (if op.status in {Intent, Unknown} then MarkSubmitted(op, now) else op).(
      status := Accepted, engineAcceptedAt := Some(now), rejectionReason := None, recoveryReason := None,
      observedEngine := Some(Postgresql), lastError := None)
  }

  /** What the PostgreSQL ledger writes when it accepts: operation, journal and transfer rows in one transaction. */
  function AcceptInPostgresql(rows: Rows, ids: seq<TransferId>, now: Time): Committed {
    var first := if rows.op.status in {Intent, Unknown} then UpdateOperation(rows, MarkSubmitted(rows.op, now)) else Success(rows);
    if first.Failure? then first
    else
      var second := UpdateOperation(first.value, AcceptedByPostgresql(rows.op, now));
      if second.Failure? then second
      else
        var third := UpdateJournal(second.value, PostedJournal(rows.op.identity, now));
        if third.Failure? then third
        else UpdateTransfers(third.value, RebuiltRows(rows.transfers, ids, now))
  }
}
