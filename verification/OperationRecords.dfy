/**
 The rows of one durable financial operation and the database rules that guard them: check constraints,
 unique keys and update triggers.  Rows of different operations are disjoint (unique journal, event and
 transfer keys), so every transaction of the protocol is a function on the rows of one operation.
 */
module OperationRecords {
  import opened Wrappers
  import opened Pairing
  import opened PairingLaws
  import opened JournalValidation

  type Time = nat

  datatype Engine = Postgresql | TigerBeetle

  datatype Status = Intent | Submitted | Accepted | Rejected | Unknown | ManualRecovery | Reconciled

  datatype OperationType = JournalPost | JournalReverse | RevenuePost

  datatype RecoveryReason = MappingMismatch | ConflictingReplay | ReconciliationRequired | EngineRoutingChanged

  datatype UnknownReason = Unavailable | ResponseLost | NotFound

  /** Deterministic transfer identities, one per position; `OtherId` is anything else a ledger might report. */
  datatype TransferId =
    | TransferId(mappingVersion: nat, tenantId: string, legalEntityId: string, operationId: string, index: nat)
    | OtherId(text: string)

  /** What a ledger answers to a post or a lookup. */
  datatype Outcome =
    | AcceptedOutcome(operationId: string, mappingVersion: nat, acceptedAt: Time, transferCount: nat,
                      transferIds: seq<TransferId>)
    | RejectedOutcome(operationId: string, reason: RejectionReason)
    | UnknownOutcome(operationId: string, why: UnknownReason)
    | ManualOutcome(operationId: string, recovery: RecoveryReason)

  datatype ErrorNote =
    | PostingBlocked
    | OperationIdentityMismatch
    | TransferProjectionMismatch
    | ProjectionRebuildMismatch
    | LedgerUnknown(why: UnknownReason)

  /** The intent fields, which no update may change. */
  datatype Identity = Identity(
    rowId: string, tenantId: string, legalEntityId: string, operationId: string, operationType: OperationType,
    engine: Engine, engineVerified: bool, journalId: string, sourceJournalId: Option<string>, currency: string,
    mappingVersion: nat, reconciledEventId: string, actorPrincipalId: string)

  datatype Operation = Operation(
    identity: Identity, status: Status, attempts: nat, scheduledAt: Time, submittedAt: Option<Time>,
    engineAcceptedAt: Option<Time>, rejectionReason: Option<RejectionReason>, recoveryReason: Option<RecoveryReason>,
    observedEngine: Option<Engine>, lastError: Option<ErrorNote>, reconciledAt: Option<Time>)

  datatype JournalStatus = Draft | Posted | Reversed

  datatype Journal = Journal(status: JournalStatus, reversesEntryId: Option<string>, postedAt: Option<Time>)

  datatype TransferStatus = RowUnresolved | RowAccepted | RowRejected | RowManualRecovery

  datatype TransferRow = TransferRow(
    debit: string, credit: string, amount: nat, engineTransferId: Option<TransferId>, status: TransferStatus,
    observedAt: Option<Time>)

  datatype Event = Event(
    eventId: string, eventType: string, aggregateId: string, idempotencyKey: string, actorPrincipalId: string,
    occurredAt: Time, operationId: string, journalId: string, mappingVersion: nat)

  /** The rows one operation's transactions touch, and the outbox they append to. */
  datatype Rows = Rows(op: Operation, journal: Journal, lines: seq<Line>, transfers: map<nat, TransferRow>,
                       outbox: map<string, Event>)

  datatype TransactionError =
    | OperationConstraint
    | JournalImmutable
    | JournalConstraint
    | TransferConstraint
    | EventConflict
    | ReconciliationConflict

  // ----- the operation row

  predicate StatusMatchesMetadata(op: Operation) {
    match op.status
    case Intent | Submitted | Unknown =>
      op.engineAcceptedAt.None? && op.rejectionReason.None? && op.recoveryReason.None? && op.reconciledAt.None?
    case Accepted =>
      op.engineAcceptedAt.Some? && op.rejectionReason.None? && op.recoveryReason.None? && op.reconciledAt.None?
    case Rejected =>
      op.engineAcceptedAt.None? && op.rejectionReason.Some? && op.recoveryReason.None? && op.reconciledAt.None?
    case ManualRecovery =>
      op.recoveryReason.Some? && op.reconciledAt.None?
    case Reconciled =>
      op.engineAcceptedAt.Some? && op.rejectionReason.None? && op.recoveryReason.None? && op.reconciledAt.Some?
  }

  /** The status transitions the update trigger lets through. */
  predicate StatusTransition(from: Status, to: Status) {
    || from == to
    || (from == Intent && to in {Submitted, ManualRecovery})
    || (from == Submitted && to in {Accepted, Reconciled, Rejected, Unknown, ManualRecovery})
    || (from == Unknown && to in {Submitted, ManualRecovery})
    || (from == Accepted && to in {Reconciled, ManualRecovery})
    || (from == Reconciled && to == ManualRecovery)
  }

  /** Trigger and check constraint together: may this row replace that one? */
  predicate OperationUpdateAllowed(before: Operation, after: Operation) {
    && before.identity == after.identity
    && StatusTransition(before.status, after.status)
    && StatusMatchesMetadata(after)
  }

  predicate Terminal(status: Status) {
    status in {Reconciled, Rejected, ManualRecovery}
  }

  // ----- the journal row

  predicate JournalCheck(journal: Journal) {
    && (journal.status == Draft <==> journal.postedAt.None?)
    && (journal.status == Reversed <==> journal.reversesEntryId.Some?)
  }

  predicate BalancedForPosting(lines: seq<Line>) {
    |lines| >= 2 && TotalDebit(lines) == TotalCredit(lines)
  }

  /** Posted and reversed entries are immutable; a posted entry needs at least two balanced lines. */
  function JournalUpdateError(before: Journal, after: Journal, lines: seq<Line>): Option<TransactionError> {
    if before.status != Draft then Some(JournalImmutable)
    else if !JournalCheck(after) then Some(JournalConstraint)
    else if after.status != Draft && !BalancedForPosting(lines) then Some(JournalConstraint)
    else None
  }

  function PostedStatus(identity: Identity): JournalStatus {
    if identity.operationType == JournalReverse then Reversed else Posted
  }

  function ReversesEntry(identity: Identity): Option<string> {
    if identity.operationType == JournalReverse then identity.sourceJournalId else None
  }

  // ----- transfer rows

  predicate TransferStatusTransition(from: TransferStatus, to: TransferStatus) {
    || from == to
    || (from == RowUnresolved && to in {RowAccepted, RowRejected, RowManualRecovery})
    || (from == RowAccepted && to == RowManualRecovery)
  }

  predicate TransferUpdateAllowed(before: TransferRow, after: TransferRow) {
    && before.debit == after.debit && before.credit == after.credit && before.amount == after.amount
    && (before.engineTransferId.Some? ==> after.engineTransferId == before.engineTransferId)
    && TransferStatusTransition(before.status, after.status)
  }

  predicate TransfersUpdateAllowed(before: map<nat, TransferRow>, after: map<nat, TransferRow>) {
    && before.Keys == after.Keys
    && forall p | p in before :: TransferUpdateAllowed(before[p], after[p])
  }

  function WithStatus(transfers: map<nat, TransferRow>, status: TransferStatus): (updated: map<nat, TransferRow>)
    ensures updated.Keys == transfers.Keys
  {
    map p | p in transfers :: transfers[p].(status := status)
  }

  /** The identity column of every row filled from the ledger's list; positions past its end are left alone. */
  function WithIds(transfers: map<nat, TransferRow>, ids: seq<TransferId>): (updated: map<nat, TransferRow>)
    ensures updated.Keys == transfers.Keys
  {
    map p | p in transfers :: if p < |ids| then transfers[p].(engineTransferId := Some(ids[p])) else transfers[p]
  }

  function AcceptedRows(transfers: map<nat, TransferRow>, observedAt: Option<Time>): (updated: map<nat, TransferRow>)
    ensures updated.Keys == transfers.Keys
  {
    map p | p in transfers :: transfers[p].(status := RowAccepted, observedAt := observedAt)
  }

  /** What the update triggers hold fast, whatever a writer tries: final states, and everything about a row once it is known. */
  lemma TriggersHoldFast(before: Operation, after: Operation, row: TransferRow, next: TransferRow)
    ensures OperationUpdateAllowed(before, after) ==>
      && after.identity == before.identity
      && (after.status == Intent ==> before.status == Intent)
      && (before.status in {Rejected, ManualRecovery} ==> after.status == before.status)
      && (before.status == Reconciled ==> after.status in {Reconciled, ManualRecovery})
      && (before.status == Accepted ==> after.status in {Accepted, Reconciled, ManualRecovery})
      && (before.status == Unknown ==> after.status in {Unknown, Submitted, ManualRecovery})
      && (before.status == Intent ==> after.status in {Intent, Submitted, ManualRecovery})
    ensures TransferUpdateAllowed(row, next) ==>
      && next.debit == row.debit && next.credit == row.credit && next.amount == row.amount
      && (row.engineTransferId.Some? ==> next.engineTransferId == row.engineTransferId)
      && (row.status in {RowRejected, RowManualRecovery} ==> next.status == row.status)
      && (row.status == RowAccepted ==> next.status in {RowAccepted, RowManualRecovery})
  {
  }

  // ----- the outbox

  const RECONCILED_EVENT := "accounting.financial_operation.reconciled"

  function ReconciledEvent(identity: Identity, occurredAt: Time): Event {
    Event(identity.reconciledEventId, RECONCILED_EVENT, identity.rowId,
          RECONCILED_EVENT + ":" + identity.operationId, identity.actorPrincipalId, occurredAt,
          identity.operationId, identity.journalId, identity.mappingVersion)
  }

  predicate SameDedupeKey(left: Event, right: Event) {
    left.eventType == right.eventType && left.idempotencyKey == right.idempotencyKey
  }

  ghost predicate OutboxKeysUnique(outbox: map<string, Event>) {
    && (forall id | id in outbox :: outbox[id].eventId == id)
    && (forall a, b | a in outbox && b in outbox && SameDedupeKey(outbox[a], outbox[b]) :: a == b)
  }

  /** The stored events an append runs into: the one with the same id and those with the same dedupe key. */
  function Collisions(outbox: map<string, Event>, event: Event): set<string> {
    set id | id in outbox && (id == event.eventId || SameDedupeKey(outbox[id], event))
  }

  /** Insert, or accept an identical stored event, or report a conflict. */
  function AppendEvent(outbox: map<string, Event>, event: Event): Result<map<string, Event>, TransactionError> {
    var hits := Collisions(outbox, event);
    if hits == {} then Success(outbox[event.eventId := event])
    else if hits == {event.eventId} && outbox[event.eventId] == event then Success(outbox)
    else Failure(EventConflict)
  }

  /**
   An event is taken if and only if nothing else is stored under its id or under its type and idempotency key; it is then
   stored under its id.
   */
  lemma AppendedIff(outbox: map<string, Event>, event: Event)
    requires OutboxKeysUnique(outbox)
    ensures AppendEvent(outbox, event).Success? <==>
      forall id | id in outbox && (id == event.eventId || (outbox[id].eventType == event.eventType
                                                           && outbox[id].idempotencyKey == event.idempotencyKey)) ::
        outbox[id] == event
    ensures AppendEvent(outbox, event).Success? ==> AppendEvent(outbox, event).value == outbox[event.eventId := event]
    ensures AppendEvent(outbox, event).Failure? ==> AppendEvent(outbox, event).error == EventConflict
  {
    var hits := Collisions(outbox, event);
    assert forall id | id in outbox :: id in hits <==> id == event.eventId || SameDedupeKey(outbox[id], event);
    if hits != {} && forall id | id in hits :: outbox[id] == event {
      var hit :| hit in hits;
      assert outbox[hit].eventId == hit;
      assert hits == {event.eventId};
    }
    if event.eventId in outbox && outbox[event.eventId] == event { assert outbox[event.eventId := event] == outbox; }
  }

  /** Appending keeps both unique keys, and an event that was appended is found under its id unchanged. */
  lemma AppendEventKeepsKeys(outbox: map<string, Event>, event: Event)
    requires OutboxKeysUnique(outbox)
    ensures AppendEvent(outbox, event).Success? ==>
      var after := AppendEvent(outbox, event).value;
      && OutboxKeysUnique(after) && event.eventId in after && after[event.eventId] == event
      && (forall id | id in outbox :: id in after && after[id] == outbox[id])
      && after.Keys == outbox.Keys + {event.eventId}
      && AppendEvent(after, event) == Success(after)
  {
    if AppendEvent(outbox, event).Success? {
      var after := AppendEvent(outbox, event).value;
      var hits := Collisions(outbox, event);
      forall id | id in outbox && id != event.eventId
        ensures !SameDedupeKey(outbox[id], event)
      {
        assert id in hits ==> hits != {} && hits != {event.eventId};
      }
      assert event.eventId in outbox ==> event.eventId in hits;
      assert event.eventId in outbox ==> outbox[event.eventId] == event;
      forall id | id in outbox ensures id in after && after[id] == outbox[id] {
      }
      assert Collisions(after, event) == {event.eventId};
    }
  }

  // ----- identities

  function ExpectedIds(identity: Identity, lines: seq<Line>): (ids: seq<TransferId>)
    ensures |ids| == |PairsOf(lines)|
  {
    seq(|PairsOf(lines)|, i requires 0 <= i < |PairsOf(lines)| =>
      TransferId(identity.mappingVersion, identity.tenantId, identity.legalEntityId, identity.operationId, i))
  }
}
