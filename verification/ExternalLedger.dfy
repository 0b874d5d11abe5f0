/**
 The external ledger behind the port: an append-only list of transfers, applied a journal at a time, and the
 adapter's decisions on what the ledger client answers.  A request or a response can be lost.  Posting the
 same identities again has no effect.
 */
module ExternalLedger {
  import opened Wrappers
  import opened Pairing
  import opened JournalValidation
  import opened OperationRecords

  datatype LedgerTransfer = LedgerTransfer(
    id: TransferId, debit: string, credit: string, amount: nat, mappingVersion: nat, timestamp: Time)

  datatype Delivery = LostRequest | LostResponse | Delivered

  datatype CreateStatus =
    | Created(timestamp: Time)
    | Exists(timestamp: Time)
    | ExistsDifferent
    | Refused(reason: RejectionReason)

  // ----- what the ledger stores

  /** The transfers a journal is posted as, stamped from `clock` on. */
  function Batch(identity: Identity, lines: seq<Line>, clock: Time): (batch: seq<LedgerTransfer>)
    ensures |batch| == |PairsOf(lines)|
  {
    var pairs, ids := PairsOf(lines), ExpectedIds(identity, lines);
    seq(|pairs|, i requires 0 <= i < |pairs| =>
      LedgerTransfer(ids[i], pairs[i].debit, pairs[i].credit, pairs[i].amount, identity.mappingVersion, clock + i))
  }

  predicate SameTransfer(left: LedgerTransfer, right: LedgerTransfer) {
    left.(timestamp := 0) == right.(timestamp := 0)
  }

  /** The stored transfers with one of the given identities, in ledger order. */
  function LookupTransfers(log: seq<LedgerTransfer>, ids: seq<TransferId>): seq<LedgerTransfer> {
    if log == [] then []
    else (if log[0].id in ids then [log[0]] else []) + LookupTransfers(log[1..], ids)
  }

  function MaxTimestamp(transfers: seq<LedgerTransfer>): Time {
    if transfers == [] then 0
    else
      var rest := MaxTimestamp(transfers[1..]);
      if transfers[0].timestamp > rest then transfers[0].timestamp else rest
  }

  // ----- the client contract: a linked batch is applied all or not at all

  datatype ClientAnswer = ClientAnswer(log: seq<LedgerTransfer>, statuses: seq<CreateStatus>)

  function CreateTransfers(log: seq<LedgerTransfer>, batch: seq<LedgerTransfer>, admitted: bool, reason: RejectionReason)
    : (answer: ClientAnswer)
    ensures |answer.statuses| == |batch|
    ensures answer.log == log || answer.log == log + batch
  {
    var ids := seq(|batch|, i requires 0 <= i < |batch| => batch[i].id);
    var stored := LookupTransfers(log, ids);
    if stored == [] then
      if admitted
      then ClientAnswer(log + batch, seq(|batch|, i requires 0 <= i < |batch| => Created(batch[i].timestamp)))
      else ClientAnswer(log, seq(|batch|, i => Refused(reason)))
    else if |stored| == |batch| && forall i | 0 <= i < |batch| :: SameTransfer(stored[i], batch[i]) then
      ClientAnswer(log, seq(|batch|, i requires 0 <= i < |batch| => Exists(stored[i].timestamp)))
    else ClientAnswer(log, seq(|batch|, i => ExistsDifferent))
  }

  // ----- the adapter's decisions

  /** The highest timestamp among the answers. */
  function MaxStatus(statuses: seq<CreateStatus>): Time {
    if statuses == [] then 0
    else
      var rest := MaxStatus(statuses[1..]);
      match statuses[0]
      case Created(t) => if t > rest then t else rest
      case Exists(t) => if t > rest then t else rest
      case _ => rest
  }

  function FirstRefusal(statuses: seq<CreateStatus>): Option<RejectionReason> {
    if statuses == [] then None
    else match statuses[0]
      case Refused(reason) => Some(reason)
      case _ => FirstRefusal(statuses[1..])
  }

  function Accepting(identity: Identity, lines: seq<Line>, acceptedAt: Time): Outcome {
    AcceptedOutcome(identity.operationId, identity.mappingVersion, acceptedAt, |PairsOf(lines)|, ExpectedIds(identity, lines))
  }

  function InterpretPost(identity: Identity, lines: seq<Line>, statuses: Option<seq<CreateStatus>>): Outcome {
    if statuses.None? || |statuses.value| != |PairsOf(lines)| then UnknownOutcome(identity.operationId, ResponseLost)
    else if ExistsDifferent in statuses.value then ManualOutcome(identity.operationId, ConflictingReplay)
    else match FirstRefusal(statuses.value)
      case Some(reason) => RejectedOutcome(identity.operationId, reason)
      case None => Accepting(identity, lines, MaxStatus(statuses.value))
  }

  /** The transfer found under the expected identity carries the expected fields. */
  predicate StoredAmong(transfers: seq<LedgerTransfer>, expected: LedgerTransfer) {
    exists i | 0 <= i < |transfers| :: SameTransfer(transfers[i], expected)
  }

  /** Refusals made before the ledger is contacted at all. */
  ghost function LocalRefusal(identity: Identity, lines: seq<Line>): Option<Outcome> {
    match JournalVerdict(lines)
    case Some(reason) => Some(RejectedOutcome(identity.operationId, reason))
    case None => if PairsOf(lines) == [] || !NoSelfTransfer(lines)
                 then Some(RejectedOutcome(identity.operationId, ConstraintViolation)) else None
  }

  datatype PostResult = PostResult(log: seq<LedgerTransfer>, outcome: Outcome)

  ghost function PostJournal(log: seq<LedgerTransfer>, identity: Identity, lines: seq<Line>, delivery: Delivery,
                             admitted: bool, reason: RejectionReason, clock: Time): PostResult
  {
    match LocalRefusal(identity, lines)
    case Some(refusal) => PostResult(log, refusal)
    case None =>
      if delivery == LostRequest then PostResult(log, UnknownOutcome(identity.operationId, ResponseLost))
      else
        var answer := CreateTransfers(log, Batch(identity, lines, clock), admitted, reason);
        PostResult(answer.log, InterpretPost(identity, lines, if delivery == Delivered then Some(answer.statuses) else None))
  }

  ghost function ReconcileJournal(log: seq<LedgerTransfer>, identity: Identity, lines: seq<Line>, available: bool): Outcome {
    match LocalRefusal(identity, lines)
    case Some(refusal) => refusal
    case None =>
      var expected := Batch(identity, lines, 0);
      var transfers := LookupTransfers(log, ExpectedIds(identity, lines));
      if !available then UnknownOutcome(identity.operationId, Unavailable)
      else if transfers == [] then UnknownOutcome(identity.operationId, NotFound)
      else if |transfers| != |expected| then ManualOutcome(identity.operationId, MappingMismatch)
      else if exists i | 0 <= i < |expected| :: !StoredAmong(transfers, expected[i])
      then ManualOutcome(identity.operationId, MappingMismatch)
      else Accepting(identity, lines, MaxTimestamp(transfers))
  }

  // ----- effect on one operation

  /** The identity belongs to the operation. */
  predicate Owns(identity: Identity, id: TransferId) {
    && id.TransferId?
    && id.mappingVersion == identity.mappingVersion && id.tenantId == identity.tenantId
    && id.legalEntityId == identity.legalEntityId && id.operationId == identity.operationId
  }

  /** What the ledger has applied of an operation. */
  function Applied(log: seq<LedgerTransfer>, identity: Identity): seq<LedgerTransfer> {
    if log == [] then []
    else (if Owns(identity, log[0].id) then [log[0]] else []) + Applied(log[1..], identity)
  }

  /** Nothing, or exactly the operation's transfers, once. */
  ghost predicate AppliedAtMostOnce(log: seq<LedgerTransfer>, identity: Identity, lines: seq<Line>) {
    Applied(log, identity) == [] || exists clock :: Applied(log, identity) == Batch(identity, lines, clock)
  }

  lemma AppliedCons(first: LedgerTransfer, rest: seq<LedgerTransfer>, identity: Identity)
    ensures Applied([first] + rest, identity)
         == (if Owns(identity, first.id) then [first] else []) + Applied(rest, identity)
  {
    assert ([first] + rest)[1..] == rest;
  }

  lemma {:induction false} AppliedConcat(left: seq<LedgerTransfer>, right: seq<LedgerTransfer>, identity: Identity)
    ensures Applied(left + right, identity) == Applied(left, identity) + Applied(right, identity)
  {
    if left == [] {
      assert left + right == right;
    } else {
      AppliedConcat(left[1..], right, identity);
      assert left + right == [left[0]] + (left[1..] + right);
      AppliedCons(left[0], left[1..] + right, identity);
      AppliedCons(left[0], left[1..], identity);
      assert left == [left[0]] + left[1..];
    }
  }

  lemma {:induction false} AppliedAll(log: seq<LedgerTransfer>, identity: Identity)
    requires forall i | 0 <= i < |log| :: Owns(identity, log[i].id)
    ensures Applied(log, identity) == log
  {
    if log != [] { AppliedAll(log[1..], identity); }
  }

  lemma {:induction false} AppliedNone(log: seq<LedgerTransfer>, identity: Identity)
    requires forall i | 0 <= i < |log| :: !Owns(identity, log[i].id)
    ensures Applied(log, identity) == []
  {
    if log != [] { AppliedNone(log[1..], identity); }
  }

  lemma {:induction false} LookupWithinApplied(log: seq<LedgerTransfer>, identity: Identity, ids: seq<TransferId>)
    requires forall i | 0 <= i < |ids| :: Owns(identity, ids[i])
    ensures LookupTransfers(log, ids) == LookupTransfers(Applied(log, identity), ids)
  {
    if log != [] {
      LookupWithinApplied(log[1..], identity, ids);
      var rest := Applied(log[1..], identity);
      if Owns(identity, log[0].id) {
        assert Applied(log, identity)[0] == log[0] && Applied(log, identity)[1..] == rest;
      } else {
        assert log[0].id !in ids;
        assert Applied(log, identity) == rest;
      }
    }
  }

  lemma {:induction false} LookupAll(log: seq<LedgerTransfer>, ids: seq<TransferId>)
    requires forall i | 0 <= i < |log| :: log[i].id in ids
    ensures LookupTransfers(log, ids) == log
  {
    if log != [] { LookupAll(log[1..], ids); }
  }

  /** Looking an operation up finds exactly what was applied of it. */
  lemma LookupFindsApplied(log: seq<LedgerTransfer>, identity: Identity, lines: seq<Line>)
    requires AppliedAtMostOnce(log, identity, lines)
    ensures LookupTransfers(log, ExpectedIds(identity, lines)) == Applied(log, identity)
  {
    var ids := ExpectedIds(identity, lines);
    LookupWithinApplied(log, identity, ids);
    if Applied(log, identity) != [] {
      var clock :| Applied(log, identity) == Batch(identity, lines, clock);
      forall i | 0 <= i < |Batch(identity, lines, clock)| ensures Batch(identity, lines, clock)[i].id in ids {
        assert Batch(identity, lines, clock)[i].id == ids[i];
      }
      LookupAll(Applied(log, identity), ids);
    }
  }
}
