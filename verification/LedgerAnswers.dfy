/**
 What the external ledger's adapter makes of an answer: when a journal is refused without being sent, what is appended, and
 how statuses, stored transfers and silence are reported.
 */
module LedgerAnswers {
  import opened Wrappers
  import opened Pairing
  import opened JournalValidation
  import opened OperationRecords
  import opened ExternalLedger

  // ----- reading statuses and timestamps

  /** The latest timestamp: none is later, and one of them is it. */
  lemma {:induction false} LatestTransfer(transfers: seq<LedgerTransfer>)
    ensures forall t | t in transfers :: t.timestamp <= MaxTimestamp(transfers)
    ensures transfers != [] ==> exists t :: t in transfers && t.timestamp == MaxTimestamp(transfers)
  {
    if transfers != [] {
      LatestTransfer(transfers[1..]);
      assert transfers[0] in transfers;
      assert forall t | t in transfers :: t == transfers[0] || t in transfers[1..];
      if transfers[1..] == [] { assert transfers[0].timestamp == MaxTimestamp(transfers); }
    }
  }

  /** The time of a transfer the ledger has taken, now or before. */
  predicate StampedAt(status: CreateStatus, at: Time) {
    (status.Created? || status.Exists?) && status.timestamp == at
  }

  lemma {:induction false} LatestStatus(statuses: seq<CreateStatus>)
    ensures forall k, at: Time | 0 <= k < |statuses| && StampedAt(statuses[k], at) :: at <= MaxStatus(statuses)
    ensures MaxStatus(statuses) == 0 || exists k :: 0 <= k < |statuses| && StampedAt(statuses[k], MaxStatus(statuses))
  {
    if statuses != [] {
      LatestStatus(statuses[1..]);
      assert forall k | 0 < k < |statuses| :: statuses[k] == statuses[1..][k - 1];
    }
  }

  /** The `k`-th status refuses for this reason, and none before it refuses. */
  predicate FirstToRefuse(statuses: seq<CreateStatus>, k: int, reason: RejectionReason) {
    0 <= k < |statuses| && statuses[k] == Refused(reason) && forall i | 0 <= i < k :: !statuses[i].Refused?
  }

  lemma {:induction false} FirstRefusalMeans(statuses: seq<CreateStatus>)
    ensures FirstRefusal(statuses).None? <==> forall k | 0 <= k < |statuses| :: !statuses[k].Refused?
    ensures FirstRefusal(statuses).Some? ==> exists k :: FirstToRefuse(statuses, k, FirstRefusal(statuses).value)
  {
    if statuses != [] {
      var rest := statuses[1..];
      FirstRefusalMeans(rest);
      assert forall k | 0 <= k < |rest| :: rest[k] == statuses[k + 1];
      if statuses[0].Refused? {
        assert FirstToRefuse(statuses, 0, statuses[0].reason);
      } else if FirstRefusal(rest).Some? {
        var k :| FirstToRefuse(rest, k, FirstRefusal(rest).value);
        assert forall i | 0 < i <= k :: statuses[i] == rest[i - 1];
        assert FirstToRefuse(statuses, k + 1, FirstRefusal(rest).value);
      }
    }
  }

  /**
   What a list of statuses is reported as: unknown when the list is missing or has another length than the batch, a conflicting
   replay when some transfer exists with other contents, the first refusal otherwise, and the acceptance when there is none.
   */
  lemma StatusesMean(identity: Identity, lines: seq<Line>, statuses: Option<seq<CreateStatus>>)
    ensures var outcome := InterpretPost(identity, lines, statuses);
      var answered := statuses.Some? && |statuses.value| == |PairsOf(lines)|;
      && outcome.operationId == identity.operationId
      && (!answered <==> outcome == UnknownOutcome(identity.operationId, UnknownReason.ResponseLost))
      && (outcome.ManualOutcome? <==> answered && exists k :: 0 <= k < |statuses.value| && statuses.value[k] == ExistsDifferent)
      && (outcome.ManualOutcome? ==> outcome.recovery == ConflictingReplay)
      && (outcome.RejectedOutcome? ==> exists k :: FirstToRefuse(statuses.value, k, outcome.reason))
      && (outcome.AcceptedOutcome? <==>
            answered && forall k | 0 <= k < |statuses.value| :: statuses.value[k].Created? || statuses.value[k].Exists?)
      && (outcome.AcceptedOutcome? ==>
            && outcome.mappingVersion == identity.mappingVersion && outcome.transferCount == |PairsOf(lines)|
            && outcome.transferIds == ExpectedIds(identity, lines)
            && forall k, at: Time | 0 <= k < |statuses.value| && StampedAt(statuses.value[k], at) :: at <= outcome.acceptedAt)
  {
    if statuses.Some? {
      FirstRefusalMeans(statuses.value);
      LatestStatus(statuses.value);
    }
  }

  // ----- before the ledger is contacted

  ghost predicate Sound(lines: seq<Line>) {
    WellFormed(lines) && NoSelfTransfer(lines)
  }

  /** An unsound journal is refused without being sent or looked up, and nothing is appended. */
  lemma UnsoundIsNotSent(log: seq<LedgerTransfer>, identity: Identity, lines: seq<Line>, delivery: Delivery, admitted: bool,
                         reason: RejectionReason, clock: Time, available: bool)
    requires !Sound(lines)
    ensures var posted := PostJournal(log, identity, lines, delivery, admitted, reason, clock);
      && posted.log == log && posted.outcome.RejectedOutcome? && posted.outcome.operationId == identity.operationId
      && ReconcileJournal(log, identity, lines, available) == posted.outcome
      && (WellFormed(lines) ==> posted.outcome.reason == ConstraintViolation)
      && (!WellFormed(lines) ==> posted.outcome.reason in {InvalidAmount, Unbalanced})
  {
    ValidationsAgree(lines);
    VerdictMeans(lines);
  }

  lemma SoundIsSent(identity: Identity, lines: seq<Line>)
    requires Sound(lines)
    ensures LocalRefusal(identity, lines) == None
  {
    ValidationsAgree(lines);
    WellFormedHasTransfers(lines);
  }

  // ----- what the ledger holds

  /** The stored transfer is the `p`-th of the journal: identity, accounts, amount and version. */
  predicate IsTransfer(stored: LedgerTransfer, identity: Identity, lines: seq<Line>, p: nat)
    requires p < |PairsOf(lines)|
  {
    var pair := PairsOf(lines)[p];
    && stored.id == TransferId(identity.mappingVersion, identity.tenantId, identity.legalEntityId, identity.operationId, p)
    && stored.debit == pair.debit && stored.credit == pair.credit && stored.amount == pair.amount
    && stored.mappingVersion == identity.mappingVersion
  }

  lemma BatchMeans(identity: Identity, lines: seq<Line>, clock: Time, p: nat)
    requires p < |PairsOf(lines)|
    ensures var batch := Batch(identity, lines, clock);
      && IsTransfer(batch[p], identity, lines, p) && batch[p].timestamp == clock + p
      && forall stored :: SameTransfer(stored, batch[p]) <==> IsTransfer(stored, identity, lines, p)
  {
    forall stored ensures SameTransfer(stored, Batch(identity, lines, clock)[p]) <==> IsTransfer(stored, identity, lines, p) {
      var sent := Batch(identity, lines, clock)[p];
      assert stored.(timestamp := 0) == LedgerTransfer(stored.id, stored.debit, stored.credit, stored.amount, stored.mappingVersion, 0);
      assert sent.(timestamp := 0) == LedgerTransfer(sent.id, sent.debit, sent.credit, sent.amount, sent.mappingVersion, 0);
    }
  }

  lemma {:induction false} LookupMeans(log: seq<LedgerTransfer>, ids: seq<TransferId>)
    ensures forall t :: t in LookupTransfers(log, ids) <==> t in log && t.id in ids
  {
    if log != [] {
      LookupMeans(log[1..], ids);
      assert forall t :: t in log <==> t == log[0] || t in log[1..];
    }
  }

  /** The ledger knows an identity of the journal, and lacks some transfer of it or holds it with other contents. */
  ghost predicate Contradicted(log: seq<LedgerTransfer>, identity: Identity, lines: seq<Line>) {
    && (exists t :: t in log && t.id in ExpectedIds(identity, lines))
    && (exists p: nat :: p < |PairsOf(lines)| && Lacks(log, identity, lines, p))
  }

  ghost predicate Lacks(log: seq<LedgerTransfer>, identity: Identity, lines: seq<Line>, p: nat)
    requires p < |PairsOf(lines)|
  {
    forall t | t in log :: !IsTransfer(t, identity, lines, p)
  }

  /**
   A journal the ledger knows with other contents: a post is reported as a conflicting replay and appends nothing, whether the
   ledger would admit it or not, and a lookup is reported as a mapping mismatch.
   */
  lemma ContradictionIsManual(log: seq<LedgerTransfer>, identity: Identity, lines: seq<Line>, admitted: bool, reason: RejectionReason,
                              clock: Time)
    requires Sound(lines) && Contradicted(log, identity, lines)
    ensures PostJournal(log, identity, lines, Delivered, admitted, reason, clock)
         == PostResult(log, ManualOutcome(identity.operationId, ConflictingReplay))
    ensures PostJournal(log, identity, lines, LostResponse, admitted, reason, clock)
         == PostResult(log, UnknownOutcome(identity.operationId, UnknownReason.ResponseLost))
    ensures ReconcileJournal(log, identity, lines, true) == ManualOutcome(identity.operationId, MappingMismatch)
  {
    SoundIsSent(identity, lines);
    WellFormedHasTransfers(lines);
    ConflictingBatch(log, identity, lines, admitted, reason, clock);
    StatusesMean(identity, lines, Some(CreateTransfers(log, Batch(identity, lines, clock), admitted, reason).statuses));
    ContradictedLookup(log, identity, lines);
  }

  lemma ConflictingBatch(log: seq<LedgerTransfer>, identity: Identity, lines: seq<Line>, admitted: bool, reason: RejectionReason,
                         clock: Time)
    requires Contradicted(log, identity, lines) && PairsOf(lines) != []
    ensures var answer := CreateTransfers(log, Batch(identity, lines, clock), admitted, reason);
      && answer.log == log && |answer.statuses| == |PairsOf(lines)| && answer.statuses[0] == ExistsDifferent
  {
    var batch, ids := Batch(identity, lines, clock), ExpectedIds(identity, lines);
    assert seq(|batch|, i requires 0 <= i < |batch| => batch[i].id) == ids;
    var stored := LookupTransfers(log, ids);
    LookupMeans(log, ids);
    var p: nat :| p < |PairsOf(lines)| && Lacks(log, identity, lines, p);
    BatchMeans(identity, lines, clock, p);
    assert p < |stored| ==> stored[p] in log && !SameTransfer(stored[p], batch[p]);
  }

  lemma ContradictedLookup(log: seq<LedgerTransfer>, identity: Identity, lines: seq<Line>)
    requires Sound(lines) && Contradicted(log, identity, lines)
    ensures ReconcileJournal(log, identity, lines, true) == ManualOutcome(identity.operationId, MappingMismatch)
  {
    SoundIsSent(identity, lines);
    var expected, stored := Batch(identity, lines, 0), LookupTransfers(log, ExpectedIds(identity, lines));
    LookupMeans(log, ExpectedIds(identity, lines));
    var p: nat :| p < |PairsOf(lines)| && Lacks(log, identity, lines, p);
    BatchMeans(identity, lines, 0, p);
    assert !StoredAmong(stored, expected[p]);
  }

  /** A journal the ledger knows nothing of is not found; it is appended whole when it is admitted, and reported refused otherwise. */
  lemma NewJournalIsAppended(log: seq<LedgerTransfer>, identity: Identity, lines: seq<Line>, admitted: bool, reason: RejectionReason,
                             clock: Time)
    requires Sound(lines) && forall t | t in log :: t.id !in ExpectedIds(identity, lines)
    ensures var posted := PostJournal(log, identity, lines, Delivered, admitted, reason, clock);
      if admitted then Appended(log, posted, identity, lines)
      else posted == PostResult(log, RejectedOutcome(identity.operationId, reason))
    ensures ReconcileJournal(log, identity, lines, true) == UnknownOutcome(identity.operationId, NotFound)
  {
    SoundIsSent(identity, lines);
    WellFormedHasTransfers(lines);
    NothingStored(log, ExpectedIds(identity, lines));
    PostIsInterpreted(log, identity, lines, admitted, reason, clock);
    NewBatch(log, identity, lines, admitted, reason, clock);
    if admitted { AppendedBatch(log, identity, lines, clock); } else { RefusedBatch(log, identity, lines, reason, clock); }
  }

  /** Every transfer of the journal has been added, in order, and the acceptance is no older than any of them. */
  ghost predicate Appended(log: seq<LedgerTransfer>, posted: PostResult, identity: Identity, lines: seq<Line>) {
    && posted.outcome.AcceptedOutcome? && |posted.log| == |log| + |PairsOf(lines)| && posted.log[..|log|] == log
    && forall k | |log| <= k < |posted.log| ::
         IsTransfer(posted.log[k], identity, lines, k - |log|) && posted.log[k].timestamp <= posted.outcome.acceptedAt
  }

  lemma PostIsInterpreted(log: seq<LedgerTransfer>, identity: Identity, lines: seq<Line>, admitted: bool, reason: RejectionReason,
                          clock: Time)
    requires Sound(lines)
    ensures var answer := CreateTransfers(log, Batch(identity, lines, clock), admitted, reason);
      PostJournal(log, identity, lines, Delivered, admitted, reason, clock)
        == PostResult(answer.log, InterpretPost(identity, lines, Some(answer.statuses)))
  {
    SoundIsSent(identity, lines);
  }

  lemma AppendedBatch(log: seq<LedgerTransfer>, identity: Identity, lines: seq<Line>, clock: Time)
    ensures var batch := Batch(identity, lines, clock);
      var statuses := seq(|batch|, i requires 0 <= i < |batch| => Created(batch[i].timestamp));
      Appended(log, PostResult(log + batch, InterpretPost(identity, lines, Some(statuses))), identity, lines)
  {
    var batch := Batch(identity, lines, clock);
    var statuses := seq(|batch|, i requires 0 <= i < |batch| => Created(batch[i].timestamp));
    StatusesMean(identity, lines, Some(statuses));
    forall k | 0 <= k < |batch|
      ensures IsTransfer(batch[k], identity, lines, k) && StampedAt(statuses[k], batch[k].timestamp)
    {
      BatchMeans(identity, lines, clock, k);
    }
  }

  lemma RefusedBatch(log: seq<LedgerTransfer>, identity: Identity, lines: seq<Line>, reason: RejectionReason, clock: Time)
    requires PairsOf(lines) != []
    ensures var batch := Batch(identity, lines, clock);
      InterpretPost(identity, lines, Some(seq(|batch|, i => Refused(reason)))) == RejectedOutcome(identity.operationId, reason)
  {
    var batch := Batch(identity, lines, clock);
    var statuses: seq<CreateStatus> := seq(|batch|, i => Refused(reason));
    StatusesMean(identity, lines, Some(statuses));
    FirstRefusalMeans(statuses);
    assert statuses[0] == Refused(reason);
  }

  lemma NothingStored(log: seq<LedgerTransfer>, ids: seq<TransferId>)
    requires forall t | t in log :: t.id !in ids
    ensures LookupTransfers(log, ids) == []
  {
    LookupMeans(log, ids);
    if LookupTransfers(log, ids) != [] { assert LookupTransfers(log, ids)[0] in LookupTransfers(log, ids); }
  }

  lemma NewBatch(log: seq<LedgerTransfer>, identity: Identity, lines: seq<Line>, admitted: bool, reason: RejectionReason, clock: Time)
    requires LookupTransfers(log, ExpectedIds(identity, lines)) == [] && PairsOf(lines) != []
    ensures var batch := Batch(identity, lines, clock);
      var answer := CreateTransfers(log, batch, admitted, reason);
      && (admitted ==>
            answer == ClientAnswer(log + batch, seq(|batch|, i requires 0 <= i < |batch| => Created(batch[i].timestamp))))
      && (!admitted ==> answer == ClientAnswer(log, seq(|batch|, i => Refused(reason))))
  {
    var batch := Batch(identity, lines, clock);
    assert seq(|batch|, i requires 0 <= i < |batch| => batch[i].id) == ExpectedIds(identity, lines);
  }

  /** Silence: a lost request reaches nothing, an unavailable ledger finds nothing, and neither is a refusal. */
  lemma SilenceIsUnknown(log: seq<LedgerTransfer>, identity: Identity, lines: seq<Line>, admitted: bool, reason: RejectionReason,
                         clock: Time)
    requires Sound(lines)
    ensures PostJournal(log, identity, lines, LostRequest, admitted, reason, clock)
         == PostResult(log, UnknownOutcome(identity.operationId, UnknownReason.ResponseLost))
    ensures PostJournal(log, identity, lines, LostResponse, admitted, reason, clock).outcome
         == UnknownOutcome(identity.operationId, UnknownReason.ResponseLost)
    ensures PostJournal(log, identity, lines, LostResponse, admitted, reason, clock).log
         == PostJournal(log, identity, lines, Delivered, admitted, reason, clock).log
    ensures ReconcileJournal(log, identity, lines, false) == UnknownOutcome(identity.operationId, Unavailable)
  {
    SoundIsSent(identity, lines);
  }
}
