/**
 What each step of a worker makes of an answer: which outcome it goes on to receipt, and when a rebuild starts, commits, gives
 up or quarantines.
 */
module WorkerSteps {
  import opened Wrappers
  import opened Pairing
  import opened JournalValidation
  import opened OperationRecords
  import opened OperationTransactions
  import opened OperationInvariant
  import opened TransferIdentities
  import opened TransactionEffects
  import opened ExternalLedger
  import opened LedgerAnswers
  import opened Protocol
  import opened ProtocolSafety

  // ----- the submission

  /** Worker `w` is about to write this outcome of the operation, as observed from this ledger. */
  ghost predicate Writes(t: System, w: nat, outcome: Outcome) {
    w < |t.workers| && t.workers[w] == Receipting(outcome, Some(TigerBeetle))
  }

  /**
   An account whose answer is lost or doubtful ends the attempt as unknown; a known one is passed over; otherwise the ledger's
   answer decides, except that a remembering ledger refuses again what it has refused.
   */
  lemma ProvisioningMeans(s: System, w: nat, reconcile: bool, pending: seq<string>, verdict: AccountVerdict)
    requires w < |s.workers| && s.workers[w] == Provisioning(reconcile, pending) && pending != []
    ensures var t, id := Next(s, Act(w, Provision(verdict))), s.rows.op.identity.operationId;
      var known, remembered := pending[0] in s.provisioned, s.remembers && pending[0] in s.refusedAccounts;
      && t.rows == s.rows && t.log == s.log && t.refused == s.refused
      && (verdict.AccountUnknown? ==> Writes(t, w, UnknownOutcome(id, verdict.why)) && t.provisioned == s.provisioned)
      && (!verdict.AccountUnknown? && known ==>
            t.workers[w] == Provisioning(reconcile, pending[1..]) && t.provisioned == s.provisioned + {pending[0]})
      && (!verdict.AccountUnknown? && !known && remembered ==>
            Writes(t, w, RejectedOutcome(id, ConstraintViolation)) && t.provisioned == s.provisioned)
      && (!known && !remembered && verdict.AccountAccepted? ==>
            t.workers[w] == Provisioning(reconcile, pending[1..]) && t.provisioned == s.provisioned + {pending[0]})
      && (!known && !remembered && verdict.AccountRejected? ==>
            Writes(t, w, RejectedOutcome(id, verdict.reason)) && t.refusedAccounts == s.refusedAccounts + {pending[0]})
      && (!known && !remembered && verdict.AccountManual? ==> Writes(t, w, ManualOutcome(id, verdict.recovery)))
  {
  }

  /** Once every account is accepted, the identities are next. */
  lemma ProvisionedMeans(s: System, w: nat, reconcile: bool, verdict: AccountVerdict)
    requires w < |s.workers| && s.workers[w] == Provisioning(reconcile, [])
    ensures Next(s, Act(w, Provision(verdict))) == s.(workers := s.workers[w := Identifying(reconcile)])
  {
  }

  lemma IdentifyTakesTheRows(s: System, w: nat, reconcile: bool)
    requires w < |s.workers| && s.workers[w] == Identifying(reconcile)
    ensures var (committed, persisted) := PersistIdentities(s.rows, Expected(s));
      var t := Next(s, Act(w, Identify));
      && t.log == s.log && |t.workers| == |s.workers|
      && (committed.Success? && persisted ==>
            t.rows == committed.value && t.workers[w] == if reconcile then LookingUp else Posting)
      && (!persisted ==>
            t.rows == s.rows
            && t.workers[w] == Receipting(ManualOutcome(s.rows.op.identity.operationId, MappingMismatch), Some(AUTHORITY)))
  {
  }

  /** Identities that contradict a stored one end the attempt for the operators; otherwise a lookup or a post is next. */
  lemma IdentifyStepMeans(s: System, w: nat, reconcile: bool)
    requires w < |s.workers| && s.workers[w] == Identifying(reconcile) && Consistent(s.rows)
    ensures var t := Next(s, Act(w, Identify));
      && t.log == s.log && t.rows.op == s.rows.op
      && (if ListAgrees(s.rows, ExpectedIds(s.rows.op.identity, s.rows.lines))
          then t.workers[w] == (if reconcile then LookingUp else Posting) && IdsPersisted(t.rows)
          else t.rows == s.rows && Writes(t, w, ManualOutcome(s.rows.op.identity.operationId, MappingMismatch)))
  {
    IdentifyTakesTheRows(s, w, reconcile);
    IdentifyingMeans(s.rows, ExpectedIds(s.rows.op.identity, s.rows.lines));
    assert Expected(s) == ExpectedIds(s.rows.op.identity, s.rows.lines);
  }

  lemma LookupTakesTheAnswer(s: System, w: nat, available: bool)
    requires w < |s.workers| && s.workers[w] == LookingUp
    ensures var t := Next(s, Act(w, Lookup(available)));
      var outcome := ExternalLedger.ReconcileJournal(s.log, s.rows.op.identity, s.rows.lines, available);
      && t.rows == s.rows && t.log == s.log && w < |t.workers|
      && t.workers[w] == if outcome.UnknownOutcome? && outcome.why == NotFound then Posting
                         else Receipting(CheckedOutcome(s, outcome), Some(AUTHORITY))
  {
  }

  /** The three answers to a lookup that need no stored journal. */
  lemma LookupAnswers(log: seq<LedgerTransfer>, identity: Identity, lines: seq<Line>)
    requires Sound(lines)
    ensures ExternalLedger.ReconcileJournal(log, identity, lines, false) == UnknownOutcome(identity.operationId, Unavailable)
    ensures Contradicted(log, identity, lines) ==>
      ExternalLedger.ReconcileJournal(log, identity, lines, true) == ManualOutcome(identity.operationId, MappingMismatch)
    ensures (forall t | t in log :: t.id !in ExpectedIds(identity, lines)) ==>
      ExternalLedger.ReconcileJournal(log, identity, lines, true) == UnknownOutcome(identity.operationId, NotFound)
  {
    SilenceIsUnknown(log, identity, lines, true, ConstraintViolation, 0);
    if Contradicted(log, identity, lines) { ContradictionIsManual(log, identity, lines, true, ConstraintViolation, 0); }
    if forall t | t in log :: t.id !in ExpectedIds(identity, lines) {
      NewJournalIsAppended(log, identity, lines, true, ConstraintViolation, 0);
    }
  }

  /** A ledger that cannot be reached is not posted to; one that contradicts the journal is left to the operators. */
  lemma LookupStepMeans(s: System, w: nat, available: bool)
    requires w < |s.workers| && s.workers[w] == LookingUp && Sound(s.rows.lines)
    ensures var t, id := Next(s, Act(w, Lookup(available))), s.rows.op.identity.operationId;
      && t.rows == s.rows && t.log == s.log
      && (!available ==> Writes(t, w, UnknownOutcome(id, Unavailable)))
      && (available && Contradicted(s.log, s.rows.op.identity, s.rows.lines) ==> Writes(t, w, ManualOutcome(id, MappingMismatch)))
      && (available && (forall stored | stored in s.log :: stored.id !in ExpectedIds(s.rows.op.identity, s.rows.lines)) ==>
            t.workers[w] == Posting)
  {
    LookupTakesTheAnswer(s, w, available);
    LookupAnswers(s.log, s.rows.op.identity, s.rows.lines);
  }

  lemma PostTakesTheAnswer(s: System, w: nat, delivery: Delivery, admitted: bool, reason: RejectionReason, clock: Time)
    requires w < |s.workers| && s.workers[w] == Posting
    ensures var t := Next(s, Act(w, Post(delivery, admitted, reason, clock)));
      var posted := ExternalLedger.PostJournal(s.log, s.rows.op.identity, s.rows.lines, delivery,
                                               admitted && !(s.remembers && s.refused), reason, clock);
      && t.rows == s.rows && t.log == posted.log && w < |t.workers|
      && t.workers[w] == Receipting(CheckedOutcome(s, posted.outcome), Some(AUTHORITY))
  {
  }

  /** A post whose response is lost ends as unknown; a contradiction ends for the operators and appends nothing. */
  lemma PostStepMeans(s: System, w: nat, delivery: Delivery, admitted: bool, reason: RejectionReason, clock: Time)
    requires w < |s.workers| && s.workers[w] == Posting && Sound(s.rows.lines)
    ensures var t, id := Next(s, Act(w, Post(delivery, admitted, reason, clock))), s.rows.op.identity.operationId;
      && t.rows == s.rows
      && (delivery != Delivered ==> Writes(t, w, UnknownOutcome(id, UnknownReason.ResponseLost)))
      && (delivery == LostRequest ==> t.log == s.log)
      && (delivery == Delivered && Contradicted(s.log, s.rows.op.identity, s.rows.lines) ==>
            t.log == s.log && Writes(t, w, ManualOutcome(id, ConflictingReplay)))
  {
    var identity, lines, admits := s.rows.op.identity, s.rows.lines, admitted && !(s.remembers && s.refused);
    PostTakesTheAnswer(s, w, delivery, admitted, reason, clock);
    SilenceIsUnknown(s.log, identity, lines, admits, reason, clock);
    if Contradicted(s.log, identity, lines) { ContradictionIsManual(s.log, identity, lines, admits, reason, clock); }
  }

  /** An acceptance is passed on only under exactly the expected identities; any other is a mismatch. */
  lemma ClaimedAcceptance(s: System, outcome: Outcome)
    requires outcome.AcceptedOutcome?
    ensures var ids := ExpectedIds(s.rows.op.identity, s.rows.lines);
      CheckedOutcome(s, outcome)
        == if outcome.transferIds == ids && outcome.transferCount == |ids| then outcome
           else ManualOutcome(outcome.operationId, MappingMismatch)
  {
  }

  // ----- the rebuild

  /** A rebuild starts exactly for an accepted or reconciled operation of this ledger. */
  lemma RebuildStartsIff(s: System, w: nat)
    requires w < |s.workers| && s.workers[w] == Idle
    ensures var id := s.rows.op.identity;
      Next(s, Act(w, StartRebuild)) ==
        if s.rows.op.status in {Accepted, Reconciled} && id.engine == TigerBeetle && id.engineVerified
        then s.(workers := s.workers[w := RebuildLookingUp]) else s
  {
  }

  lemma RebuildLookupTakesTheAnswer(s: System, w: nat, available: bool)
    requires w < |s.workers| && s.workers[w] == RebuildLookingUp
    ensures var t := Next(s, Act(w, RebuildLookup(available)));
      var outcome := ExternalLedger.ReconcileJournal(s.log, s.rows.op.identity, s.rows.lines, available);
      && t.rows == s.rows && t.log == s.log && w < |t.workers|
      && t.workers[w] == match outcome
           case AcceptedOutcome(_, _, _, _, _) => RebuildChecking(outcome)
           case UnknownOutcome(_, _) => Idle
           case _ => Quarantining
  {
  }

  /** A ledger that cannot be reached, or does not know the journal, leaves the projection; one that contradicts it does not. */
  lemma RebuildLookupMeans(s: System, w: nat, available: bool)
    requires w < |s.workers| && s.workers[w] == RebuildLookingUp && Sound(s.rows.lines)
    ensures var t := Next(s, Act(w, RebuildLookup(available)));
      && t.rows == s.rows && t.log == s.log
      && (!available ==> t.workers[w] == Idle)
      && (available && Contradicted(s.log, s.rows.op.identity, s.rows.lines) ==> t.workers[w] == Quarantining)
      && (available && (forall stored | stored in s.log :: stored.id !in ExpectedIds(s.rows.op.identity, s.rows.lines)) ==>
            t.workers[w] == Idle)
  {
    RebuildLookupTakesTheAnswer(s, w, available);
    LookupAnswers(s.log, s.rows.op.identity, s.rows.lines);
  }

  /** What still stands of the projection is part of the expected one: no stray row, no other amounts, no other identity. */
  ghost predicate PartOfProjection(rows: Rows) {
    var pairs := PairsOf(rows.lines);
    forall p | p in rows.transfers ::
      && p < |pairs|
      && rows.transfers[p].debit == pairs[p].debit && rows.transfers[p].credit == pairs[p].credit
      && rows.transfers[p].amount == pairs[p].amount
      && rows.transfers[p].engineTransferId in {None, Some(ExpectedIds(rows.op.identity, rows.lines)[p])}
  }

  /** The ledger's answer is used exactly when it names the expected identities and the rows left are part of the projection. */
  lemma RebuildCheckMeans(s: System, w: nat, outcome: Outcome)
    requires w < |s.workers| && s.workers[w] == RebuildChecking(outcome)
    ensures Next(s, Act(w, RebuildCheck)) == s.(workers := s.workers[w :=
      if NamesExpected(s.rows, outcome) && PartOfProjection(s.rows) then RebuildCommitting(outcome) else Quarantining])
  {
  }

  /** A rebuild that meets another event under its keys is quarantined, with nothing written. */
  lemma ConflictQuarantines(s: System, w: nat, rows: Rows, outcome: Outcome, now: Time)
    requires w < |s.workers| && s.workers[w] == RebuildCommitting(outcome)
    requires Consistent(rows) && IdsAgree(rows) && rows.op.status == Accepted && NamesExpected(rows, outcome)
    requires s.rows == rows.(outbox := s.rows.outbox) && OutboxKeysUnique(s.rows.outbox)
    requires HoldsAnother(s.rows.outbox, EventAt(rows.op.identity, now))
    ensures Next(s, Act(w, RebuildCommit(now))) == s.(workers := s.workers[w := Quarantining])
  {
    ConflictingEventStops(rows, s.rows.outbox, outcome, now);
  }

  /** A quarantined projection is fenced: operation and rows await the operators, the ledger keeps what it has. */
  lemma FencingMeans(s: System, w: nat)
    requires w < |s.workers| && s.workers[w] == Quarantining && Consistent(s.rows) && s.rows.op.status != Rejected
    ensures var t := Next(s, Act(w, FenceProjection));
      && t.log == s.log && t.rows.op.status == ManualRecovery && RowsBecome(s.rows, t.rows, RowManualRecovery)
      && t.rows.journal == s.rows.journal && t.workers[w] == Idle
  {
    QuarantiningMeans(s.rows);
    FenceCommits(s, w);
  }

  lemma FenceCommits(s: System, w: nat)
    requires w < |s.workers| && s.workers[w] == Quarantining && Quarantine(s.rows).Success?
    ensures Next(s, Act(w, FenceProjection)) == s.(rows := Quarantine(s.rows).value, workers := s.workers[w := Idle])
  {
  }
}
