/**
 The transfer identities of an operation: once they are the expected ones, no writer given an honest ledger's
 answers makes them anything else.
 */
module TransferIdentities {
  import opened Wrappers
  import opened Pairing
  import opened OperationRecords
  import opened OperationTransactions
  import opened OperationInvariant

  /** Every stored transfer identity is the expected one of its position. */
  ghost predicate IdsAgreeWith(transfers: map<nat, TransferRow>, ids: seq<TransferId>) {
    forall p | p in transfers ::
      transfers[p].engineTransferId.Some? ==> p < |ids| && transfers[p].engineTransferId.value == ids[p]
  }

  ghost predicate IdsAgree(rows: Rows) {
    IdsAgreeWith(rows.transfers, ExpectedIds(rows.op.identity, rows.lines))
  }

  ghost predicate IdsPersisted(rows: Rows) {
    forall p | p in rows.transfers :: rows.transfers[p].engineTransferId.Some?
  }

  function Range(n: nat): (range: set<nat>)
    ensures forall q: nat :: q in range <==> q < n
    ensures |range| == n
  {
    if n == 0 then {} else Range(n - 1) + {n - 1}
  }

  lemma KeysAreInitial(transfers: map<nat, TransferRow>, n: nat)
    requires forall p :: p in transfers <==> 0 <= p < n
    ensures |transfers| == n
    ensures forall p | p in transfers :: Rank(transfers, p) == p
  {
    assert transfers.Keys == Range(n);
    forall p | p in transfers ensures Rank(transfers, p) == p {
      assert (set q | q in transfers && q < p) == Range(p);
    }
  }

  lemma IdentitiesAgreeWithExpected(rows: Rows)
    requires Consistent(rows) && IdsAgree(rows)
    ensures IdentitiesAgree(rows.transfers, ExpectedIds(rows.op.identity, rows.lines))
  {
    KeysAreInitial(rows.transfers, |PairsOf(rows.lines)|);
  }

  lemma FilledIds(transfers: map<nat, TransferRow>, ids: seq<TransferId>)
    requires IdsAgreeWith(transfers, ids) && forall p | p in transfers :: p < |ids|
    ensures var filled := FillMissingIds(transfers, ids);
      && TransfersUpdateAllowed(transfers, filled) && IdsAgreeWith(filled, ids)
      && forall p | p in filled :: filled[p].engineTransferId.Some?
  {
  }

  lemma PersistedIds(rows: Rows)
    requires Consistent(rows) && IdsAgree(rows)
    ensures var (committed, persisted) := PersistIdentities(rows, ExpectedIds(rows.op.identity, rows.lines));
      && persisted && committed.Success? && IdsAgree(committed.value) && IdsPersisted(committed.value)
  {
    IdentitiesAgreeWithExpected(rows);
    FilledIds(rows.transfers, ExpectedIds(rows.op.identity, rows.lines));
  }

  lemma RebuiltIds(transfers: map<nat, TransferRow>, ids: seq<TransferId>, acceptedAt: Time)
    requires IdsAgreeWith(transfers, ids) && forall p | p in transfers :: p < |ids|
    ensures var rebuilt := RebuiltRows(transfers, ids, acceptedAt);
      IdsAgreeWith(rebuilt, ids) && forall p | p in rebuilt :: rebuilt[p].engineTransferId.Some?
  {
  }

  /** What a receipt leaves of the identities, and which acceptances it records. */
  lemma ReceiptKeepsIds(rows: Rows, outcome: Outcome, observed: Option<Engine>, now: Time)
    requires Consistent(rows) && IdsAgree(rows) && outcome.operationId == rows.op.identity.operationId
    requires outcome.AcceptedOutcome? ==>
      MappingMatches(rows, outcome) && outcome.transferIds == ExpectedIds(rows.op.identity, rows.lines)
    requires WriteReceipt(rows, outcome, observed, now).Success?
    ensures var after := WriteReceipt(rows, outcome, observed, now).value;
      && IdsAgree(after) && (IdsPersisted(rows) ==> IdsPersisted(after)) && after.journal == rows.journal
      && (if rows.op.status == Reconciled then after == rows
          else if outcome.AcceptedOutcome? then
            && rows.op.status in {Submitted, Accepted}
            && after.op == AcceptedOperation(rows.op, outcome.acceptedAt, observed)
          else
            && rows.op.status != Accepted
            && after.op.status == NonAcceptedStatus(outcome))
  {
    var after := WriteReceipt(rows, outcome, observed, now).value;
    if rows.op.status != Reconciled && outcome.AcceptedOutcome? {
      assert after.transfers == WithIds(rows.transfers, outcome.transferIds);
    }
  }

  lemma {:induction false} DistinctHaveFullSet<T>(s: seq<T>)
    requires forall i, j | 0 <= i < j < |s| :: s[i] != s[j]
    ensures |set x | x in s| == |s|
  {
    if s != [] {
      DistinctHaveFullSet(s[1..]);
      assert (set x | x in s) == {s[0]} + set x | x in s[1..];
    }
  }

  lemma FinalizeKeepsIds(rows: Rows, now: Time)
    requires IdsAgree(rows) && FinalizeAccepted(rows, now).Success?
    ensures var after := FinalizeAccepted(rows, now).value;
      && (after.lines == rows.lines && after.op.identity == rows.op.identity ==> IdsAgree(after))
      && (IdsPersisted(rows) ==> IdsPersisted(after))
      && after.op.engineAcceptedAt == rows.op.engineAcceptedAt && after.op.observedEngine == rows.op.observedEngine
      && (after == rows || (rows.op.status == Accepted && after.op.status == Reconciled))
  {
  }

  /** With every row present nothing is inserted. */
  lemma NothingMissing(rows: Rows, ids: seq<TransferId>)
    requires RowsMatchPairs(rows.transfers, PairsOf(rows.lines)) && |ids| == |PairsOf(rows.lines)|
    ensures rows.(transfers := InsertMissing(rows.transfers, PairsOf(rows.lines), ids)) == rows
  {
    assert InsertMissing(rows.transfers, PairsOf(rows.lines), ids) == rows.transfers;
  }

  lemma RebuildKeepsIds(rows: Rows, outcome: Outcome, now: Time)
    requires Consistent(rows) && IdsAgree(rows) && outcome.AcceptedOutcome?
    requires outcome.transferIds == ExpectedIds(rows.op.identity, rows.lines)
    requires RebuildProjection(rows, outcome, now).Success?
    ensures var after := RebuildProjection(rows, outcome, now).value;
      && IdsAgree(after) && (IdsPersisted(rows) ==> IdsPersisted(after))
      && (if rows.op.status !in {Accepted, Reconciled} then after == rows
          else after.op.status == Reconciled && after.op.engineAcceptedAt == Some(outcome.acceptedAt)
               && after.op.observedEngine == Some(rows.op.identity.engine))
  {
    var after := RebuildProjection(rows, outcome, now).value;
    if rows.op.status in {Accepted, Reconciled} {
      RebuiltIds(rows.transfers, outcome.transferIds, outcome.acceptedAt);
      assert after.transfers == RebuiltRows(rows.transfers, outcome.transferIds, outcome.acceptedAt);
      assert after.op == RebuiltOperation(rows.op, outcome.acceptedAt, now) && after.lines == rows.lines;
    }
  }
}
