/**
 The reconciliation checkpoint: the stored operations of an engine against what its ledger answers.  A verified
 checkpoint means the two agree in every part, and an intact book with an honest ledger is always verified.
 */
module Checkpoint {
  import opened Wrappers
  import opened Pairing
  import opened JournalValidation
  import opened OperationRecords
  import opened OperationInvariant
  import opened TransferIdentities
  import ExternalLedger
  import Protocol
  import opened ProtocolSafety
  import opened FactSnapshots
  import opened PostgresLedger
  import opened PostgresLedgerSafety
  import opened LedgerViews

  /** What the ledger answered: one outcome per operation and a balance per account it knows. */
  datatype Answers = Answers(outcomes: seq<Outcome>, balances: map<string, Balance>)

  // ----- the positions of an operation's rows, in order

  ghost function Beyond(positions: set<nat>): (bound: nat)
    ensures forall p | p in positions :: p < bound
  {
    if positions == {} then 0
    else
      var p :| p in positions;
      var rest := Beyond(positions - {p});
      assert forall q | q in positions :: q == p || q in positions - {p};
      if p < rest then rest else p + 1
  }

  function Below(positions: set<nat>, bound: nat): (sorted: seq<nat>)
    ensures forall p :: p in sorted <==> p in positions && p < bound
  {
    if bound == 0 then []
    else Below(positions, bound - 1) + (if bound - 1 in positions then [bound - 1] else [])
  }

  /** The positions that have a row, ascending. */
  ghost function Sorted(positions: set<nat>): (sorted: seq<nat>)
    ensures forall p :: p in sorted <==> p in positions
  {
    Below(positions, Beyond(positions))
  }

  lemma {:induction false} BelowInitial(positions: set<nat>, n: nat, bound: nat)
    requires forall p :: p in positions <==> 0 <= p < n
    ensures |Below(positions, bound)| == (if bound < n then bound else n)
    ensures forall k | 0 <= k < |Below(positions, bound)| :: Below(positions, bound)[k] == k
  {
    if bound > 0 { BelowInitial(positions, n, bound - 1); }
  }

  /** Positions without gaps are their own order. */
  lemma SortedInitial(positions: set<nat>, n: nat)
    requires forall p :: p in positions <==> 0 <= p < n
    ensures |Sorted(positions)| == n && forall k | 0 <= k < n :: Sorted(positions)[k] == k
  {
    BelowInitial(positions, n, Beyond(positions));
    assert n > 0 ==> n - 1 in positions;
  }

  // ----- the facts of one operation

  function NameAt(stored: Option<TransferId>, ids: seq<TransferId>, position: nat): TransferName {
    if stored.Some? then Known(stored.value) else if position < |ids| then Known(ids[position]) else Missing(position)
  }

  function SourceOperation(rows: Rows): OperationFact {
    OperationFact(rows.op.identity.operationId, rows.op.status, rows.op.identity.currency, rows.op.identity.mappingVersion)
  }

  function TargetOperation(rows: Rows, outcome: Outcome): OperationFact
    requires outcome.AcceptedOutcome?
  {
    OperationFact(outcome.operationId, if rows.op.status == Accepted then Accepted else Reconciled,
                  rows.op.identity.currency, outcome.mappingVersion)
  }

  function StoredName(rows: Rows, p: nat): TransferName
    requires p in rows.transfers
  {
    NameAt(rows.transfers[p].engineTransferId, ExpectedIds(rows.op.identity, rows.lines), p)
  }

  function SourceTransfer(rows: Rows, p: nat): TransferFact
    requires p in rows.transfers
  {
    var row, id := rows.transfers[p], rows.op.identity;
    TransferFact(id.operationId, p, row.status, StoredName(rows, p), row.debit, row.credit, row.amount, id.currency, id.mappingVersion)
  }

  function AnsweredName(outcome: Outcome, p: nat): TransferName
    requires outcome.AcceptedOutcome?
  {
    NameAt(None, outcome.transferIds, p)
  }

  function TargetTransfer(rows: Rows, outcome: Outcome, p: nat): TransferFact
    requires outcome.AcceptedOutcome? && p < |PairsOf(rows.lines)|
  {
    var pair := PairsOf(rows.lines)[p];
    TransferFact(outcome.operationId, p, RowAccepted, AnsweredName(outcome, p), pair.debit, pair.credit, pair.amount,
                 rows.op.identity.currency, outcome.mappingVersion)
  }

  ghost function SourceTransfers(rows: Rows): seq<TransferFact> {
    var positions := Sorted(rows.transfers.Keys);
    seq(|positions|, k requires 0 <= k < |positions| => assert positions[k] in positions; SourceTransfer(rows, positions[k]))
  }

  function TargetTransfers(rows: Rows, outcome: Outcome): seq<TransferFact> {
    if outcome.AcceptedOutcome?
    then seq(|PairsOf(rows.lines)|, p requires 0 <= p < |PairsOf(rows.lines)| => TargetTransfer(rows, outcome, p)) else []
  }

  ghost function SourceProjection(rows: Rows): ProjectionFact {
    var positions := Sorted(rows.transfers.Keys);
    ProjectionFact(rows.op.identity.operationId, rows.journal.status,
      seq(|positions|, k requires 0 <= k < |positions| => assert positions[k] in positions; StoredName(rows, positions[k])))
  }

  function TargetProjection(rows: Rows, outcome: Outcome): ProjectionFact
    requires outcome.AcceptedOutcome?
  {
    ProjectionFact(outcome.operationId, PostedStatus(rows.op.identity),
      seq(|outcome.transferIds|, k requires 0 <= k < |outcome.transferIds| => Known(outcome.transferIds[k])))
  }

  /** A ledger transfer nobody expected. */
  predicate HasOrphan(rows: Rows, outcome: Outcome) {
    && outcome.AcceptedOutcome?
    && var expected := ExpectedIds(rows.op.identity, rows.lines);
       exists k | 0 <= k < |outcome.transferIds| ::
         && outcome.transferIds[k] !in expected
         && (k < |PairsOf(rows.lines)| || outcome.transferCount != |expected| || outcome.transferIds != expected)
  }

  /** An orphan is any identity the ledger names that the operation does not expect. */
  lemma OrphanMeans(rows: Rows, outcome: Outcome)
    requires outcome.AcceptedOutcome?
    ensures HasOrphan(rows, outcome) <==> exists id :: id in outcome.transferIds && id !in ExpectedIds(rows.op.identity, rows.lines)
  {
    if id :| id in outcome.transferIds && id !in ExpectedIds(rows.op.identity, rows.lines) {
      var k :| 0 <= k < |outcome.transferIds| && outcome.transferIds[k] == id;
      assert outcome.transferIds[k] !in ExpectedIds(rows.op.identity, rows.lines);
    }
  }

  // ----- the two snapshots

  function Flatten<T>(parts: seq<seq<T>>): seq<T> {
    if parts == [] then [] else Flatten(parts[..|parts| - 1]) + parts[|parts| - 1]
  }

  lemma {:induction false} FlattenHas<T>(parts: seq<seq<T>>, fact: T)
    ensures fact in Flatten(parts) <==> exists i :: 0 <= i < |parts| && fact in parts[i]
  {
    if parts != [] {
      var init := parts[..|parts| - 1];
      FlattenHas(init, fact);
      if i :| 0 <= i < |init| && fact in init[i] { assert parts[i] == init[i]; }
      if i :| 0 <= i < |parts| && fact in parts[i] && i < |init| { assert init[i] == parts[i]; }
    }
  }

  /** What all journals of the scope put on an account. */
  function AccountTotal(book: seq<Rows>, account: string): Balance {
    Sum(seq(|book|, i requires 0 <= i < |book| => LinesBalance(account, book[i].lines)))
  }

  function AllLines(book: seq<Rows>): seq<Line> {
    if book == [] then [] else AllLines(book[..|book| - 1]) + book[|book| - 1].lines
  }

  function SourceBalance(book: seq<Rows>, account: string, currency: string, mappingVersion: nat): BalanceFact {
    BalanceFact(account, currency, mappingVersion, AccountTotal(book, account).debits, AccountTotal(book, account).credits)
  }

  function TargetOperations(rows: Rows, outcome: Outcome): seq<OperationFact> {
    if outcome.AcceptedOutcome? then [TargetOperation(rows, outcome)] else []
  }

  function TargetProjections(rows: Rows, outcome: Outcome): seq<ProjectionFact> {
    if outcome.AcceptedOutcome? then [TargetProjection(rows, outcome)] else []
  }

  function TargetBalances(account: string, currency: string, mappingVersion: nat, balances: map<string, Balance>): seq<BalanceFact> {
    if account in balances
    then [BalanceFact(account, currency, mappingVersion, balances[account].debits, balances[account].credits)] else []
  }

  /** The facts of each operation, and of each account, that go into one snapshot. */
  datatype Parts = Parts(operations: seq<seq<OperationFact>>, transfers: seq<seq<TransferFact>>,
                         balances: seq<seq<BalanceFact>>, projections: seq<seq<ProjectionFact>>)

  ghost function SourceParts(book: seq<Rows>, currency: string, mappingVersion: nat): Parts {
    var accounts := DistinctAccounts(AllLines(book));
    Parts(
      seq(|book|, i requires 0 <= i < |book| => [SourceOperation(book[i])]),
      seq(|book|, i requires 0 <= i < |book| => SourceTransfers(book[i])),
      seq(|accounts|, k requires 0 <= k < |accounts| => [SourceBalance(book, accounts[k], currency, mappingVersion)]),
      seq(|book|, i requires 0 <= i < |book| => [SourceProjection(book[i])]))
  }

  ghost function TargetParts(book: seq<Rows>, answers: Answers, currency: string, mappingVersion: nat): Parts
    requires |answers.outcomes| == |book|
  {
    var accounts := DistinctAccounts(AllLines(book));
    Parts(
      seq(|book|, i requires 0 <= i < |book| => TargetOperations(book[i], answers.outcomes[i])),
      seq(|book|, i requires 0 <= i < |book| => TargetTransfers(book[i], answers.outcomes[i])),
      seq(|accounts|, k requires 0 <= k < |accounts| => TargetBalances(accounts[k], currency, mappingVersion, answers.balances)),
      seq(|book|, i requires 0 <= i < |book| => TargetProjections(book[i], answers.outcomes[i])))
  }

  function Assemble(parts: Parts): Snapshot {
    Snapshot(Flatten(parts.operations), Flatten(parts.transfers), Flatten(parts.balances), Flatten(parts.projections))
  }

  /** The checkpoint's verdict: no mismatch and no orphan. */
  ghost predicate Verified(book: seq<Rows>, answers: Answers, currency: string, mappingVersion: nat)
    requires |answers.outcomes| == |book|
  {
    && SnapshotsAgree(Assemble(SourceParts(book, currency, mappingVersion)),
                      Assemble(TargetParts(book, answers, currency, mappingVersion)))
    && NoOrphans(book, answers)
  }

  // ----- what agreement means, fact by fact

  /** The operations in scope: distinct, in the checkpoint's currency and mapping version, and not rejected. */
  ghost predicate InScope(book: seq<Rows>, currency: string, mappingVersion: nat) {
    && (forall i, j | 0 <= i < |book| && 0 <= j < |book| ::
          book[i].op.identity.operationId == book[j].op.identity.operationId ==> i == j)
    && (forall i | 0 <= i < |book| ::
          && book[i].op.identity.currency == currency && book[i].op.identity.mappingVersion == mappingVersion
          && book[i].op.status != Rejected)
  }

  /** The ledger names the operation it was asked about. */
  ghost predicate Echoes(book: seq<Rows>, answers: Answers) {
    && |answers.outcomes| == |book|
    && forall i | 0 <= i < |book| :: answers.outcomes[i].operationId == book[i].op.identity.operationId
  }

  /** The ledger's balance of the account is the line total. */
  ghost predicate AccountAgrees(book: seq<Rows>, answers: Answers, account: string) {
    account in answers.balances && answers.balances[account] == AccountTotal(book, account)
  }

  /** One operation agrees with its answer. */
  ghost predicate OperationAgrees(rows: Rows, outcome: Outcome) {
    && rows.op.status in {Accepted, Reconciled}
    && outcome.AcceptedOutcome? && outcome.mappingVersion == rows.op.identity.mappingVersion
  }

  /** The rows are exactly the ledger's pairs, accepted, under the identities the ledger reports. */
  ghost predicate TransfersAgree(rows: Rows, outcome: Outcome) {
    var pairs := PairsOf(rows.lines);
    && outcome.AcceptedOutcome?
    && (forall p :: p in rows.transfers <==> 0 <= p < |pairs|)
    && forall p | 0 <= p < |pairs| ::
         && rows.transfers[p].status == RowAccepted
         && rows.transfers[p].debit == pairs[p].debit && rows.transfers[p].credit == pairs[p].credit
         && rows.transfers[p].amount == pairs[p].amount
         && StoredName(rows, p) == AnsweredName(outcome, p)
  }

  /** The journal stands as the operation's type requires and lists the ledger's identities. */
  ghost predicate ProjectionAgrees(rows: Rows, outcome: Outcome) {
    outcome.AcceptedOutcome? && SourceProjection(rows) == TargetProjection(rows, outcome).(operationId := rows.op.identity.operationId)
  }

  ghost predicate BalancesAgree(book: seq<Rows>, answers: Answers) {
    forall line | line in AllLines(book) :: AccountAgrees(book, answers, line.account)
  }

  ghost predicate OperationsAgree(book: seq<Rows>, answers: Answers)
    requires |answers.outcomes| == |book|
  {
    forall i | 0 <= i < |book| :: OperationAgrees(book[i], answers.outcomes[i])
  }

  ghost predicate AllTransfersAgree(book: seq<Rows>, answers: Answers)
    requires |answers.outcomes| == |book|
  {
    forall i | 0 <= i < |book| :: TransfersAgree(book[i], answers.outcomes[i])
  }

  ghost predicate ProjectionsAgree(book: seq<Rows>, answers: Answers)
    requires |answers.outcomes| == |book|
  {
    forall i | 0 <= i < |book| :: ProjectionAgrees(book[i], answers.outcomes[i])
  }

  ghost predicate NoOrphans(book: seq<Rows>, answers: Answers)
    requires |answers.outcomes| == |book|
  {
    forall i | 0 <= i < |book| :: !HasOrphan(book[i], answers.outcomes[i])
  }

  // ----- facts whose key names their owner

  /** Every fact of part `i` belongs to `ids[i]`. */
  ghost predicate Owned<O, K, F>(parts: seq<seq<F>>, key: F -> K, owner: K -> O, ids: seq<O>) {
    && |parts| == |ids|
    && forall i, fact | 0 <= i < |parts| && fact in parts[i] :: owner(key(fact)) == ids[i]
  }

  ghost predicate DistinctIds<O>(ids: seq<O>) {
    forall i, j | 0 <= i < |ids| && 0 <= j < |ids| :: ids[i] == ids[j] ==> i == j
  }

  /** A fact of one side that the other side has is in the same part there. */
  lemma SamePart<O, K, F>(left: seq<seq<F>>, right: seq<seq<F>>, key: F -> K, owner: K -> O, ids: seq<O>, i: nat, fact: F)
    requires Owned(left, key, owner, ids) && Owned(right, key, owner, ids) && DistinctIds(ids)
    requires i < |ids| && fact in left[i] && fact in Flatten(right)
    ensures fact in right[i]
  {
    FlattenHas(right, fact);
    var j :| 0 <= j < |right| && fact in right[j];
    assert owner(key(fact)) == ids[i] && owner(key(fact)) == ids[j];
  }

  lemma InFlatten<F>(parts: seq<seq<F>>, i: nat)
    requires i < |parts|
    ensures forall fact | fact in parts[i] :: fact in Flatten(parts)
  {
    forall fact | fact in parts[i] ensures fact in Flatten(parts) { FlattenHas(parts, fact); }
  }

  lemma SameFactsByPart<O, K, F>(left: seq<seq<F>>, right: seq<seq<F>>, key: F -> K, owner: K -> O, ids: seq<O>, i: nat)
    requires Owned(left, key, owner, ids) && Owned(right, key, owner, ids) && DistinctIds(ids)
    requires SameFacts(Flatten(left), Flatten(right)) && i < |ids|
    ensures SameFacts(left[i], right[i])
  {
    InFlatten(left, i);
    InFlatten(right, i);
    forall fact | fact in left[i] ensures fact in right[i] { SamePart(left, right, key, owner, ids, i, fact); }
    forall fact | fact in right[i] ensures fact in left[i] { SamePart(right, left, key, owner, ids, i, fact); }
  }

  lemma PartsWithin<F>(left: seq<seq<F>>, right: seq<seq<F>>, fact: F)
    requires |left| == |right| && (forall i | 0 <= i < |left| :: SameFacts(left[i], right[i])) && fact in Flatten(left)
    ensures fact in Flatten(right)
  {
    FlattenHas(left, fact);
    var i :| 0 <= i < |left| && fact in left[i];
    assert SameFacts(left[i], right[i]);
    FlattenHas(right, fact);
  }

  /** Flattened facts are the same exactly when they are the same part by part. */
  lemma PartsSame<O, K, F>(left: seq<seq<F>>, right: seq<seq<F>>, key: F -> K, owner: K -> O, ids: seq<O>)
    requires Owned(left, key, owner, ids) && Owned(right, key, owner, ids) && DistinctIds(ids)
    ensures SameFacts(Flatten(left), Flatten(right)) <==> forall i | 0 <= i < |ids| :: SameFacts(left[i], right[i])
  {
    if SameFacts(Flatten(left), Flatten(right)) {
      forall i | 0 <= i < |ids| ensures SameFacts(left[i], right[i]) { SameFactsByPart(left, right, key, owner, ids, i); }
    }
    if forall i | 0 <= i < |ids| :: SameFacts(left[i], right[i]) {
      assert forall i | 0 <= i < |ids| :: SameFacts(right[i], left[i]) by {
        forall i | 0 <= i < |ids| ensures SameFacts(right[i], left[i]) { assert SameFacts(left[i], right[i]); }
      }
      forall fact | fact in Flatten(left) ensures fact in Flatten(right) { PartsWithin(left, right, fact); }
      forall fact | fact in Flatten(right) ensures fact in Flatten(left) { PartsWithin(right, left, fact); }
    }
  }

  /** Keys that name the owner stay functional when parts are flattened. */
  lemma PartsFunctional<O, K, F>(parts: seq<seq<F>>, key: F -> K, owner: K -> O, ids: seq<O>)
    requires Owned(parts, key, owner, ids) && DistinctIds(ids)
    requires forall i | 0 <= i < |parts| :: Functional(parts[i], key)
    ensures Functional(Flatten(parts), key)
  {
    var facts := Flatten(parts);
    forall x, y | 0 <= x < |facts| && 0 <= y < |facts| ensures key(facts[x]) == key(facts[y]) ==> facts[x] == facts[y] {
      if key(facts[x]) == key(facts[y]) { SameKeySameFact(parts, key, owner, ids, facts[x], facts[y]); }
    }
  }

  lemma SameKeySameFact<O, K, F>(parts: seq<seq<F>>, key: F -> K, owner: K -> O, ids: seq<O>, f: F, g: F)
    requires Owned(parts, key, owner, ids) && DistinctIds(ids) && f in Flatten(parts) && g in Flatten(parts) && key(f) == key(g)
    requires forall i | 0 <= i < |parts| :: Functional(parts[i], key)
    ensures f == g
  {
    FlattenHas(parts, f);
    FlattenHas(parts, g);
    var i :| 0 <= i < |parts| && f in parts[i];
    var j :| 0 <= j < |parts| && g in parts[j];
    assert owner(key(f)) == ids[i] && owner(key(g)) == ids[j];
    assert Functional(parts[i], key);
    var a :| 0 <= a < |parts[i]| && parts[i][a] == f;
    var b :| 0 <= b < |parts[i]| && parts[i][b] == g;
  }

  /** Comparing keyed facts compares the parts. */
  lemma ComparesParts<O, K, F>(left: seq<seq<F>>, right: seq<seq<F>>, key: F -> K, owner: K -> O, ids: seq<O>)
    requires Owned(left, key, owner, ids) && Owned(right, key, owner, ids) && DistinctIds(ids)
    requires forall i | 0 <= i < |ids| :: Functional(left[i], key) && Functional(right[i], key)
    ensures Keyed(Flatten(left), key) == Keyed(Flatten(right), key) <==> forall i | 0 <= i < |ids| :: SameFacts(left[i], right[i])
  {
    PartsFunctional(left, key, owner, ids);
    PartsFunctional(right, key, owner, ids);
    KeyedEqualIffSameFacts(Flatten(left), Flatten(right), key);
    PartsSame(left, right, key, owner, ids);
  }

  // ----- part by part

  function Ids(book: seq<Rows>): seq<string> {
    seq(|book|, i requires 0 <= i < |book| => book[i].op.identity.operationId)
  }

  function Itself(id: string): string { id }

  function OperationOfTransfer(key: TransferKey): string { key.operationId }

  function AccountOfBalance(key: BalanceKey): string { key.account }

  lemma OperationPart(rows: Rows, outcome: Outcome)
    requires rows.op.status != Rejected && outcome.operationId == rows.op.identity.operationId
    ensures SameFacts([SourceOperation(rows)], TargetOperations(rows, outcome)) <==> OperationAgrees(rows, outcome)
  {
    assert SourceOperation(rows) in [SourceOperation(rows)];
    if outcome.AcceptedOutcome? {
      assert TargetOperations(rows, outcome) == [TargetOperation(rows, outcome)];
    } else {
      assert TargetOperations(rows, outcome) == [];
    }
  }

  lemma ProjectionPart(rows: Rows, outcome: Outcome)
    requires outcome.AcceptedOutcome? && outcome.operationId == rows.op.identity.operationId
    ensures SameFacts([SourceProjection(rows)], TargetProjections(rows, outcome)) <==> ProjectionAgrees(rows, outcome)
  {
    assert SourceProjection(rows) in [SourceProjection(rows)];
    assert TargetProjections(rows, outcome) == [TargetProjection(rows, outcome)];
    assert TargetProjection(rows, outcome).(operationId := rows.op.identity.operationId) == TargetProjection(rows, outcome);
  }

  lemma SourceTransferFacts(rows: Rows, fact: TransferFact)
    ensures fact in SourceTransfers(rows) <==> exists p :: p in rows.transfers && fact == SourceTransfer(rows, p)
  {
    var positions := Sorted(rows.transfers.Keys);
    if p :| p in rows.transfers && fact == SourceTransfer(rows, p) {
      assert p in positions;
      var k :| 0 <= k < |positions| && positions[k] == p;
      assert SourceTransfers(rows)[k] == fact;
    }
    if fact in SourceTransfers(rows) {
      var k :| 0 <= k < |positions| && SourceTransfers(rows)[k] == fact;
      assert positions[k] in positions;
    }
  }

  lemma TargetTransferFacts(rows: Rows, outcome: Outcome, fact: TransferFact)
    requires outcome.AcceptedOutcome?
    ensures fact in TargetTransfers(rows, outcome)
       <==> exists p :: 0 <= p < |PairsOf(rows.lines)| && fact == TargetTransfer(rows, outcome, p)
  {
    if p :| 0 <= p < |PairsOf(rows.lines)| && fact == TargetTransfer(rows, outcome, p) {
      assert TargetTransfers(rows, outcome)[p] == fact;
    }
  }

  lemma TransferPart(rows: Rows, outcome: Outcome)
    requires OperationAgrees(rows, outcome) && outcome.operationId == rows.op.identity.operationId
    ensures SameFacts(SourceTransfers(rows), TargetTransfers(rows, outcome)) <==> TransfersAgree(rows, outcome)
  {
    if SameFacts(SourceTransfers(rows), TargetTransfers(rows, outcome)) { SameTransfersAgree(rows, outcome); }
    if TransfersAgree(rows, outcome) { AgreeingTransfersSame(rows, outcome); }
  }

  lemma SameTransfersAgree(rows: Rows, outcome: Outcome)
    requires OperationAgrees(rows, outcome) && SameFacts(SourceTransfers(rows), TargetTransfers(rows, outcome))
    ensures TransfersAgree(rows, outcome)
  {
    var pairs := PairsOf(rows.lines);
    forall p | p in rows.transfers ensures p < |pairs| && SourceTransfer(rows, p) == TargetTransfer(rows, outcome, p) {
      SourceTransferFacts(rows, SourceTransfer(rows, p));
      TargetTransferFacts(rows, outcome, SourceTransfer(rows, p));
    }
    forall p | 0 <= p < |pairs| ensures p in rows.transfers {
      TargetTransferFacts(rows, outcome, TargetTransfer(rows, outcome, p));
      SourceTransferFacts(rows, TargetTransfer(rows, outcome, p));
    }
  }

  lemma AgreeingTransfersSame(rows: Rows, outcome: Outcome)
    requires OperationAgrees(rows, outcome) && outcome.operationId == rows.op.identity.operationId && TransfersAgree(rows, outcome)
    ensures SameFacts(SourceTransfers(rows), TargetTransfers(rows, outcome))
  {
    assert forall p | p in rows.transfers :: p < |PairsOf(rows.lines)| && SourceTransfer(rows, p) == TargetTransfer(rows, outcome, p);
    forall fact | fact in SourceTransfers(rows) ensures fact in TargetTransfers(rows, outcome) {
      SourceTransferFacts(rows, fact);
      TargetTransferFacts(rows, outcome, fact);
    }
    forall fact | fact in TargetTransfers(rows, outcome) ensures fact in SourceTransfers(rows) {
      TargetTransferFacts(rows, outcome, fact);
      SourceTransferFacts(rows, fact);
    }
  }

  lemma SourceTransfersOwned(rows: Rows)
    ensures forall fact | fact in SourceTransfers(rows) :: fact.operationId == rows.op.identity.operationId
    ensures Functional(SourceTransfers(rows), TransferKeyOf)
  {
    forall fact | fact in SourceTransfers(rows)
      ensures fact.operationId == rows.op.identity.operationId && fact.position in rows.transfers
           && fact == SourceTransfer(rows, fact.position)
    {
      SourceTransferFacts(rows, fact);
    }
  }

  lemma TargetTransfersOwned(rows: Rows, outcome: Outcome)
    requires outcome.operationId == rows.op.identity.operationId
    ensures forall fact | fact in TargetTransfers(rows, outcome) :: fact.operationId == rows.op.identity.operationId
    ensures Functional(TargetTransfers(rows, outcome), TransferKeyOf)
  {
  }

  lemma {:induction false} DistinctAccountsAreDistinct(lines: seq<Line>)
    ensures DistinctIds(DistinctAccounts(lines))
    decreases |lines|
  {
    if lines != [] { DistinctAccountsAreDistinct(lines[..|lines| - 1]); }
  }

  // ----- the four comparisons

  lemma ComparesOperations(book: seq<Rows>, answers: Answers, currency: string, mappingVersion: nat)
    requires InScope(book, currency, mappingVersion) && Echoes(book, answers)
    ensures Keyed(Flatten(SourceParts(book, currency, mappingVersion).operations), OperationKey)
         == Keyed(Flatten(TargetParts(book, answers, currency, mappingVersion).operations), OperationKey)
       <==> OperationsAgree(book, answers)
  {
    var left, right := SourceParts(book, currency, mappingVersion).operations, TargetParts(book, answers, currency, mappingVersion).operations;
    ComparesParts(left, right, OperationKey, Itself, Ids(book));
    forall i | 0 <= i < |book| ensures SameFacts(left[i], right[i]) <==> OperationAgrees(book[i], answers.outcomes[i]) {
      OperationPart(book[i], answers.outcomes[i]);
    }
  }

  lemma ComparesTransfers(book: seq<Rows>, answers: Answers, currency: string, mappingVersion: nat)
    requires InScope(book, currency, mappingVersion) && Echoes(book, answers)
    requires OperationsAgree(book, answers)
    ensures Keyed(Flatten(SourceParts(book, currency, mappingVersion).transfers), TransferKeyOf)
         == Keyed(Flatten(TargetParts(book, answers, currency, mappingVersion).transfers), TransferKeyOf)
       <==> AllTransfersAgree(book, answers)
  {
    var left, right := SourceParts(book, currency, mappingVersion).transfers, TargetParts(book, answers, currency, mappingVersion).transfers;
    forall i | 0 <= i < |book|
      ensures Functional(left[i], TransferKeyOf) && Functional(right[i], TransferKeyOf)
      ensures forall fact | fact in left[i] :: OperationOfTransfer(TransferKeyOf(fact)) == Ids(book)[i]
      ensures forall fact | fact in right[i] :: OperationOfTransfer(TransferKeyOf(fact)) == Ids(book)[i]
    {
      SourceTransfersOwned(book[i]);
      TargetTransfersOwned(book[i], answers.outcomes[i]);
    }
    ComparesParts(left, right, TransferKeyOf, OperationOfTransfer, Ids(book));
    forall i | 0 <= i < |book| ensures SameFacts(left[i], right[i]) <==> TransfersAgree(book[i], answers.outcomes[i]) {
      TransferPart(book[i], answers.outcomes[i]);
    }
  }

  lemma ComparesProjections(book: seq<Rows>, answers: Answers, currency: string, mappingVersion: nat)
    requires InScope(book, currency, mappingVersion) && Echoes(book, answers)
    requires OperationsAgree(book, answers)
    ensures Keyed(Flatten(SourceParts(book, currency, mappingVersion).projections), ProjectionKey)
         == Keyed(Flatten(TargetParts(book, answers, currency, mappingVersion).projections), ProjectionKey)
       <==> ProjectionsAgree(book, answers)
  {
    var left, right := SourceParts(book, currency, mappingVersion).projections, TargetParts(book, answers, currency, mappingVersion).projections;
    ComparesParts(left, right, ProjectionKey, Itself, Ids(book));
    forall i | 0 <= i < |book| ensures SameFacts(left[i], right[i]) <==> ProjectionAgrees(book[i], answers.outcomes[i]) {
      ProjectionPart(book[i], answers.outcomes[i]);
    }
  }

  lemma BalancePart(book: seq<Rows>, answers: Answers, account: string, currency: string, mappingVersion: nat)
    ensures SameFacts([SourceBalance(book, account, currency, mappingVersion)],
                      TargetBalances(account, currency, mappingVersion, answers.balances))
       <==> AccountAgrees(book, answers, account)
  {
    assert SourceBalance(book, account, currency, mappingVersion) in [SourceBalance(book, account, currency, mappingVersion)];
  }

  lemma ComparesBalances(book: seq<Rows>, answers: Answers, currency: string, mappingVersion: nat)
    requires |answers.outcomes| == |book|
    ensures Keyed(Flatten(SourceParts(book, currency, mappingVersion).balances), BalanceKeyOf)
         == Keyed(Flatten(TargetParts(book, answers, currency, mappingVersion).balances), BalanceKeyOf)
       <==> BalancesAgree(book, answers)
  {
    var left, right := SourceParts(book, currency, mappingVersion).balances, TargetParts(book, answers, currency, mappingVersion).balances;
    var accounts := DistinctAccounts(AllLines(book));
    DistinctAccountsAreDistinct(AllLines(book));
    ComparesParts(left, right, BalanceKeyOf, AccountOfBalance, accounts);
    forall k | 0 <= k < |accounts| ensures SameFacts(left[k], right[k]) <==> AccountAgrees(book, answers, accounts[k]) {
      BalancePart(book, answers, accounts[k], currency, mappingVersion);
    }
    AccountsOfLines(book, answers, AllLines(book), accounts);
  }

  lemma AccountsOfLines(book: seq<Rows>, answers: Answers, lines: seq<Line>, accounts: seq<string>)
    requires forall line | line in lines :: line.account in accounts
    requires forall account | account in accounts :: exists line :: line in lines && line.account == account
    ensures (forall k | 0 <= k < |accounts| :: AccountAgrees(book, answers, accounts[k]))
       <==> (forall line | line in lines :: AccountAgrees(book, answers, line.account))
  {
    if forall k | 0 <= k < |accounts| :: AccountAgrees(book, answers, accounts[k]) {
      forall line | line in lines ensures AccountAgrees(book, answers, line.account) {
        var k :| 0 <= k < |accounts| && accounts[k] == line.account;
      }
    }
    if forall line | line in lines :: AccountAgrees(book, answers, line.account) {
      forall k | 0 <= k < |accounts| ensures AccountAgrees(book, answers, accounts[k]) {
        assert accounts[k] in accounts;
      }
    }
  }

  // ----- the verdict

  lemma VerdictByParts(book: seq<Rows>, answers: Answers, currency: string, mappingVersion: nat)
    requires InScope(book, currency, mappingVersion) && Echoes(book, answers)
    ensures SnapshotsAgree(Assemble(SourceParts(book, currency, mappingVersion)),
                           Assemble(TargetParts(book, answers, currency, mappingVersion)))
       <==> OperationsAgree(book, answers) && AllTransfersAgree(book, answers) && ProjectionsAgree(book, answers)
            && BalancesAgree(book, answers)
  {
    ComparesOperations(book, answers, currency, mappingVersion);
    ComparesBalances(book, answers, currency, mappingVersion);
    if OperationsAgree(book, answers) {
      ComparesTransfers(book, answers, currency, mappingVersion);
      ComparesProjections(book, answers, currency, mappingVersion);
    }
  }

  /**
   With a ledger that names the operation it was asked about, the checkpoint is verified exactly when every operation
   in scope is accepted or reconciled and confirmed by the ledger, its transfer rows and journal are what the ledger
   reports, every account's line total is the ledger's balance, and no transfer is an orphan.
   */
  lemma VerifiedIffEverythingAgrees(book: seq<Rows>, answers: Answers, currency: string, mappingVersion: nat)
    requires InScope(book, currency, mappingVersion) && Echoes(book, answers)
    ensures Verified(book, answers, currency, mappingVersion)
       <==> OperationsAgree(book, answers) && AllTransfersAgree(book, answers) && ProjectionsAgree(book, answers)
            && BalancesAgree(book, answers) && NoOrphans(book, answers)
  {
    VerdictByParts(book, answers, currency, mappingVersion);
  }

  /**
   Verified means posted as expected: every stored identity is the ledger's and one of the expected ones, and the
   expected one of its position when the record's identities agree with their positions.
   */
  lemma VerifiedMeansPosted(book: seq<Rows>, answers: Answers, currency: string, mappingVersion: nat, i: nat, p: nat)
    requires InScope(book, currency, mappingVersion) && Echoes(book, answers) && Verified(book, answers, currency, mappingVersion)
    requires i < |book| && p in book[i].transfers
    ensures var rows, outcome := book[i], answers.outcomes[i];
      && rows.op.status in {Accepted, Reconciled} && rows.journal.status == PostedStatus(rows.op.identity)
      && outcome.AcceptedOutcome? && p < |outcome.transferIds| && rows.transfers[p].status == RowAccepted
      && outcome.transferIds[p] in ExpectedIds(rows.op.identity, rows.lines) && p < |PairsOf(rows.lines)|
      && (IdsAgree(rows) ==> outcome.transferIds[p] == ExpectedIds(rows.op.identity, rows.lines)[p])
      && (rows.transfers[p].engineTransferId.Some? ==> rows.transfers[p].engineTransferId.value == outcome.transferIds[p])
  {
    VerifiedIffEverythingAgrees(book, answers, currency, mappingVersion);
    var rows, outcome := book[i], answers.outcomes[i];
    assert OperationAgrees(rows, outcome) && TransfersAgree(rows, outcome) && ProjectionAgrees(rows, outcome);
    assert !HasOrphan(rows, outcome);
    assert StoredName(rows, p) == AnsweredName(outcome, p);
  }

  // ----- no false alarm

  /** An intact reconciled record, and an answer that confirms it under its expected identities. */
  ghost predicate Intact(rows: Rows, outcome: Outcome) {
    && Consistent(rows) && IdsAgree(rows) && rows.op.status == Reconciled
    && outcome.AcceptedOutcome? && outcome.operationId == rows.op.identity.operationId
    && outcome.mappingVersion == rows.op.identity.mappingVersion
    && outcome.transferIds == ExpectedIds(rows.op.identity, rows.lines)
    && outcome.transferCount == |ExpectedIds(rows.op.identity, rows.lines)|
  }

  lemma IntactNames(rows: Rows, outcome: Outcome)
    requires Intact(rows, outcome)
    ensures forall p | p in rows.transfers :: StoredName(rows, p) == AnsweredName(outcome, p) == Known(outcome.transferIds[p])
  {
  }

  lemma IntactAgrees(rows: Rows, outcome: Outcome)
    requires Intact(rows, outcome)
    ensures OperationAgrees(rows, outcome) && TransfersAgree(rows, outcome) && ProjectionAgrees(rows, outcome) && !HasOrphan(rows, outcome)
  {
    IntactNames(rows, outcome);
    SortedInitial(rows.transfers.Keys, |PairsOf(rows.lines)|);
    assert SourceProjection(rows).names == TargetProjection(rows, outcome).names;
  }

  ghost predicate AllIntact(book: seq<Rows>, answers: Answers)
    requires |answers.outcomes| == |book|
  {
    forall i | 0 <= i < |book| :: Intact(book[i], answers.outcomes[i])
  }

  lemma IntactBookAgrees(book: seq<Rows>, answers: Answers)
    requires |answers.outcomes| == |book| && AllIntact(book, answers)
    ensures Echoes(book, answers) && OperationsAgree(book, answers) && AllTransfersAgree(book, answers)
    ensures ProjectionsAgree(book, answers) && NoOrphans(book, answers)
  {
    forall i | 0 <= i < |book|
      ensures answers.outcomes[i].operationId == book[i].op.identity.operationId
      ensures OperationAgrees(book[i], answers.outcomes[i]) && TransfersAgree(book[i], answers.outcomes[i])
      ensures ProjectionAgrees(book[i], answers.outcomes[i]) && !HasOrphan(book[i], answers.outcomes[i])
    {
      assert Intact(book[i], answers.outcomes[i]);
      IntactAgrees(book[i], answers.outcomes[i]);
    }
  }

  /** All operations reconciled with intact rows and an honest ledger: the checkpoint is verified. */
  lemma IntactBookVerifies(book: seq<Rows>, answers: Answers, currency: string, mappingVersion: nat)
    requires InScope(book, currency, mappingVersion) && |answers.outcomes| == |book|
    requires AllIntact(book, answers) && BalancesAgree(book, answers)
    ensures Verified(book, answers, currency, mappingVersion)
  {
    IntactBookAgrees(book, answers);
    VerifiedIffEverythingAgrees(book, answers, currency, mappingVersion);
  }

  // ----- the PostgreSQL ledger as the honest one

  /** Every operation is posted in the scope. */
  ghost predicate AllPosted(book: seq<Rows>, scope: Scope) {
    forall i | 0 <= i < |book| :: IsPosted(book[i]) && ScopeOf(book[i]) == scope
  }

  lemma TotalsAreBalances(book: seq<Rows>, scope: Scope, account: string)
    requires AllPosted(book, scope)
    ensures AccountTotal(book, account) == BalanceOf(book, scope, account)
  {
    assert seq(|book|, i requires 0 <= i < |book| => LinesBalance(account, book[i].lines)) == Contributions(book, scope, account);
  }

  lemma ReconciledIsIntact(book: seq<Rows>, i: nat)
    requires BookFits(book) && i < |book| && Ours(book[i]) && book[i].op.status == Reconciled
    ensures Intact(book[i], ReconcileJournal(book, InputOf(book[i]))) && IsPosted(book[i])
  {
    OwnLookup(book, i);
    PostedIffAccepted(book[i]);
  }

  /** What the PostgreSQL ledger answers about its own book. */
  ghost predicate AnsweredByBook(book: seq<Rows>, answers: Answers, scope: Scope) {
    && |answers.outcomes| == |book|
    && (forall i | 0 <= i < |book| :: answers.outcomes[i] == ReconcileJournal(book, InputOf(book[i])))
    && (forall line | line in AllLines(book) ::
          line.account in answers.balances && answers.balances[line.account] == BalanceOf(book, scope, line.account))
  }

  /** A book of reconciled operations always passes the checkpoint against the PostgreSQL ledger. */
  lemma PostgresqlBookVerifies(book: seq<Rows>, answers: Answers, scope: Scope)
    requires BookFits(book) && InScope(book, scope.currency, scope.mappingVersion) && AnsweredByBook(book, answers, scope)
    requires forall i | 0 <= i < |book| :: Ours(book[i]) && book[i].op.status == Reconciled && ScopeOf(book[i]) == scope
    ensures Verified(book, answers, scope.currency, scope.mappingVersion)
  {
    forall i | 0 <= i < |book| ensures Intact(book[i], answers.outcomes[i]) && IsPosted(book[i]) {
      ReconciledIsIntact(book, i);
    }
    forall line | line in AllLines(book) ensures AccountAgrees(book, answers, line.account) {
      TotalsAreBalances(book, scope, line.account);
    }
    IntactBookVerifies(book, answers, scope.currency, scope.mappingVersion);
  }

  // ----- a transfer ledger as the honest one

  /** The ledger has applied every operation of the scope once, in any interleaving, and nothing else there. */
  ghost predicate AppliedBook(log: seq<ExternalLedger.LedgerTransfer>, book: seq<Rows>, scope: AccountScope) {
    && AllOwned(log, Owners(book), scope)
    && forall i | 0 <= i < |book| ::
         AccountScopeOf(book[i].op.identity) == scope && Holds(log, book[i].op.identity, book[i].lines)
  }

  /** What a transfer ledger answers: its lookups by identity, and its balances summed from transfers. */
  ghost predicate AnsweredByLog(book: seq<Rows>, answers: Answers, log: seq<ExternalLedger.LedgerTransfer>, scope: AccountScope) {
    && |answers.outcomes| == |book|
    && (forall i | 0 <= i < |book| ::
          answers.outcomes[i] == ExternalLedger.ReconcileJournal(log, book[i].op.identity, book[i].lines, true))
    && (forall line | line in AllLines(book) ::
          line.account in answers.balances && answers.balances[line.account] == LogBalance(line.account, Scoped(log, scope)))
  }

  ghost predicate AllReconciled(book: seq<Rows>) {
    forall i | 0 <= i < |book| :: Consistent(book[i]) && IdsAgree(book[i]) && book[i].op.status == Reconciled
  }

  lemma HeldIsIntact(rows: Rows, log: seq<ExternalLedger.LedgerTransfer>)
    requires Consistent(rows) && IdsAgree(rows) && rows.op.status == Reconciled && Holds(log, rows.op.identity, rows.lines)
    ensures Intact(rows, ExternalLedger.ReconcileJournal(log, rows.op.identity, rows.lines, true))
  {
    WellFormedHasTransfers(rows.lines);
    LookupConfirms(log, rows.op.identity, rows.lines);
  }

  lemma ScopeHasDistinctOwners(book: seq<Rows>, currency: string, mappingVersion: nat)
    requires InScope(book, currency, mappingVersion)
    ensures DistinctOwners(Owners(book))
  {
    forall i, j | 0 <= i < j < |book| ensures Owners(book)[i].operationId != Owners(book)[j].operationId {
      assert book[i].op.identity.operationId != book[j].op.identity.operationId;
    }
  }

  /** Line totals are the balances of the log. */
  lemma TotalsAreLogBalances(book: seq<Rows>, log: seq<ExternalLedger.LedgerTransfer>, scope: AccountScope, account: string)
    requires DistinctOwners(Owners(book)) && AppliedBook(log, book, scope) && AllReconciled(book)
    ensures AccountTotal(book, account) == LogBalance(account, Scoped(log, scope))
  {
    LogSplits(log, Owners(book), scope, account);
    PartsAreTotals(book, log, scope, account);
  }

  lemma PartsAreTotals(book: seq<Rows>, log: seq<ExternalLedger.LedgerTransfer>, scope: AccountScope, account: string)
    requires AppliedBook(log, book, scope) && AllReconciled(book)
    ensures LogParts(log, Owners(book), scope, account)
         == seq(|book|, i requires 0 <= i < |book| => LinesBalance(account, book[i].lines))
  {
    forall i | 0 <= i < |book|
      ensures AppliedPart(log, book[i].op.identity, scope, account) == LinesBalance(account, book[i].lines)
    {
      HeldPart(log, book[i].op.identity, book[i].lines, scope, account);
    }
  }

  /** A book of reconciled operations always passes the checkpoint against the transfer ledger that applied them. */
  lemma TransferLedgerBookVerifies(book: seq<Rows>, answers: Answers, log: seq<ExternalLedger.LedgerTransfer>, currency: string,
                                   scope: AccountScope)
    requires InScope(book, currency, scope.mappingVersion) && AllReconciled(book)
    requires AppliedBook(log, book, scope) && AnsweredByLog(book, answers, log, scope)
    ensures Verified(book, answers, currency, scope.mappingVersion)
  {
    forall i | 0 <= i < |book| ensures Intact(book[i], answers.outcomes[i]) {
      HeldIsIntact(book[i], log);
    }
    ScopeHasDistinctOwners(book, currency, scope.mappingVersion);
    forall line | line in AllLines(book) ensures AccountAgrees(book, answers, line.account) {
      TotalsAreLogBalances(book, log, scope, line.account);
    }
    IntactBookVerifies(book, answers, currency, scope.mappingVersion);
  }

  /** A reconciled operation in a safe state of the protocol is one the ledger has applied. */
  lemma ReconciledIsHeld(s: Protocol.System)
    requires StateFits(s) && s.rows.op.status == Reconciled
    ensures Consistent(s.rows) && IdsAgree(s.rows) && Holds(s.log, s.rows.op.identity, s.rows.lines)
  {
  }
}
