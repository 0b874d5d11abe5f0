/**
 Comparison of two snapshots of financial facts: every kind of fact is keyed and the keyed maps are compared.
 */
module FactSnapshots {
  import opened OperationRecords
  import opened FinancialAmount

  datatype TransferName = Known(id: TransferId) | Missing(position: nat)

  datatype OperationFact = OperationFact(operationId: string, status: Status, currency: string, mappingVersion: nat)

  datatype TransferFact = TransferFact(
    operationId: string, position: nat, status: TransferStatus, name: TransferName, debit: string, credit: string,
    amount: nat, currency: string, mappingVersion: nat)

  datatype BalanceFact = BalanceFact(account: string, currency: string, mappingVersion: nat, debits: nat, credits: nat)

  datatype ProjectionFact = ProjectionFact(operationId: string, journalStatus: JournalStatus, names: seq<TransferName>)

  datatype Snapshot = Snapshot(operations: seq<OperationFact>, transfers: seq<TransferFact>, balances: seq<BalanceFact>,
                               projections: seq<ProjectionFact>)

  datatype TransferKey = TransferKey(operationId: string, position: nat)

  datatype BalanceKey = BalanceKey(account: string, currency: string, mappingVersion: nat)

  // ----- keyed facts

  /** The facts by key; a later fact replaces an earlier one with the same key. */
  function Keyed<K(==), F>(facts: seq<F>, key: F -> K): map<K, F> {
    if facts == [] then map[] else Keyed(facts[..|facts| - 1], key)[key(facts[|facts| - 1]) := facts[|facts| - 1]]
  }

  ghost predicate Functional<K, F>(facts: seq<F>, key: F -> K) {
    forall i, j | 0 <= i < |facts| && 0 <= j < |facts| :: key(facts[i]) == key(facts[j]) ==> facts[i] == facts[j]
  }

  ghost predicate SameFacts<F>(left: seq<F>, right: seq<F>) {
    && (forall fact | fact in left :: fact in right)
    && (forall fact | fact in right :: fact in left)
  }

  lemma {:induction false} KeyedFacts<K, F>(facts: seq<F>, key: F -> K)
    requires Functional(facts, key)
    ensures forall i | 0 <= i < |facts| :: key(facts[i]) in Keyed(facts, key) && Keyed(facts, key)[key(facts[i])] == facts[i]
    ensures forall k | k in Keyed(facts, key) :: Keyed(facts, key)[k] in facts && key(Keyed(facts, key)[k]) == k
  {
    if facts != [] { KeyedFacts(facts[..|facts| - 1], key); }
  }

  /** When no key stands for two facts, equal maps mean the same facts. */
  lemma KeyedEqualIffSameFacts<K, F>(left: seq<F>, right: seq<F>, key: F -> K)
    requires Functional(left, key) && Functional(right, key)
    ensures Keyed(left, key) == Keyed(right, key) <==> SameFacts(left, right)
  {
    KeyedFacts(left, key);
    KeyedFacts(right, key);
    if SameFacts(left, right) {
      forall k | k in Keyed(left, key) ensures k in Keyed(right, key) && Keyed(right, key)[k] == Keyed(left, key)[k] {
        var j :| 0 <= j < |right| && right[j] == Keyed(left, key)[k];
      }
      forall k | k in Keyed(right, key) ensures k in Keyed(left, key) {
        var j :| 0 <= j < |left| && left[j] == Keyed(right, key)[k];
      }
    }
    if Keyed(left, key) == Keyed(right, key) {
      forall fact | fact in left ensures fact in right {
        var i :| 0 <= i < |left| && left[i] == fact;
        assert Keyed(right, key)[key(left[i])] in right;
      }
      forall fact | fact in right ensures fact in left {
        var i :| 0 <= i < |right| && right[i] == fact;
        assert Keyed(left, key)[key(right[i])] in left;
      }
    }
  }

  // ----- the comparison

  datatype Differences<K> = Differences(missing: set<K>, different: set<K>, unexpected: set<K>)

  /** Keys without a counterpart, with another fact, and keys only the target has. */
  method CompareKeyed<K(==), F(==)>(source: map<K, F>, target: map<K, F>) returns (found: Differences<K>)
    ensures found.missing == set k | k in source && k !in target
    ensures found.different == set k | k in source && k in target && source[k] != target[k]
    ensures found.unexpected == set k | k in target && k !in source
    ensures found == Differences({}, {}, {}) <==> source == target
  {
    var missing: set<K>, different: set<K>, unexpected: set<K> := {}, {}, {};
    var todo := source.Keys;
    while todo != {}
      invariant todo <= source.Keys
      invariant missing == set k | k in source && k !in todo && k !in target
      invariant different == set k | k in source && k !in todo && k in target && source[k] != target[k]
      decreases todo
    {
      var k :| k in todo;
      todo := todo - {k};
      if k !in target {
        missing := missing + {k};
      } else if source[k] != target[k] {
        different := different + {k};
      }
    }
    todo := target.Keys;
    while todo != {}
      invariant todo <= target.Keys
      invariant unexpected == set k | k in target && k !in todo && k !in source
      decreases todo
    {
      var k :| k in todo;
      todo := todo - {k};
      if k !in source { unexpected := unexpected + {k}; }
    }
    found := Differences(missing, different, unexpected);
    NoDifferences(source, target, found);
  }

  lemma NoDifferences<K, F>(source: map<K, F>, target: map<K, F>, found: Differences<K>)
    requires found.missing == set k | k in source && k !in target
    requires found.different == set k | k in source && k in target && source[k] != target[k]
    requires found.unexpected == set k | k in target && k !in source
    ensures found == Differences({}, {}, {}) <==> source == target
  {
    if found == Differences({}, {}, {}) {
      forall k | k in source ensures k in target && source[k] == target[k] {
        assert k !in found.missing && k !in found.different;
      }
      forall k | k in target ensures k in source {
        assert k !in found.unexpected;
      }
    }
  }

  function Size<K>(found: Differences<K>): nat {
    |found.missing| + |found.different| + |found.unexpected|
  }

  function OperationKey(fact: OperationFact): string { fact.operationId }

  function TransferKeyOf(fact: TransferFact): TransferKey { TransferKey(fact.operationId, fact.position) }

  function BalanceKeyOf(fact: BalanceFact): BalanceKey { BalanceKey(fact.account, fact.currency, fact.mappingVersion) }

  function ProjectionKey(fact: ProjectionFact): string { fact.operationId }

  /** Facts share a key exactly when they are about the same operation, transfer, balance or projection. */
  lemma KeysIdentify(t: TransferFact, u: TransferFact, a: BalanceFact, b: BalanceFact)
    ensures TransferKeyOf(t) == TransferKeyOf(u) <==> t.operationId == u.operationId && t.position == u.position
    ensures BalanceKeyOf(a) == BalanceKeyOf(b) <==>
      a.account == b.account && a.currency == b.currency && a.mappingVersion == b.mappingVersion
    ensures forall o, q :: OperationKey(o) == OperationKey(q) <==> o.operationId == q.operationId
    ensures forall o, q :: ProjectionKey(o) == ProjectionKey(q) <==> o.operationId == q.operationId
  {
  }

  ghost predicate SnapshotsAgree(source: Snapshot, target: Snapshot) {
    && Keyed(source.operations, OperationKey) == Keyed(target.operations, OperationKey)
    && Keyed(source.transfers, TransferKeyOf) == Keyed(target.transfers, TransferKeyOf)
    && Keyed(source.balances, BalanceKeyOf) == Keyed(target.balances, BalanceKeyOf)
    && Keyed(source.projections, ProjectionKey) == Keyed(target.projections, ProjectionKey)
  }

  method CompareFinancialFactSnapshots(source: Snapshot, target: Snapshot) returns (mismatchCount: nat)
    ensures mismatchCount == 0 <==> SnapshotsAgree(source, target)
  {
    var operations := CompareKeyed(Keyed(source.operations, OperationKey), Keyed(target.operations, OperationKey));
    var transfers := CompareKeyed(Keyed(source.transfers, TransferKeyOf), Keyed(target.transfers, TransferKeyOf));
    var balances := CompareKeyed(Keyed(source.balances, BalanceKeyOf), Keyed(target.balances, BalanceKeyOf));
    var projections := CompareKeyed(Keyed(source.projections, ProjectionKey), Keyed(target.projections, ProjectionKey));
    return Size(operations) + Size(transfers) + Size(balances) + Size(projections);
  }

  // ----- joined keys

  /** A key part without a colon after a colon can be read back. */
  lemma {:induction false} LastPartReadsBack(left: string, leftLast: string, right: string, rightLast: string)
    requires ':' !in leftLast && ':' !in rightLast && left + ":" + leftLast == right + ":" + rightLast
    ensures left == right && leftLast == rightLast
  {
    var joined := left + ":" + leftLast;
    assert joined[|left|] == ':' && joined[|right|] == ':';
    assert joined[|left| + 1..] == leftLast && joined[|right| + 1..] == rightLast;
    ColonAt(joined, |left|, |right|);
    ColonAt(joined, |right|, |left|);
    assert joined[..|left|] == left && joined[..|right|] == right;
  }

  lemma ColonAt(joined: string, i: nat, j: nat)
    requires i < |joined| && j < |joined| && joined[j] == ':' && ':' !in joined[i + 1..]
    ensures j <= i
  {
    forall m | i < m < |joined| ensures joined[m] != ':' {
      assert joined[m] == joined[i + 1..][m - i - 1];
    }
  }

  lemma {:induction false} PrintInjective(m: nat, n: nat)
    requires Print(m) == Print(n)
    ensures m == n
  {
    ParsePrint(m);
    ParsePrint(n);
  }

  /** The joined transfer key stands for one operation and position, whatever the operation is called. */
  lemma TransferKeysJoinInjectively(left: TransferKey, right: TransferKey)
    requires left.operationId + ":" + Print(left.position) == right.operationId + ":" + Print(right.position)
    ensures left == right
  {
    ParsePrint(left.position);
    ParsePrint(right.position);
    LastPartReadsBack(left.operationId, Print(left.position), right.operationId, Print(right.position));
    PrintInjective(left.position, right.position);
  }

  /** So does the joined balance key, given that currencies contain no colon. */
  lemma BalanceKeysJoinInjectively(left: BalanceKey, right: BalanceKey)
    requires ':' !in left.currency && ':' !in right.currency
    requires left.account + ":" + left.currency + ":" + Print(left.mappingVersion)
          == right.account + ":" + right.currency + ":" + Print(right.mappingVersion)
    ensures left == right
  {
    ParsePrint(left.mappingVersion);
    ParsePrint(right.mappingVersion);
    LastPartReadsBack(left.account + ":" + left.currency, Print(left.mappingVersion),
                      right.account + ":" + right.currency, Print(right.mappingVersion));
    LastPartReadsBack(left.account, left.currency, right.account, right.currency);
    PrintInjective(left.mappingVersion, right.mappingVersion);
  }
}
