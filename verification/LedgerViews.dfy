/**
 Two views of the same balances: lines summed from journals, and transfers summed from a ledger's log.
 */
module LedgerViews {
  import opened Pairing
  import opened PairingLaws
  import opened JournalValidation
  import opened OperationRecords
  import opened OperationInvariant
  import opened ExternalLedger
  import opened ProtocolTheorems
  import opened PostgresLedger
  import opened PostgresLedgerSafety

  /** An account's balance as a transfer-based ledger reports it. */
  function LogBalance(account: string, log: seq<LedgerTransfer>): Balance {
    Balance(DebitedInLedger(account, log), CreditedInLedger(account, log))
  }

  // ----- the log of a ledger, scope by scope

  /** Ledger accounts are kept apart by tenant, entity and mapping version; one ledger serves one currency. */
  datatype AccountScope = AccountScope(tenantId: string, legalEntityId: string, mappingVersion: nat)

  function AccountScopeOf(identity: Identity): AccountScope {
    AccountScope(identity.tenantId, identity.legalEntityId, identity.mappingVersion)
  }

  predicate Within(scope: AccountScope, id: TransferId) {
    id.TransferId? && AccountScope(id.tenantId, id.legalEntityId, id.mappingVersion) == scope
  }

  /** The transfers between accounts of a scope. */
  function Scoped(log: seq<LedgerTransfer>, scope: AccountScope): seq<LedgerTransfer> {
    if log == [] then [] else (if Within(scope, log[0].id) then [log[0]] else []) + Scoped(log[1..], scope)
  }

  /** The ledger has applied the journal once, whatever else it has applied before, between and after. */
  ghost predicate Holds(log: seq<LedgerTransfer>, identity: Identity, lines: seq<Line>) {
    exists clock :: Applied(log, identity) == Batch(identity, lines, clock)
  }

  /** What the ledger has applied of one operation to an account of a scope. */
  function AppliedPart(log: seq<LedgerTransfer>, identity: Identity, scope: AccountScope, account: string): Balance {
    if AccountScopeOf(identity) == scope then LogBalance(account, Applied(log, identity)) else Balance(0, 0)
  }

  function LogParts(log: seq<LedgerTransfer>, owners: seq<Identity>, scope: AccountScope, account: string): (parts: seq<Balance>)
    ensures |parts| == |owners|
  {
    seq(|owners|, i requires 0 <= i < |owners| => AppliedPart(log, owners[i], scope, account))
  }

  /** No two of the operations share transfer identities. */
  ghost predicate DistinctOwners(owners: seq<Identity>) {
    forall i, j | 0 <= i < j < |owners| ::
      AccountScopeOf(owners[i]) != AccountScopeOf(owners[j]) || owners[i].operationId != owners[j].operationId
  }

  /** Every transfer of the scope belongs to one of the operations. */
  ghost predicate AllOwned(log: seq<LedgerTransfer>, owners: seq<Identity>, scope: AccountScope) {
    forall t | t in log && Within(scope, t.id) :: exists i :: 0 <= i < |owners| && Owns(owners[i], t.id)
  }

  lemma {:induction false} DebitedConcat(account: string, left: seq<LedgerTransfer>, right: seq<LedgerTransfer>)
    ensures DebitedInLedger(account, left + right) == DebitedInLedger(account, left) + DebitedInLedger(account, right)
  {
    if left == [] {
      assert left + right == right;
    } else {
      DebitedConcat(account, left[1..], right);
      assert (left + right)[1..] == left[1..] + right;
    }
  }

  lemma {:induction false} CreditedConcat(account: string, left: seq<LedgerTransfer>, right: seq<LedgerTransfer>)
    ensures CreditedInLedger(account, left + right) == CreditedInLedger(account, left) + CreditedInLedger(account, right)
  {
    if left == [] {
      assert left + right == right;
    } else {
      CreditedConcat(account, left[1..], right);
      assert (left + right)[1..] == left[1..] + right;
    }
  }

  lemma LogBalanceConcat(account: string, left: seq<LedgerTransfer>, right: seq<LedgerTransfer>)
    ensures LogBalance(account, left + right) == Add(LogBalance(account, left), LogBalance(account, right))
  {
    DebitedConcat(account, left, right);
    CreditedConcat(account, left, right);
  }

  /** A batch moves exactly the journal's lines. */
  lemma BatchBalance(account: string, identity: Identity, lines: seq<Line>, clock: Time)
    requires WellFormed(lines)
    ensures LogBalance(account, Batch(identity, lines, clock)) == LinesBalance(account, lines)
  {
    TransfersMovePairs(account, Batch(identity, lines, clock), PairsOf(lines));
    BalancedJournalKeepsAccounts(lines, account);
  }

  lemma PartOfFirst(log: seq<LedgerTransfer>, identity: Identity, scope: AccountScope, account: string)
    requires log != []
    ensures AppliedPart(log, identity, scope, account)
         == if AccountScopeOf(identity) == scope && Owns(identity, log[0].id)
            then Add(LogBalance(account, [log[0]]), AppliedPart(log[1..], identity, scope, account))
            else AppliedPart(log[1..], identity, scope, account)
  {
    var rest := Applied(log[1..], identity);
    LogBalanceConcat(account, [log[0]], rest);
    assert Applied(log, identity) == if Owns(identity, log[0].id) then [log[0]] + rest else rest;
  }

  lemma ScopedFirst(log: seq<LedgerTransfer>, scope: AccountScope, account: string)
    requires log != []
    ensures LogBalance(account, Scoped(log, scope))
         == if Within(scope, log[0].id) then Add(LogBalance(account, [log[0]]), LogBalance(account, Scoped(log[1..], scope)))
            else LogBalance(account, Scoped(log[1..], scope))
  {
    var rest := Scoped(log[1..], scope);
    LogBalanceConcat(account, [log[0]], rest);
    assert Scoped(log, scope) == if Within(scope, log[0].id) then [log[0]] + rest else rest;
  }

  lemma SumWithAdded(parts: seq<Balance>, i: nat, more: Balance)
    requires i < |parts|
    ensures Sum(parts[i := Add(more, parts[i])]) == Add(more, Sum(parts))
  {
    SumAfterUpdate(parts, i, Add(more, parts[i]));
  }

  /** One more transfer changes the part of its owner and no other. */
  lemma PartsOfFirst(log: seq<LedgerTransfer>, owners: seq<Identity>, scope: AccountScope, account: string, i: nat)
    requires log != [] && DistinctOwners(owners) && Within(scope, log[0].id) && i < |owners| && Owns(owners[i], log[0].id)
    ensures LogParts(log, owners, scope, account)
         == LogParts(log[1..], owners, scope, account)[
              i := Add(LogBalance(account, [log[0]]), LogParts(log[1..], owners, scope, account)[i])]
  {
    forall k | 0 <= k < |owners|
      ensures AppliedPart(log, owners[k], scope, account)
           == if k == i then Add(LogBalance(account, [log[0]]), AppliedPart(log[1..], owners[k], scope, account))
              else AppliedPart(log[1..], owners[k], scope, account)
    {
      PartOfFirst(log, owners[k], scope, account);
    }
  }

  lemma PartsWithoutFirst(log: seq<LedgerTransfer>, owners: seq<Identity>, scope: AccountScope, account: string)
    requires log != [] && !Within(scope, log[0].id)
    ensures LogParts(log, owners, scope, account) == LogParts(log[1..], owners, scope, account)
  {
    forall k | 0 <= k < |owners|
      ensures AppliedPart(log, owners[k], scope, account) == AppliedPart(log[1..], owners[k], scope, account)
    {
      PartOfFirst(log, owners[k], scope, account);
    }
  }

  /** A scope's balance is the sum of what its operations have been applied with, however their transfers interleave. */
  lemma {:induction false} LogSplits(log: seq<LedgerTransfer>, owners: seq<Identity>, scope: AccountScope, account: string)
    requires DistinctOwners(owners) && AllOwned(log, owners, scope)
    ensures LogBalance(account, Scoped(log, scope)) == Sum(LogParts(log, owners, scope, account))
    decreases |log|
  {
    if log == [] {
      EmptyParts(owners, scope, account);
    } else {
      LogSplits(log[1..], owners, scope, account);
      ScopedFirst(log, scope, account);
      if Within(scope, log[0].id) {
        assert log[0] in log;
        var i :| 0 <= i < |owners| && Owns(owners[i], log[0].id);
        PartsOfFirst(log, owners, scope, account, i);
        SumWithAdded(LogParts(log[1..], owners, scope, account), i, LogBalance(account, [log[0]]));
      } else {
        PartsWithoutFirst(log, owners, scope, account);
      }
    }
  }

  lemma EmptyParts(owners: seq<Identity>, scope: AccountScope, account: string)
    ensures Sum(LogParts([], owners, scope, account)) == Balance(0, 0)
  {
    assert Sum(LogParts([], owners, scope, account)).debits == 0 by { NoDebits(LogParts([], owners, scope, account)); }
    assert Sum(LogParts([], owners, scope, account)).credits == 0 by { NoCredits(LogParts([], owners, scope, account)); }
  }

  /** An operation applied once has moved exactly its lines, in its own scope. */
  lemma HeldPart(log: seq<LedgerTransfer>, identity: Identity, lines: seq<Line>, scope: AccountScope, account: string)
    requires Holds(log, identity, lines) && WellFormed(lines)
    ensures AppliedPart(log, identity, scope, account)
         == if AccountScopeOf(identity) == scope then LinesBalance(account, lines) else Balance(0, 0)
  {
    var clock :| Applied(log, identity) == Batch(identity, lines, clock);
    BatchBalance(account, identity, lines, clock);
  }

  function Owners(book: seq<Rows>): (owners: seq<Identity>)
    ensures |owners| == |book|
  {
    seq(|book|, i requires 0 <= i < |book| => book[i].op.identity)
  }

  /** The log holds the posted operations of the scope once each, and nothing else in that scope. */
  ghost predicate HoldsScope(log: seq<LedgerTransfer>, book: seq<Rows>, tenantId: string, scope: Scope) {
    var accounts := AccountScope(tenantId, scope.legalEntityId, scope.mappingVersion);
    && AllOwned(log, Owners(book), accounts)
    && forall i | 0 <= i < |book| ::
         if IsPosted(book[i]) && ScopeOf(book[i]) == scope
         then book[i].op.identity.tenantId == tenantId && Holds(log, book[i].op.identity, book[i].lines)
         else AccountScopeOf(book[i].op.identity) == accounts ==> Applied(log, book[i].op.identity) == []
  }

  /**
   In whatever order and interleaving a transfer-based ledger applied the posted operations of a scope, the balance
   summed from its transfers equals, account by account, the balance summed from the journal lines.
   */
  lemma LedgerViewsAgree(book: seq<Rows>, log: seq<LedgerTransfer>, tenantId: string, scope: Scope, account: string)
    requires BookFits(book) && HoldsScope(log, book, tenantId, scope)
    ensures LogBalance(account, Scoped(log, AccountScope(tenantId, scope.legalEntityId, scope.mappingVersion)))
         == BalanceOf(book, scope, account)
  {
    var accounts := AccountScope(tenantId, scope.legalEntityId, scope.mappingVersion);
    OwnersAreDistinct(book);
    LogSplits(log, Owners(book), accounts, account);
    PartsAreContributions(book, log, tenantId, scope, account);
  }

  lemma PartsAreContributions(book: seq<Rows>, log: seq<LedgerTransfer>, tenantId: string, scope: Scope, account: string)
    requires BookFits(book) && HoldsScope(log, book, tenantId, scope)
    ensures LogParts(log, Owners(book), AccountScope(tenantId, scope.legalEntityId, scope.mappingVersion), account)
         == Contributions(book, scope, account)
  {
    var accounts := AccountScope(tenantId, scope.legalEntityId, scope.mappingVersion);
    forall i | 0 <= i < |book|
      ensures LogParts(log, Owners(book), accounts, account)[i] == Contributions(book, scope, account)[i]
    {
      PartIsContribution(log, book, tenantId, scope, account, i);
    }
  }

  lemma OwnersAreDistinct(book: seq<Rows>)
    requires KeysUnique(book)
    ensures DistinctOwners(Owners(book))
  {
    forall i, j | 0 <= i < j < |book|
      ensures AccountScopeOf(Owners(book)[i]) != AccountScopeOf(Owners(book)[j])
           || Owners(book)[i].operationId != Owners(book)[j].operationId
    {
      assert !SameKey(book[i].op.identity, book[j].op.identity);
    }
  }

  lemma PartIsContribution(log: seq<LedgerTransfer>, book: seq<Rows>, tenantId: string, scope: Scope, account: string, i: nat)
    requires BookFits(book) && HoldsScope(log, book, tenantId, scope) && i < |book|
    ensures AppliedPart(log, book[i].op.identity, AccountScope(tenantId, scope.legalEntityId, scope.mappingVersion), account)
         == Contribution(book[i], scope, account)
  {
    var accounts := AccountScope(tenantId, scope.legalEntityId, scope.mappingVersion);
    if IsPosted(book[i]) && ScopeOf(book[i]) == scope {
      assert RecordFits(book[i]);
      HeldPart(log, book[i].op.identity, book[i].lines, accounts, account);
    } else {
      assert AccountScopeOf(book[i].op.identity) == accounts ==> Applied(log, book[i].op.identity) == [];
    }
  }

  // ----- the two ledgers side by side

  lemma BatchIsOwned(identity: Identity, lines: seq<Line>, clock: Time)
    ensures forall k | 0 <= k < |Batch(identity, lines, clock)| :: Owns(identity, Batch(identity, lines, clock)[k].id)
  {
  }

  lemma BatchIsForeign(owner: Identity, other: Identity, lines: seq<Line>, clock: Time)
    requires AccountScopeOf(owner) != AccountScopeOf(other) || owner.operationId != other.operationId
    ensures Applied(Batch(owner, lines, clock), other) == []
  {
    AppliedNone(Batch(owner, lines, clock), other);
  }

  /** Appending an operation's batch adds to what was applied of it, and of no other operation. */
  lemma AppendedApplied(log: seq<LedgerTransfer>, owner: Identity, other: Identity, lines: seq<Line>, clock: Time)
    ensures Applied(log + Batch(owner, lines, clock), owner) == Applied(log, owner) + Batch(owner, lines, clock)
    ensures AccountScopeOf(owner) != AccountScopeOf(other) || owner.operationId != other.operationId ==>
      Applied(log + Batch(owner, lines, clock), other) == Applied(log, other)
  {
    BatchIsOwned(owner, lines, clock);
    AppliedConcat(log, Batch(owner, lines, clock), owner);
    AppliedAll(Batch(owner, lines, clock), owner);
    if AccountScopeOf(owner) != AccountScopeOf(other) || owner.operationId != other.operationId {
      AppliedConcat(log, Batch(owner, lines, clock), other);
      BatchIsForeign(owner, other, lines, clock);
    }
  }

  lemma AppendedOwned(log: seq<LedgerTransfer>, owners: seq<Identity>, scope: AccountScope, i: nat, lines: seq<Line>, clock: Time)
    requires AllOwned(log, owners, scope) && i < |owners|
    ensures AllOwned(log + Batch(owners[i], lines, clock), owners, scope)
  {
    var batch := Batch(owners[i], lines, clock);
    forall t | t in log + batch && Within(scope, t.id) ensures exists k :: 0 <= k < |owners| && Owns(owners[k], t.id) {
      if t !in log {
        var k :| 0 <= k < |batch| && batch[k] == t;
        BatchIsOwned(owners[i], lines, clock);
        assert Owns(owners[i], t.id);
      }
    }
  }

  /** Posting an operation in the book and applying its batch to the log keeps the two in step. */
  lemma PostedTogether(log: seq<LedgerTransfer>, book: seq<Rows>, tenantId: string, scope: Scope, i: nat, after: Rows, clock: Time)
    requires KeysUnique(book) && HoldsScope(log, book, tenantId, scope) && i < |book| && !IsPosted(book[i])
    requires IsPosted(after) && SameIntent(book[i], after) && ScopeOf(after) == scope && after.op.identity.tenantId == tenantId
    ensures HoldsScope(log + Batch(after.op.identity, after.lines, clock), book[i := after], tenantId, scope)
  {
    var owner, posted := after.op.identity, book[i := after];
    var extended := log + Batch(owner, after.lines, clock);
    var accounts := AccountScope(tenantId, scope.legalEntityId, scope.mappingVersion);
    assert Owners(posted) == Owners(book);
    AppendedOwned(log, Owners(book), accounts, i, after.lines, clock);
    assert Applied(log, owner) == [];
    AppendedApplied(log, owner, owner, after.lines, clock);
    assert Applied(extended, owner) == Batch(owner, after.lines, clock);
    forall k | 0 <= k < |book| && k != i ensures Applied(extended, book[k].op.identity) == Applied(log, book[k].op.identity) {
      assert !SameKey(book[if k < i then k else i].op.identity, book[if k < i then i else k].op.identity);
      AppendedApplied(log, owner, book[k].op.identity, after.lines, clock);
    }
  }

  /** Nothing posted, nothing applied. */
  lemma InStepInitially(book: seq<Rows>, tenantId: string, scope: Scope)
    requires forall i | 0 <= i < |book| :: !IsPosted(book[i])
    ensures HoldsScope([], book, tenantId, scope)
  {
  }
}
