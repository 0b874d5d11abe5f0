/**
 What a reversal does to balances.  Balances are kept per mapping version, and the command takes the reversal's
 version from its caller, so a reconciled pair cancels exactly when both versions are the same or the source moves
 nothing by itself.
 */
module ReversalBalances {
  import opened Pairing
  import opened PairingLaws
  import opened JournalValidation
  import opened OperationRecords
  import opened OperationInvariant
  import opened PostgresLedger
  import ExternalLedger
  import opened LedgerViews
  import opened Reversals

  predicate Balanced(balance: Balance) {
    balance.debits == balance.credits
  }

  /** Debits less credits. */
  function Net(balance: Balance): int {
    balance.debits - balance.credits
  }

  /** The journal gives every account as much as it takes from it. */
  ghost predicate SelfCancelling(lines: seq<Line>) {
    forall account :: MovesNothing(lines, account)
  }

  predicate MovesNothing(lines: seq<Line>, account: string) {
    Balanced(LinesBalance(account, lines))
  }

  /** When a reversal cancels its source. */
  ghost predicate CancelsBySource(source: Rows, reversal: Rows) {
    source.op.identity.mappingVersion == reversal.op.identity.mappingVersion || SelfCancelling(source.lines)
  }

  /** Swapped lines in a scope together with the lines in a scope. */
  lemma TwoSides(lines: seq<Line>, account: string, here: bool, there: bool)
    ensures Balanced(Add(if here then LinesBalance(account, lines) else Balance(0, 0),
                         if there then LinesBalance(account, SwapLines(lines)) else Balance(0, 0)))
       <==> here == there || MovesNothing(lines, account)
  {
    SwappedLinesCancel(lines, account);
  }

  // ----- the PostgreSQL book

  function PairContribution(source: Rows, reversal: Rows, scope: Scope, account: string): Balance {
    Add(Contribution(source, scope, account), Contribution(reversal, scope, account))
  }

  /** The pair gives the account as many debits as credits. */
  predicate PairCancelsAt(source: Rows, reversal: Rows, scope: Scope, account: string) {
    Balanced(PairContribution(source, reversal, scope, account))
  }

  ghost predicate PairCancels(source: Rows, reversal: Rows) {
    forall scope, account :: PairCancelsAt(source, reversal, scope, account)
  }

  lemma PairAt(source: Rows, reversal: Rows, scope: Scope, account: string)
    requires Reverses(source, reversal) && IsPosted(source) && IsPosted(reversal)
    ensures PairCancelsAt(source, reversal, scope, account)
       <==> (ScopeOf(source) == scope) == (ScopeOf(reversal) == scope) || MovesNothing(source.lines, account)
  {
    TwoSides(source.lines, account, ScopeOf(source) == scope, ScopeOf(reversal) == scope);
  }

  lemma PairCancelsIff(source: Rows, reversal: Rows)
    requires Reverses(source, reversal) && IsPosted(source) && IsPosted(reversal)
    ensures PairCancels(source, reversal) <==> CancelsBySource(source, reversal)
  {
    forall scope, account
      ensures PairCancelsAt(source, reversal, scope, account)
         <==> (ScopeOf(source) == scope) == (ScopeOf(reversal) == scope) || MovesNothing(source.lines, account)
    {
      PairAt(source, reversal, scope, account);
    }
    if PairCancels(source, reversal) && source.op.identity.mappingVersion != reversal.op.identity.mappingVersion {
      forall account ensures MovesNothing(source.lines, account) {
        assert PairCancelsAt(source, reversal, ScopeOf(source), account);
      }
    }
  }

  /** The book with the pair not posted. */
  function Without(book: seq<Rows>, s: nat, r: nat): (rest: seq<Rows>)
    requires s < |book| && r < |book|
  {
    book[s := Unposted(book[s])][r := Unposted(book[r])]
  }

  function Unposted(rows: Rows): Rows {
    rows.(op := rows.op.(status := Intent))
  }

  lemma WithoutPair(book: seq<Rows>, s: nat, r: nat, scope: Scope, account: string)
    requires s < |book| && r < |book| && s != r
    ensures BalanceOf(book, scope, account)
         == Add(BalanceOf(Without(book, s, r), scope, account), PairContribution(book[s], book[r], scope, account))
  {
    var first := book[s := Unposted(book[s])];
    WithoutOne(book, s, scope, account);
    WithoutOne(first, r, scope, account);
    Regroup(BalanceOf(Without(book, s, r), scope, account), Contribution(book[s], scope, account), Contribution(book[r], scope, account));
  }

  lemma WithoutOne(book: seq<Rows>, i: nat, scope: Scope, account: string)
    requires i < |book|
    ensures BalanceOf(book, scope, account)
         == Add(BalanceOf(book[i := Unposted(book[i])], scope, account), Contribution(book[i], scope, account))
  {
    BalanceAfterUpdate(book, i, Unposted(book[i]), scope, account);
  }

  lemma Regroup(rest: Balance, left: Balance, right: Balance)
    ensures Add(Add(rest, right), left) == Add(rest, Add(left, right))
  {
  }

  /** Posting source and reversal has left every net balance as it was. */
  ghost predicate LeavesNothing(book: seq<Rows>, s: nat, r: nat)
    requires s < |book| && r < |book|
  {
    forall scope, account :: SameNet(book, Without(book, s, r), scope, account)
  }

  predicate SameNet(left: seq<Rows>, right: seq<Rows>, scope: Scope, account: string) {
    Net(BalanceOf(left, scope, account)) == Net(BalanceOf(right, scope, account))
  }

  lemma SameNetIsCancelling(book: seq<Rows>, s: nat, r: nat, scope: Scope, account: string)
    requires s < |book| && r < |book| && s != r
    ensures SameNet(book, Without(book, s, r), scope, account) <==> PairCancelsAt(book[s], book[r], scope, account)
  {
    WithoutPair(book, s, r, scope, account);
    NetOfSum(BalanceOf(Without(book, s, r), scope, account), PairContribution(book[s], book[r], scope, account));
  }

  lemma NetOfSum(rest: Balance, part: Balance)
    ensures Net(Add(rest, part)) == Net(rest) <==> Balanced(part)
  {
  }

  lemma LeavingIsCancelling(book: seq<Rows>, s: nat, r: nat)
    requires s < |book| && r < |book| && s != r
    ensures LeavesNothing(book, s, r) <==> PairCancels(book[s], book[r])
  {
    var source, reversal := book[s], book[r];
    if LeavesNothing(book, s, r) {
      forall scope, account ensures PairCancelsAt(source, reversal, scope, account) {
        assert SameNet(book, Without(book, s, r), scope, account);
        SameNetIsCancelling(book, s, r, scope, account);
      }
    }
    if PairCancels(source, reversal) {
      forall scope, account ensures SameNet(book, Without(book, s, r), scope, account) {
        assert PairCancelsAt(source, reversal, scope, account);
        SameNetIsCancelling(book, s, r, scope, account);
      }
    }
  }

  lemma LeavesNothingIff(book: seq<Rows>, s: nat, r: nat)
    requires s < |book| && r < |book| && Reverses(book[s], book[r]) && IsPosted(book[s]) && IsPosted(book[r])
    ensures LeavesNothing(book, s, r) <==> CancelsBySource(book[s], book[r])
  {
    LeavingIsCancelling(book, s, r);
    PairCancelsIff(book[s], book[r]);
  }

  // ----- a transfer log

  function PairApplied(log: seq<ExternalLedger.LedgerTransfer>, source: Rows, reversal: Rows, scope: AccountScope, account: string): Balance {
    Add(AppliedPart(log, source.op.identity, scope, account), AppliedPart(log, reversal.op.identity, scope, account))
  }

  predicate LogPairCancelsAt(log: seq<ExternalLedger.LedgerTransfer>, source: Rows, reversal: Rows, scope: AccountScope, account: string) {
    Balanced(PairApplied(log, source, reversal, scope, account))
  }

  ghost predicate LogPairCancels(log: seq<ExternalLedger.LedgerTransfer>, source: Rows, reversal: Rows) {
    forall scope, account :: LogPairCancelsAt(log, source, reversal, scope, account)
  }

  lemma LogPairAt(log: seq<ExternalLedger.LedgerTransfer>, source: Rows, reversal: Rows, scope: AccountScope, account: string)
    requires Reverses(source, reversal) && WellFormed(source.lines) && WellFormed(reversal.lines)
    requires Holds(log, source.op.identity, source.lines) && Holds(log, reversal.op.identity, reversal.lines)
    ensures LogPairCancelsAt(log, source, reversal, scope, account)
       <==> (AccountScopeOf(source.op.identity) == scope) == (AccountScopeOf(reversal.op.identity) == scope)
            || MovesNothing(source.lines, account)
  {
    HeldPart(log, source.op.identity, source.lines, scope, account);
    HeldPart(log, reversal.op.identity, reversal.lines, scope, account);
    TwoSides(source.lines, account, AccountScopeOf(source.op.identity) == scope, AccountScopeOf(reversal.op.identity) == scope);
  }

  lemma LogPairCancelsIff(log: seq<ExternalLedger.LedgerTransfer>, source: Rows, reversal: Rows)
    requires Reverses(source, reversal) && WellFormed(source.lines) && WellFormed(reversal.lines)
    requires Holds(log, source.op.identity, source.lines) && Holds(log, reversal.op.identity, reversal.lines)
    ensures LogPairCancels(log, source, reversal) <==> CancelsBySource(source, reversal)
  {
    forall scope, account
      ensures LogPairCancelsAt(log, source, reversal, scope, account)
         <==> (AccountScopeOf(source.op.identity) == scope) == (AccountScopeOf(reversal.op.identity) == scope)
              || MovesNothing(source.lines, account)
    {
      LogPairAt(log, source, reversal, scope, account);
    }
    if LogPairCancels(log, source, reversal) && source.op.identity.mappingVersion != reversal.op.identity.mappingVersion {
      forall account ensures MovesNothing(source.lines, account) {
        assert LogPairCancelsAt(log, source, reversal, AccountScopeOf(source.op.identity), account);
      }
    }
  }

  // ----- every run

  /** In the book and in any transfer log that applied both, the pair cancels exactly under the condition. */
  ghost predicate CancelsExactly(book: seq<Rows>, log: seq<ExternalLedger.LedgerTransfer>, s: nat, r: nat)
    requires s < |book| && r < |book|
  {
    && (IsPosted(book[s]) && IsPosted(book[r]) ==> (LeavesNothing(book, s, r) <==> CancelsBySource(book[s], book[r])))
    && (Holds(log, book[s].op.identity, book[s].lines) && Holds(log, book[r].op.identity, book[r].lines) ==>
          (LogPairCancels(log, book[s], book[r]) <==> CancelsBySource(book[s], book[r])))
  }

  /**
   In every reachable state a stored reversal is the only reversal of an ordinary source, and posting both leaves
   every account of every scope where it was if and only if their mapping versions are equal or the source moves
   nothing by itself; in the PostgreSQL book as in the log of a transfer ledger.
   */
  lemma ReversalsCancel(actions: seq<Action>, r: nat, log: seq<ExternalLedger.LedgerTransfer>)
    requires forall action | action in actions && action.Create? :: Decodable(action.request)
    ensures var entries := Run([], actions);
      r < |entries| && entries[r].rows.op.identity.operationType == JournalReverse ==>
        exists s: nat :: SoleReversal(entries, s, r) && CancelsExactly(BookOf(entries), log, s, r)
  {
    var entries := Run([], actions);
    if r < |entries| && entries[r].rows.op.identity.operationType == JournalReverse {
      var s := ReversalHasSource(actions, r);
      PairIsExact(BookOf(entries), log, s, r);
    }
  }

  lemma PairIsExact(book: seq<Rows>, log: seq<ExternalLedger.LedgerTransfer>, s: nat, r: nat)
    requires s < |book| && r < |book| && Reverses(book[s], book[r]) && Consistent(book[s]) && Consistent(book[r])
    ensures CancelsExactly(book, log, s, r)
  {
    if IsPosted(book[s]) && IsPosted(book[r]) { LeavesNothingIff(book, s, r); }
    if Holds(log, book[s].op.identity, book[s].lines) && Holds(log, book[r].op.identity, book[r].lines) {
      LogPairCancelsIff(log, book[s], book[r]);
    }
  }
}
