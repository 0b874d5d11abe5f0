/**
 The PostgreSQL ledger as it runs: balances folded from posted lines, constraints checked account by account, and
 the accepting transaction written update by update.
 */
module PostgresLedgerStore {
  import opened Wrappers
  import opened Pairing
  import opened PairingLaws
  import opened JournalValidation
  import opened OperationRecords
  import opened PostgresLedger

  // ----- the posted lines of a scope

  predicate Selected(rows: Rows, scope: Scope) {
    IsPosted(rows) && ScopeOf(rows) == scope
  }

  function LinesOf(lines: seq<Line>, accountIds: seq<string>): seq<Line> {
    if lines == [] then []
    else (if lines[0].account in accountIds then [lines[0]] else []) + LinesOf(lines[1..], accountIds)
  }

  /** The lines of the given accounts in the posted operations of a scope. */
  function ReadPostedLines(book: seq<Rows>, scope: Scope, accountIds: seq<string>): seq<Line> {
    if book == [] then []
    else (if Selected(book[0], scope) then LinesOf(book[0].lines, accountIds) else [])
         + ReadPostedLines(book[1..], scope, accountIds)
  }

  lemma {:induction false} LinesOfKeeps(lines: seq<Line>, accountIds: seq<string>, account: string)
    requires account in accountIds
    ensures LinesBalance(account, LinesOf(lines, accountIds)) == LinesBalance(account, lines)
  {
    if lines != [] {
      LinesOfKeeps(lines[1..], accountIds, account);
      LinesBalanceOfConcat(account, if lines[0].account in accountIds then [lines[0]] else [], LinesOf(lines[1..], accountIds));
      LinesBalanceOfConcat(account, [lines[0]], lines[1..]);
      assert [lines[0]] + lines[1..] == lines;
      SingleLine(account, lines[0]);
    }
  }

  lemma SingleLine(account: string, line: Line)
    ensures LinesBalance(account, [line]) == if line.account == account then Balance(line.debit, line.credit) else Balance(0, 0)
    ensures LinesBalance(account, []) == Balance(0, 0)
  {
    assert [line][1..] == [];
    assert LineDebit(account, [line]) == (if line.account == account then line.debit else 0) + LineDebit(account, []);
    assert LineCredit(account, [line]) == (if line.account == account then line.credit else 0) + LineCredit(account, []);
  }

  lemma FirstContribution(book: seq<Rows>, scope: Scope, account: string)
    requires book != []
    ensures BalanceOf(book, scope, account) == Add(Contribution(book[0], scope, account), BalanceOf(book[1..], scope, account))
  {
    assert Contributions(book, scope, account)[1..] == Contributions(book[1..], scope, account);
  }

  /** Folding the posted lines gives the account's balance. */
  lemma {:induction false} PostedLinesBalance(book: seq<Rows>, scope: Scope, accountIds: seq<string>, account: string)
    requires account in accountIds
    ensures LinesBalance(account, ReadPostedLines(book, scope, accountIds)) == BalanceOf(book, scope, account)
  {
    if book == [] {
      assert Contributions(book, scope, account) == [];
    } else {
      var first := if Selected(book[0], scope) then LinesOf(book[0].lines, accountIds) else [];
      PostedLinesBalance(book[1..], scope, accountIds, account);
      LinesBalanceOfConcat(account, first, ReadPostedLines(book[1..], scope, accountIds));
      FirstContribution(book, scope, account);
      FirstLines(book[0], scope, accountIds, account);
    }
  }

  lemma FirstLines(rows: Rows, scope: Scope, accountIds: seq<string>, account: string)
    requires account in accountIds
    ensures LinesBalance(account, if Selected(rows, scope) then LinesOf(rows.lines, accountIds) else [])
         == Contribution(rows, scope, account)
  {
    LinesOfKeeps(rows.lines, accountIds, account);
  }

  /** The folded balance of an account, with the posting added, decides whether the account stays allowed. */
  lemma FoldDecides(book: seq<Rows>, accounts: map<string, AccountType>, scope: Scope, lines: seq<Line>,
                    accountIds: seq<string>, account: string, balance: Balance, delta: Balance)
    requires account in accountIds
    requires balance == LinesBalance(account, ReadPostedLines(book, scope, accountIds)) && delta == LinesBalance(account, lines)
    ensures StaysAllowed(book, accounts, scope, lines, account)
       <==> !(account in accounts && Violates(accounts[account], Add(balance, delta)))
  {
    PostedLinesBalance(book, scope, accountIds, account);
  }

  function In(balances: map<string, Balance>, account: string): Balance {
    if account in balances then balances[account] else Balance(0, 0)
  }

  lemma {:induction false} BalanceOfPrefix(account: string, lines: seq<Line>, i: nat)
    requires i < |lines|
    ensures LinesBalance(account, lines[..i + 1])
         == Add(LinesBalance(account, lines[..i]),
                if lines[i].account == account then Balance(lines[i].debit, lines[i].credit) else Balance(0, 0))
  {
    assert lines[..i + 1] == lines[..i] + [lines[i]];
    LinesBalanceOfConcat(account, lines[..i], [lines[i]]);
    SingleLine(account, lines[i]);
  }

  /** Folds lines into one balance per account. */
  method BalancesFrom(lines: seq<Line>) returns (balances: map<string, Balance>)
    ensures forall account :: In(balances, account) == LinesBalance(account, lines)
  {
    balances := map[];
    for i := 0 to |lines|
      invariant forall account :: In(balances, account) == LinesBalance(account, lines[..i])
    {
      var line, before := lines[i], balances;
      var current := In(before, line.account);
      balances := before[line.account := Add(current, Balance(line.debit, line.credit))];
      forall account ensures In(balances, account) == LinesBalance(account, lines[..i + 1]) {
        BalanceOfPrefix(account, lines, i);
        assert In(before, account) == LinesBalance(account, lines[..i]);
      }
    }
    assert lines[..|lines|] == lines;
  }

  predicate StaysAllowed(book: seq<Rows>, accounts: map<string, AccountType>, scope: Scope, lines: seq<Line>, account: string) {
    account in accounts ==> !Violates(accounts[account], Add(BalanceOf(book, scope, account), LinesBalance(account, lines)))
  }

  /** Checking each account once is enough. */
  lemma OverdrawsByAccount(book: seq<Rows>, accounts: map<string, AccountType>, scope: Scope, lines: seq<Line>)
    ensures Overdraws(book, accounts, scope, lines)
       <==> exists account :: account in DistinctAccounts(lines) && !StaysAllowed(book, accounts, scope, lines, account)
  {
    if Overdraws(book, accounts, scope, lines) {
      var line :| line in lines && line.account in accounts
        && Violates(accounts[line.account], Add(BalanceOf(book, scope, line.account), LinesBalance(line.account, lines)));
      assert line.account in DistinctAccounts(lines) && !StaysAllowed(book, accounts, scope, lines, line.account);
    }
  }

  // ----- the accepting transaction

  /** One row of the accepting transaction. */
  function AcceptedRow(row: TransferRow, id: TransferId, now: Time): TransferRow {
    row.(engineTransferId := Some(id), status := RowAccepted, observedAt := Some(now))
  }

  method AcceptRows(transfers: map<nat, TransferRow>, ids: seq<TransferId>, now: Time)
    returns (result: Result<map<nat, TransferRow>, TransactionError>)
    ensures result == if TransfersUpdateAllowed(transfers, Transactions.RebuiltRows(transfers, ids, now))
                      then Success(Transactions.RebuiltRows(transfers, ids, now)) else Failure(TransferConstraint)
  {
    var rows := transfers;
    for position := 0 to |ids|
      invariant rows.Keys == transfers.Keys
      invariant forall p | p in transfers ::
        && rows[p] == (if p < position then AcceptedRow(transfers[p], ids[p], now) else transfers[p])
        && (p < position ==> TransferUpdateAllowed(transfers[p], rows[p]))
    {
      if position in rows {
        var next := AcceptedRow(rows[position], ids[position], now);
        if !TransferUpdateAllowed(rows[position], next) {
          assert Transactions.RebuiltRows(transfers, ids, now)[position] == next;
          return Failure(TransferConstraint);
        }
        rows := rows[position := next];
      }
    }
    assert rows == Transactions.RebuiltRows(transfers, ids, now);
    assert forall p | p in transfers && p >= |ids| :: TransferUpdateAllowed(transfers[p], rows[p]);
    return Success(rows);
  }

  /** Submission, acceptance, journal and transfer rows, each refused or written; a refusal rolls all back. */
  method AcceptOperation(rows: Rows, ids: seq<TransferId>, now: Time) returns (committed: Transactions.Committed)
    ensures committed == Transactions.AcceptInPostgresql(rows, ids, now)
  {
    var op := rows.op;
    if op.status in {Intent, Unknown} {
      var submitted := Transactions.MarkSubmitted(op, now);
      if !OperationUpdateAllowed(op, submitted) { return Failure(OperationConstraint); }
      op := submitted;
    }
    var accepted := op.(status := Accepted, engineAcceptedAt := Some(now), rejectionReason := None,
                        recoveryReason := None, observedEngine := Some(Postgresql), lastError := None);
    if !OperationUpdateAllowed(op, accepted) { return Failure(OperationConstraint); }
    var journal := Journal(PostedStatus(op.identity), ReversesEntry(op.identity), Some(now));
    var refused := JournalUpdateError(rows.journal, journal, rows.lines);
    if refused.Some? { return Failure(refused.value); }
    var transfers := AcceptRows(rows.transfers, ids, now);
    if transfers.Failure? { return Failure(transfers.error); }
    return Success(Rows(accepted, journal, rows.lines, transfers.value, rows.outbox));
  }

  class PostgresqlFinancialLedger {
    var book: seq<Rows>
    var accounts: map<string, AccountType>

    constructor (accounts: map<string, AccountType>)
      ensures book == [] && this.accounts == accounts
    {
      this.book := [];
      this.accounts := accounts;
    }

    /** The balance of a known account in a scope. */
    method GetBalance(scope: Scope, account: string) returns (balance: Option<Balance>)
      ensures balance == if account in accounts then Some(BalanceOf(book, scope, account)) else None
    {
      if account !in accounts { return None; }
      PostedLinesBalance(book, scope, [account], account);
      var balances := BalancesFrom(ReadPostedLines(book, scope, [account]));
      return Some(In(balances, account));
    }

    /** Would posting the lines leave some account on its forbidden side? */
    method ChecksBalances(scope: Scope, lines: seq<Line>) returns (violated: bool)
      ensures violated == Overdraws(book, accounts, scope, lines)
    {
      OverdrawsByAccount(book, accounts, scope, lines);
      violated := ChecksAccounts(scope, lines, DistinctAccounts(lines));
    }

    method ChecksAccounts(scope: Scope, lines: seq<Line>, accountIds: seq<string>) returns (violated: bool)
      ensures violated == exists account :: account in accountIds && !StaysAllowed(book, accounts, scope, lines, account)
    {
      var balances := BalancesFrom(ReadPostedLines(book, scope, accountIds));
      var deltas := BalancesFrom(lines);
      for k := 0 to |accountIds|
        invariant forall j | 0 <= j < k :: StaysAllowed(book, accounts, scope, lines, accountIds[j])
      {
        var account := accountIds[k];
        FoldDecides(book, accounts, scope, lines, accountIds, account, In(balances, account), In(deltas, account));
        if account in accounts && Violates(accounts[account], Add(In(balances, account), In(deltas, account))) {
          return true;
        }
      }
      return false;
    }

    /** The stored operation under a tenant's operation key. */
    method ReadOperation(tenantId: string, operationId: string) returns (found: Option<nat>)
      ensures found == Find(book, tenantId, operationId)
    {
      for i := 0 to |book|
        invariant Find(book, tenantId, operationId) == Later(Find(book[i..], tenantId, operationId), i)
      {
        if book[i].op.identity.tenantId == tenantId && book[i].op.identity.operationId == operationId {
          return Some(i);
        }
        assert book[i..][1..] == book[i + 1..];
      }
      return None;
    }

    /** Validation and pairing, before any row is read. */
    static method RefuseLocally(lines: seq<Line>) returns (refusal: Option<RejectionReason>)
      ensures refusal == LocalRefusal(lines)
    {
      refusal := ValidateJournal(lines);
      if refusal.None? {
        var pairs := PairLines(lines);
        if pairs == [] || !NoSelfPair(pairs) { refusal := Some(ConstraintViolation); }
      }
    }

    /** Posts a journal, or answers what was decided about it before. */
    method PostJournal(input: PostInput, now: Time) returns (outcome: Outcome)
      modifies this`book
      ensures (book, outcome) == PostgresLedger.PostJournal(old(book), accounts, input, now)
    {
      var refusal := RefuseLocally(input.lines);
      if refusal.Some? { return RejectedOutcome(input.operationId, refusal.value); }
      var found := ReadOperation(input.tenantId, input.operationId);
      if found.None? { return ManualOutcome(input.operationId, MappingMismatch); }
      var rows := book[found.value];
      if !OperationMatches(rows.op.identity, input) { return ManualOutcome(input.operationId, MappingMismatch); }
      if !JournalLinesMatch(rows.lines, input.lines) { return ManualOutcome(input.operationId, ConflictingReplay); }
      if !TransferRowsMatch(rows.transfers, rows.op.identity, input.lines) {
        return ManualOutcome(input.operationId, MappingMismatch);
      }
      if rows.op.status in {Accepted, Reconciled} { return Acceptance(rows, input.lines, AcceptedAt(rows.op)); }
      if rows.op.status in {Rejected, ManualRecovery} { return Settled(rows, input.operationId); }
      var known := KnownAccounts(input.lines);
      if !known { return RejectedOutcome(input.operationId, InvalidAccount); }
      var violated := ChecksBalances(ScopeOf(rows), input.lines);
      if violated { return RejectedOutcome(input.operationId, ConstraintViolation); }
      var ids := ExpectedIds(rows.op.identity, input.lines);
      var committed := AcceptOperation(rows, ids, now);
      if committed.Failure? { return UnknownOutcome("unknown", ResponseLost); }
      book := book[found.value := committed.value];
      return Acceptance(rows, input.lines, now);
    }

    /** Answers whether a journal has been posted, changing nothing. */
    method ReconcileJournal(input: PostInput) returns (outcome: Outcome)
      ensures outcome == PostgresLedger.ReconcileJournal(book, input)
    {
      var refusal := RefuseLocally(input.lines);
      if refusal.Some? { return RejectedOutcome(input.operationId, refusal.value); }
      var found := ReadOperation(input.tenantId, input.operationId);
      if found.None? { return UnknownOutcome(input.operationId, NotFound); }
      var rows := book[found.value];
      if !OperationMatches(rows.op.identity, input) { return ManualOutcome(input.operationId, MappingMismatch); }
      if rows.op.status in {Rejected, ManualRecovery} { return Settled(rows, input.operationId); }
      if rows.op.status !in {Accepted, Reconciled} { return UnknownOutcome(input.operationId, NotFound); }
      if !JournalLinesMatch(rows.lines, input.lines) { return ManualOutcome(input.operationId, ConflictingReplay); }
      if !TransferRowsMatch(rows.transfers, rows.op.identity, input.lines)
         || exists p | p in rows.transfers :: rows.transfers[p].status != RowAccepted {
        return ManualOutcome(input.operationId, MappingMismatch);
      }
      if rows.journal.status != PostedStatus(rows.op.identity) { return ManualOutcome(input.operationId, MappingMismatch); }
      return Acceptance(rows, input.lines, AcceptedAt(rows.op));
    }

    method KnownAccounts(lines: seq<Line>) returns (known: bool)
      ensures known == forall line | line in lines :: line.account in accounts
    {
      for i := 0 to |lines|
        invariant forall k | 0 <= k < i :: lines[k].account in accounts
      {
        if lines[i].account !in accounts {
          assert lines[i] in lines;
          return false;
        }
      }
      return true;
    }
  }

  /** A position found in a suffix, counted from the start. */
  function Later(found: Option<nat>, skipped: nat): Option<nat> {
    match found
    case Some(i) => Some(i + skipped)
    case None => None
  }
}
