/**
 The PostgreSQL ledger: journals are posted in the operation tables themselves, and an account's balance is the
 sum of its lines over the posted operations of an entity, currency and mapping version.
 */
module PostgresLedger {
  import opened Wrappers
  import opened Pairing
  import opened PairingLaws
  import opened JournalValidation
  import opened OperationRecords
  import Transactions = OperationTransactions

  datatype AccountType = Asset | Liability | Equity | Revenue | Expense

  datatype Balance = Balance(debits: nat, credits: nat)

  /** The scope of a balance. */
  datatype Scope = Scope(legalEntityId: string, currency: string, mappingVersion: nat)

  function Add(left: Balance, right: Balance): Balance {
    Balance(left.debits + right.debits, left.credits + right.credits)
  }

  /** Assets and expenses may not be overdrawn in credit, the other accounts not in debit. */
  predicate Violates(accountType: AccountType, balance: Balance) {
    if accountType == Asset || accountType == Expense then balance.credits > balance.debits else balance.debits > balance.credits
  }

  predicate IsPosted(rows: Rows) {
    && rows.op.identity.engine == Postgresql && rows.op.identity.engineVerified
    && rows.op.status in {Accepted, Reconciled}
    && rows.journal.status in {JournalStatus.Posted, Reversed}
  }

  function ScopeOf(rows: Rows): Scope {
    Scope(rows.op.identity.legalEntityId, rows.op.identity.currency, rows.op.identity.mappingVersion)
  }

  function LinesBalance(account: string, lines: seq<Line>): Balance {
    Balance(LineDebit(account, lines), LineCredit(account, lines))
  }

  /** What one operation contributes to an account. */
  function Contribution(rows: Rows, scope: Scope, account: string): Balance {
    if IsPosted(rows) && ScopeOf(rows) == scope then LinesBalance(account, rows.lines) else Balance(0, 0)
  }

  function TrialContribution(rows: Rows, scope: Scope): Balance {
    if IsPosted(rows) && ScopeOf(rows) == scope then Balance(TotalDebit(rows.lines), TotalCredit(rows.lines)) else Balance(0, 0)
  }

  function Sum(parts: seq<Balance>): Balance {
    if parts == [] then Balance(0, 0) else Add(parts[0], Sum(parts[1..]))
  }

  function Contributions(book: seq<Rows>, scope: Scope, account: string): seq<Balance> {
    seq(|book|, i requires 0 <= i < |book| => Contribution(book[i], scope, account))
  }

  function TrialContributions(book: seq<Rows>, scope: Scope): seq<Balance> {
    seq(|book|, i requires 0 <= i < |book| => TrialContribution(book[i], scope))
  }

  /** An account's balance: its lines summed over the posted operations of the scope. */
  function BalanceOf(book: seq<Rows>, scope: Scope, account: string): Balance {
    Sum(Contributions(book, scope, account))
  }

  /** All debits and all credits of a scope. */
  function TrialBalance(book: seq<Rows>, scope: Scope): Balance {
    Sum(TrialContributions(book, scope))
  }

  lemma {:induction false} NoDebits(parts: seq<Balance>)
    requires forall k | 0 <= k < |parts| :: parts[k].debits <= 0
    ensures Sum(parts).debits <= 0
  {
    if parts != [] { NoDebits(parts[1..]); }
  }

  lemma {:induction false} NoCredits(parts: seq<Balance>)
    requires forall k | 0 <= k < |parts| :: parts[k].credits <= 0
    ensures Sum(parts).credits <= 0
  {
    if parts != [] { NoCredits(parts[1..]); }
  }

  lemma {:induction false} SumAfterUpdate(parts: seq<Balance>, i: nat, part: Balance)
    requires i < |parts|
    ensures Add(Sum(parts[i := part]), parts[i]) == Add(Sum(parts), part)
  {
    if i == 0 {
      assert parts[i := part][1..] == parts[1..];
    } else {
      SumAfterUpdate(parts[1..], i - 1, part);
      assert parts[i := part][1..] == parts[1..][i - 1 := part];
    }
  }

  lemma ContributionsAfterUpdate(book: seq<Rows>, i: nat, rows: Rows, scope: Scope, account: string)
    requires i < |book|
    ensures Contributions(book[i := rows], scope, account) == Contributions(book, scope, account)[i := Contribution(rows, scope, account)]
    ensures TrialContributions(book[i := rows], scope) == TrialContributions(book, scope)[i := TrialContribution(rows, scope)]
  {
    var part, trial := Contribution(rows, scope, account), TrialContribution(rows, scope);
    assert Contributions(book[i := rows], scope, account)[i] == part;
    assert TrialContributions(book[i := rows], scope)[i] == trial;
    forall k | 0 <= k < |book| && k != i
      ensures Contributions(book[i := rows], scope, account)[k] == Contributions(book, scope, account)[k]
      ensures TrialContributions(book[i := rows], scope)[k] == TrialContributions(book, scope)[k]
    {
      assert book[i := rows][k] == book[k];
    }
  }

  lemma BalanceAfterUpdate(book: seq<Rows>, i: nat, rows: Rows, scope: Scope, account: string)
    requires i < |book|
    ensures Add(BalanceOf(book[i := rows], scope, account), Contribution(book[i], scope, account))
         == Add(BalanceOf(book, scope, account), Contribution(rows, scope, account))
    ensures Add(TrialBalance(book[i := rows], scope), TrialContribution(book[i], scope))
         == Add(TrialBalance(book, scope), TrialContribution(rows, scope))
  {
    ContributionsAfterUpdate(book, i, rows, scope, account);
    SumAfterUpdate(Contributions(book, scope, account), i, Contribution(rows, scope, account));
    SumAfterUpdate(TrialContributions(book, scope), i, TrialContribution(rows, scope));
  }

  // ----- posting

  /** The journal a caller asks to post. */
  datatype PostInput = PostInput(tenantId: string, legalEntityId: string, operationId: string, journalId: string,
                                 currency: string, mappingVersion: nat, lines: seq<Line>)

  function InputOf(rows: Rows): PostInput {
    var id := rows.op.identity;
    PostInput(id.tenantId, id.legalEntityId, id.operationId, id.journalId, id.currency, id.mappingVersion, rows.lines)
  }

  predicate OperationMatches(id: Identity, input: PostInput) {
    && id.tenantId == input.tenantId && id.legalEntityId == input.legalEntityId && id.operationId == input.operationId
    && id.journalId == input.journalId && id.engine == Postgresql && id.engineVerified
    && id.currency == input.currency && id.mappingVersion == input.mappingVersion
  }

  /** The lines agree up to order. */
  predicate JournalLinesMatch(stored: seq<Line>, input: seq<Line>) {
    multiset(stored) == multiset(input)
  }

  predicate TransferRowsMatch(transfers: map<nat, TransferRow>, id: Identity, lines: seq<Line>) {
    var pairs, ids := PairsOf(lines), ExpectedIds(id, lines);
    && |transfers| == |pairs|
    && forall p | p in transfers ::
         && p < |pairs|
         && transfers[p].debit == pairs[p].debit && transfers[p].credit == pairs[p].credit && transfers[p].amount == pairs[p].amount
         && (transfers[p].engineTransferId.Some? ==> transfers[p].engineTransferId.value == ids[p])
  }

  predicate NoSelfPair(pairs: seq<Pair<string>>) {
    forall i | 0 <= i < |pairs| :: pairs[i].debit != pairs[i].credit
  }

  function Acceptance(rows: Rows, lines: seq<Line>, acceptedAt: Time): Outcome {
    AcceptedOutcome(rows.op.identity.operationId, rows.op.identity.mappingVersion, acceptedAt, |PairsOf(lines)|,
                    ExpectedIds(rows.op.identity, lines))
  }

  function StoredRejection(reason: Option<RejectionReason>): RejectionReason {
    if reason.Some? then reason.value else ConstraintViolation
  }

  function StoredRecovery(reason: Option<RecoveryReason>): RecoveryReason {
    if reason == Some(ConflictingReplay) then ConflictingReplay else ReconciliationRequired
  }

  /** Some account of the journal would end on the wrong side. */
  ghost predicate Overdraws(book: seq<Rows>, accounts: map<string, AccountType>, scope: Scope, lines: seq<Line>) {
    exists line | line in lines && line.account in accounts ::
      Violates(accounts[line.account], Add(BalanceOf(book, scope, line.account), LinesBalance(line.account, lines)))
  }

  /** The first stored operation under a tenant's operation key. */
  function Find(book: seq<Rows>, tenantId: string, operationId: string): (found: Option<nat>)
    ensures found.Some? ==> found.value < |book|
  {
    if book == [] then None
    else if book[0].op.identity.tenantId == tenantId && book[0].op.identity.operationId == operationId then Some(0)
    else match Find(book[1..], tenantId, operationId)
      case Some(i) => Some(i + 1)
      case None => None
  }

  function AcceptedAt(op: Operation): Time {
    if op.engineAcceptedAt.Some? then op.engineAcceptedAt.value else if op.submittedAt.Some? then op.submittedAt.value else 0
  }

  datatype Decision = Refuse(outcome: Outcome) | Replay(outcome: Outcome) | Accept(index: nat)

  /** Refusals that need no stored state. */
  ghost function LocalRefusal(lines: seq<Line>): Option<RejectionReason> {
    match JournalVerdict(lines)
    case Some(reason) => Some(reason)
    case None => if PairsOf(lines) == [] || !NoSelfPair(PairsOf(lines)) then Some(ConstraintViolation) else None
  }

  /** How the ledger answers for an operation that may no longer be posted. */
  function Settled(rows: Rows, operationId: string): Outcome {
    if rows.op.status == Rejected then RejectedOutcome(operationId, StoredRejection(rows.op.rejectionReason))
    else ManualOutcome(operationId, StoredRecovery(rows.op.recoveryReason))
  }

  /** What the ledger decides about a journal it is asked to post. */
  ghost function Decide(book: seq<Rows>, accounts: map<string, AccountType>, input: PostInput): (decision: Decision)
    ensures decision.Accept? ==> decision.index < |book|
  {
    var lines, found := input.lines, Find(book, input.tenantId, input.operationId);
    if LocalRefusal(lines).Some? then Refuse(RejectedOutcome(input.operationId, LocalRefusal(lines).value))
    else if found.None? then Refuse(ManualOutcome(input.operationId, MappingMismatch))
    else
      var rows := book[found.value];
      if !OperationMatches(rows.op.identity, input) then Refuse(ManualOutcome(input.operationId, MappingMismatch))
      else if !JournalLinesMatch(rows.lines, lines) then Refuse(ManualOutcome(input.operationId, ConflictingReplay))
      else if !TransferRowsMatch(rows.transfers, rows.op.identity, lines) then
        Refuse(ManualOutcome(input.operationId, MappingMismatch))
      else if rows.op.status in {Accepted, Reconciled} then Replay(Acceptance(rows, lines, AcceptedAt(rows.op)))
      else if rows.op.status in {Rejected, ManualRecovery} then Refuse(Settled(rows, input.operationId))
      else if exists line :: line in lines && line.account !in accounts then
        Refuse(RejectedOutcome(input.operationId, InvalidAccount))
      else if Overdraws(book, accounts, ScopeOf(rows), lines) then
        Refuse(RejectedOutcome(input.operationId, ConstraintViolation))
      else Accept(found.value)
  }

  /** The book after a post: unchanged unless accepted, and then only the posted operation's rows move. */
  ghost function PostJournal(book: seq<Rows>, accounts: map<string, AccountType>, input: PostInput, now: Time)
    : (posted: (seq<Rows>, Outcome))
    ensures |posted.0| == |book|
  {
    match Decide(book, accounts, input)
    case Refuse(outcome) => (book, outcome)
    case Replay(outcome) => (book, outcome)
    case Accept(i) =>
      match Transactions.AcceptInPostgresql(book[i], ExpectedIds(book[i].op.identity, input.lines), now)
      case Success(rows) => (book[i := rows], Acceptance(book[i], input.lines, now))
      case Failure(_) => (book, UnknownOutcome("unknown", ResponseLost))
  }

  /** What the ledger finds when it is asked whether a journal has been posted. */
  ghost function ReconcileJournal(book: seq<Rows>, input: PostInput): Outcome {
    var lines, found := input.lines, Find(book, input.tenantId, input.operationId);
    if LocalRefusal(lines).Some? then RejectedOutcome(input.operationId, LocalRefusal(lines).value)
    else if found.None? then UnknownOutcome(input.operationId, NotFound)
    else
      var rows := book[found.value];
      if !OperationMatches(rows.op.identity, input) then ManualOutcome(input.operationId, MappingMismatch)
      else if rows.op.status in {Rejected, ManualRecovery} then Settled(rows, input.operationId)
      else if rows.op.status !in {Accepted, Reconciled} then UnknownOutcome(input.operationId, NotFound)
      else if !JournalLinesMatch(rows.lines, lines) then ManualOutcome(input.operationId, ConflictingReplay)
      else if !TransferRowsMatch(rows.transfers, rows.op.identity, lines)
              || exists p | p in rows.transfers :: rows.transfers[p].status != RowAccepted then
        ManualOutcome(input.operationId, MappingMismatch)
      else if rows.journal.status != PostedStatus(rows.op.identity) then ManualOutcome(input.operationId, MappingMismatch)
      else Acceptance(rows, lines, AcceptedAt(rows.op))
  }

  // ----- permuted lines move the same amounts

  lemma {:induction false} LineDebitOfConcat(account: string, left: seq<Line>, right: seq<Line>)
    ensures LineDebit(account, left + right) == LineDebit(account, left) + LineDebit(account, right)
  {
    if left == [] {
      assert left + right == right;
    } else {
      LineDebitOfConcat(account, left[1..], right);
      assert (left + right)[1..] == left[1..] + right;
    }
  }

  lemma {:induction false} LineCreditOfConcat(account: string, left: seq<Line>, right: seq<Line>)
    ensures LineCredit(account, left + right) == LineCredit(account, left) + LineCredit(account, right)
  {
    if left == [] {
      assert left + right == right;
    } else {
      LineCreditOfConcat(account, left[1..], right);
      assert (left + right)[1..] == left[1..] + right;
    }
  }

  lemma AddedSides(debits: nat, moreDebits: nat, credits: nat, moreCredits: nat)
    ensures Balance(debits + moreDebits, credits + moreCredits) == Add(Balance(debits, credits), Balance(moreDebits, moreCredits))
  {
  }

  lemma {:induction false} LinesBalanceOfConcat(account: string, left: seq<Line>, right: seq<Line>)
    ensures LinesBalance(account, left + right) == Add(LinesBalance(account, left), LinesBalance(account, right))
  {
    LineDebitOfConcat(account, left, right);
    LineCreditOfConcat(account, left, right);
    AddedSides(LineDebit(account, left), LineDebit(account, right), LineCredit(account, left), LineCredit(account, right));
  }

  /** Taking one line out of a journal takes its amounts off. */
  lemma LinesBalanceWithout(account: string, lines: seq<Line>, k: nat)
    requires k < |lines|
    ensures LinesBalance(account, lines) == Add(LinesBalance(account, [lines[k]]), LinesBalance(account, lines[..k] + lines[k + 1..]))
    ensures multiset(lines[..k] + lines[k + 1..]) == multiset(lines) - multiset{lines[k]}
  {
    assert lines == lines[..k] + ([lines[k]] + lines[k + 1..]);
    LinesBalanceOfConcat(account, lines[..k], [lines[k]] + lines[k + 1..]);
    LinesBalanceOfConcat(account, [lines[k]], lines[k + 1..]);
    LinesBalanceOfConcat(account, lines[..k], lines[k + 1..]);
  }

  lemma {:induction false} LinesBalanceIgnoresOrder(account: string, left: seq<Line>, right: seq<Line>)
    requires multiset(left) == multiset(right)
    ensures LinesBalance(account, left) == LinesBalance(account, right)
    decreases |left|
  {
    if left == [] {
      assert |multiset(right)| == 0;
    } else {
      assert left[0] in multiset(right);
      var k :| 0 <= k < |right| && right[k] == left[0];
      LinesBalanceWithout(account, left, 0);
      LinesBalanceWithout(account, right, k);
      LinesBalanceIgnoresOrder(account, left[..0] + left[1..], right[..k] + right[k + 1..]);
    }
  }
}
