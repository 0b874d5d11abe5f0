/**
 What the PostgreSQL ledger refuses and why, and recovery on it: an operation that was left open is looked up, not found,
 posted, and ends accepted or rejected, and an accepted one is rebuilt to reconciled.
 */
module PostgresRecovery {
  import opened Wrappers
  import opened Pairing
  import opened PairingLaws
  import opened JournalValidation
  import opened OperationRecords
  import opened OperationTransactions
  import opened OperationInvariant
  import opened TransferIdentities
  import opened TransactionEffects
  import opened PostgresLedger
  import opened PostgresLedgerSafety

  // ----- refusals

  /** A journal nobody stored cannot be posted: the mapping does not match. */
  lemma UnknownOperationIsRefused(book: seq<Rows>, accounts: map<string, AccountType>, input: PostInput)
    requires WellFormed(input.lines) && NoSelfTransfer(input.lines)
    requires forall i | 0 <= i < |book| ::
      book[i].op.identity.tenantId != input.tenantId || book[i].op.identity.operationId != input.operationId
    ensures Decide(book, accounts, input) == Refuse(ManualOutcome(input.operationId, MappingMismatch))
    ensures ReconcileJournal(book, input) == UnknownOutcome(input.operationId, NotFound)
  {
    SoundLinesPass(input.lines);
    FoundHasKey(book, input.tenantId, input.operationId);
  }

  lemma SoundLinesPass(lines: seq<Line>)
    requires WellFormed(lines) && NoSelfTransfer(lines)
    ensures LocalRefusal(lines).None?
  {
    ValidationsAgree(lines);
    WellFormedHasTransfers(lines);
  }

  /** An unsound journal is refused before anything is read, whatever is stored. */
  lemma UnsoundJournalIsRefused(book: seq<Rows>, accounts: map<string, AccountType>, input: PostInput)
    requires !WellFormed(input.lines) || !NoSelfTransfer(input.lines)
    ensures Decide(book, accounts, input).Refuse? && Decide(book, accounts, input).outcome.RejectedOutcome?
    ensures WellFormed(input.lines) ==> Decide(book, accounts, input).outcome.reason == ConstraintViolation
  {
    ValidationsAgree(input.lines);
  }

  /** An input that differs from the stored operation in what identifies it is left to the operators. */
  lemma MismatchIsManual(book: seq<Rows>, accounts: map<string, AccountType>, i: nat, input: PostInput)
    requires BookFits(book) && i < |book| && WellFormed(input.lines) && NoSelfTransfer(input.lines)
    requires input.tenantId == book[i].op.identity.tenantId && input.operationId == book[i].op.identity.operationId
    ensures var id := book[i].op.identity;
      id.engine != Postgresql || !id.engineVerified || id.legalEntityId != input.legalEntityId || id.journalId != input.journalId
      || id.currency != input.currency || id.mappingVersion != input.mappingVersion ==>
        && Decide(book, accounts, input) == Refuse(ManualOutcome(input.operationId, MappingMismatch))
        && ReconcileJournal(book, input) == ManualOutcome(input.operationId, MappingMismatch)
  {
    SoundLinesPass(input.lines);
    FindOwn(book, i);
  }

  /** The stored operation, asked for with other lines than it has. */
  lemma OtherLinesConflict(book: seq<Rows>, accounts: map<string, AccountType>, i: nat, lines: seq<Line>)
    requires BookFits(book) && i < |book| && Ours(book[i]) && WellFormed(lines) && NoSelfTransfer(lines)
    requires multiset(lines) != multiset(book[i].lines)
    ensures Decide(book, accounts, InputOf(book[i]).(lines := lines))
         == Refuse(ManualOutcome(book[i].op.identity.operationId, ConflictingReplay))
    ensures book[i].op.status in {Accepted, Reconciled} ==>
      ReconcileJournal(book, InputOf(book[i]).(lines := lines)) == ManualOutcome(book[i].op.identity.operationId, ConflictingReplay)
  {
    SoundLinesPass(lines);
    FindOwn(book, i);
  }

  /** The same lines in another order: taken for the stored journal exactly when they pair into the same transfers. */
  lemma {:induction false} ReorderedLinesConflict(book: seq<Rows>, accounts: map<string, AccountType>, i: nat, lines: seq<Line>)
    requires BookFits(book) && i < |book| && Ours(book[i]) && WellFormed(lines) && NoSelfTransfer(lines)
    requires multiset(lines) == multiset(book[i].lines)
    ensures PairsOf(lines) != PairsOf(book[i].lines) ==>
      Decide(book, accounts, InputOf(book[i]).(lines := lines))
        == Refuse(ManualOutcome(book[i].op.identity.operationId, MappingMismatch))
    ensures PairsOf(lines) == PairsOf(book[i].lines) && book[i].op.status in {Accepted, Reconciled} ==>
      Decide(book, accounts, InputOf(book[i]).(lines := lines))
        == Replay(Acceptance(book[i], book[i].lines, AcceptedAt(book[i].op)))
  {
    SoundLinesPass(lines);
    FindOwn(book, i);
    RowsFixThePairs(book[i], lines);
    RowsDecide(book, accounts, i, lines);
    if PairsOf(lines) == PairsOf(book[i].lines) { SameCountSameIds(book[i].op.identity, lines, book[i].lines); }
  }

  lemma {:induction false} RowsDecide(book: seq<Rows>, accounts: map<string, AccountType>, i: nat, lines: seq<Line>)
    requires i < |book| && Ours(book[i]) && LocalRefusal(lines).None? && multiset(lines) == multiset(book[i].lines)
    requires Find(book, book[i].op.identity.tenantId, book[i].op.identity.operationId) == Some(i)
    ensures var decision := Decide(book, accounts, InputOf(book[i]).(lines := lines));
      var matches := TransferRowsMatch(book[i].transfers, book[i].op.identity, lines);
      && (!matches ==> decision == Refuse(ManualOutcome(book[i].op.identity.operationId, MappingMismatch)))
      && (matches && book[i].op.status in {Accepted, Reconciled} ==>
            decision == Replay(Acceptance(book[i], lines, AcceptedAt(book[i].op))))
  {
  }

  /** The stored rows match a journal's transfers exactly when these are the stored journal's. */
  lemma RowsFixThePairs(rows: Rows, lines: seq<Line>)
    requires RecordFits(rows)
    ensures TransferRowsMatch(rows.transfers, rows.op.identity, lines) <==> PairsOf(lines) == PairsOf(rows.lines)
  {
    var stored, asked := PairsOf(rows.lines), PairsOf(lines);
    KeysAreInitial(rows.transfers, |stored|);
    if TransferRowsMatch(rows.transfers, rows.op.identity, lines) {
      forall p | 0 <= p < |stored| ensures stored[p] == asked[p] { assert p in rows.transfers; }
    }
    if asked == stored { SameCountSameIds(rows.op.identity, lines, rows.lines); }
  }

  /** An operation the tables call accepted while its journal is still a draft is not confirmed; it is left to the operators. */
  lemma {:induction false} DraftIsNotConfirmed(book: seq<Rows>, i: nat)
    requires KeysUnique(book) && i < |book| && Ours(book[i]) && book[i].op.status in {Accepted, Reconciled}
    requires SoundIntent(book[i]) && RowsMatchPairs(book[i].transfers, PairsOf(book[i].lines)) && IdsAgree(book[i])
    requires book[i].journal.status == Draft
    ensures ReconcileJournal(book, InputOf(book[i])) == ManualOutcome(book[i].op.identity.operationId, MappingMismatch)
  {
    SoundLinesPass(book[i].lines);
    FindOwn(book, i);
    KeysAreInitial(book[i].transfers, |PairsOf(book[i].lines)|);
  }

  // ----- balances

  /** What counts: operations of this ledger, accepted or reconciled, with a posted journal. */
  predicate Counts(rows: Rows) {
    && rows.op.identity.engine == Postgresql && rows.op.identity.engineVerified && rows.op.status in {Accepted, Reconciled}
    && rows.journal.status != Draft
  }

  /** An operation contributes its lines exactly when it counts and its entity, currency and mapping version are the scope's. */
  lemma {:induction false} ContributionMeans(rows: Rows, scope: Scope, account: string)
    ensures var id := rows.op.identity;
      Contribution(rows, scope, account) ==
        if Counts(rows) && id.legalEntityId == scope.legalEntityId && id.currency == scope.currency
           && id.mappingVersion == scope.mappingVersion
        then Balance(LineDebit(account, rows.lines), LineCredit(account, rows.lines)) else Balance(0, 0)
  {
  }

  /** A balance is nothing for an empty book, and every operation adds what it contributes, on both sides. */
  lemma {:induction false} BalanceGrows(book: seq<Rows>, rows: Rows, scope: Scope, account: string)
    ensures BalanceOf([], scope, account) == Balance(0, 0)
    ensures var before, after := BalanceOf(book, scope, account), BalanceOf(book + [rows], scope, account);
      && after.debits == before.debits + Contribution(rows, scope, account).debits
      && after.credits == before.credits + Contribution(rows, scope, account).credits
  {
    assert Contributions(book + [rows], scope, account) == Contributions(book, scope, account) + [Contribution(rows, scope, account)];
    SumSnoc(Contributions(book, scope, account), Contribution(rows, scope, account));
  }

  predicate AccountsKnown(accounts: map<string, AccountType>, lines: seq<Line>) {
    forall line | line in lines :: line.account in accounts
  }

  /** A debit-normal account with more credit than debit, or another with more debit than credit. */
  predicate OnWrongSide(kind: AccountType, debits: int, credits: int) {
    if kind in {Asset, Expense} then credits > debits else debits > credits
  }

  /** Balances are kept per entity, currency and mapping version. */
  function OwnScope(rows: Rows): Scope {
    Scope(rows.op.identity.legalEntityId, rows.op.identity.currency, rows.op.identity.mappingVersion)
  }

  /** Some account of the journal would end on the side its type forbids. */
  ghost predicate WouldOverdraw(book: seq<Rows>, accounts: map<string, AccountType>, rows: Rows) {
    exists line | line in rows.lines && line.account in accounts ::
      var balance := BalanceOf(book, OwnScope(rows), line.account);
      OnWrongSide(accounts[line.account], balance.debits + LineDebit(line.account, rows.lines),
                  balance.credits + LineCredit(line.account, rows.lines))
  }

  lemma OverdrawsMeans(book: seq<Rows>, accounts: map<string, AccountType>, rows: Rows)
    ensures Overdraws(book, accounts, ScopeOf(rows), rows.lines) <==> WouldOverdraw(book, accounts, rows)
  {
    forall line | line in rows.lines && line.account in accounts
      ensures var balance := BalanceOf(book, ScopeOf(rows), line.account);
        Violates(accounts[line.account], Add(balance, LinesBalance(line.account, rows.lines)))
          == OnWrongSide(accounts[line.account], balance.debits + LineDebit(line.account, rows.lines),
                         balance.credits + LineCredit(line.account, rows.lines))
    {
    }
  }

  /** Unknown accounts are refused before any balance is looked at. */
  function RefusalReason(accounts: map<string, AccountType>, lines: seq<Line>): RejectionReason {
    if AccountsKnown(accounts, lines) then ConstraintViolation else InvalidAccount
  }

  /** What becomes of an own journal is decided by its stored status, then by its accounts, then by their balances. */
  lemma {:induction false} OwnDecisionReasons(book: seq<Rows>, accounts: map<string, AccountType>, i: nat)
    requires BookFits(book) && i < |book| && Ours(book[i])
    ensures var rows, decision := book[i], Decide(book, accounts, InputOf(book[i]));
      var id := rows.op.identity.operationId;
      && (rows.op.status in {Intent, Submitted, Unknown} ==>
            decision == if !AccountsKnown(accounts, rows.lines) then Refuse(RejectedOutcome(id, InvalidAccount))
                        else if WouldOverdraw(book, accounts, rows) then Refuse(RejectedOutcome(id, ConstraintViolation))
                        else Accept(i))
      && (rows.op.status == Rejected ==> decision == Refuse(RejectedOutcome(id, rows.op.rejectionReason.value)))
      && (rows.op.status == ManualRecovery ==>
            decision == Refuse(ManualOutcome(id, if rows.op.recoveryReason == Some(ConflictingReplay) then ConflictingReplay
                                                 else ReconciliationRequired)))
      && (rows.op.status in {Accepted, Reconciled} <==> decision.Replay?)
  {
    FindOwn(book, i);
    OwnInputMatches(book[i]);
    OverdrawsMeans(book, accounts, book[i]);
  }

  // ----- refusals found by a lookup

  /**
   In every run, a lookup that reported a refusal reported a stored one: the operation is stored as rejected from then on, and
   no line of it stands in any balance.
   */
  lemma FoundRefusalsAreStored(accounts: map<string, AccountType>, actions: seq<Action>, answer: Answered, scope: Scope, account: string)
    requires var s := Run(State([], {}), accounts, actions);
      answer in s.answers && answer.found && answer.outcome.RejectedOutcome?
    ensures var s := Run(State([], {}), accounts, actions);
      && answer.index < |s.book| && s.book[answer.index].op.status == Rejected
      && s.book[answer.index].journal.status == Draft
      && Contribution(s.book[answer.index], scope, account) == Balance(0, 0)
  {
    assert Safe(State([], {}), accounts);
    RunIsSafe(State([], {}), accounts, actions);
  }

  // ----- recovery

  /** An operation of this ledger that is not settled. */
  ghost predicate Open(s: State, accounts: map<string, AccountType>, i: nat) {
    && Safe(s, accounts) && i < |s.book| && Ours(s.book[i]) && s.book[i].op.status in {Intent, Submitted, Unknown}
  }

  /** The ledger would take the journal: its accounts are known and none would be overdrawn. */
  ghost predicate Takes(s: State, accounts: map<string, AccountType>, i: nat)
    requires i < |s.book|
  {
    AccountsKnown(accounts, s.book[i].lines) && !WouldOverdraw(s.book, accounts, s.book[i])
  }

  /** A quiet transaction changes nothing the ledger decides on. */
  lemma QuietKeepsTaking(s: State, t: State, accounts: map<string, AccountType>, i: nat)
    requires Open(s, accounts, i) && i < |t.book| && t.book == s.book[i := t.book[i]] && Quiet(s.book[i], t.book[i])
    ensures Takes(t, accounts, i) <==> Takes(s, accounts, i)
  {
    forall line | line in s.book[i].lines
      ensures BalanceOf(t.book, ScopeOf(t.book[i]), line.account) == BalanceOf(s.book, ScopeOf(s.book[i]), line.account)
    {
      QuietMovesNothing(s.book, i, t.book[i], ScopeOf(s.book[i]), line.account);
    }
  }

  lemma BeginOpens(s: State, accounts: map<string, AccountType>, i: nat, routing: Routing, now: Time)
    requires Open(s, accounts, i)
    ensures var t := Step(s, accounts, Begin(i, true, routing, now));
      && Open(t, accounts, i) && SameIntent(s.book[i], t.book[i]) && t.book[i].op.status == Submitted
      && (Takes(t, accounts, i) <==> Takes(s, accounts, i))
  {
    var action := Begin(i, true, routing, now);
    StepIsSafe(s, accounts, action);
    RetryIsNotGated(s.book[i], true, routing, now);
    BeginIsQuiet(s.book[i], true, routing, now);
    var t := Step(s, accounts, action);
    assert t.book == s.book[i := t.book[i]];
    QuietKeepsTaking(s, t, accounts, i);
  }

  lemma IdentifyOpens(s: State, accounts: map<string, AccountType>, i: nat)
    requires Open(s, accounts, i) && s.book[i].op.status == Submitted
    ensures var t := Step(s, accounts, Identify(i));
      && Open(t, accounts, i) && SameIntent(s.book[i], t.book[i]) && t.book[i].op.status == Submitted
      && (Takes(t, accounts, i) <==> Takes(s, accounts, i))
  {
    StepIsSafe(s, accounts, Identify(i));
    IdentifyIsQuiet(s.book[i]);
    PersistIdentitiesKeeps(s.book[i], ExpectedIds(s.book[i].op.identity, s.book[i].lines));
    var t := Step(s, accounts, Identify(i));
    assert t.book == s.book[i := t.book[i]];
    QuietKeepsTaking(s, t, accounts, i);
  }

  lemma LookupOpens(s: State, accounts: map<string, AccountType>, i: nat)
    requires Open(s, accounts, i)
    ensures var t := Step(s, accounts, Lookup(i));
      && Open(t, accounts, i) && t.book == s.book
      && Answered(i, UnknownOutcome(s.book[i].op.identity.operationId, NotFound), true) in t.answers
  {
    StepIsSafe(s, accounts, Lookup(i));
    OwnLookupUnsettled(s.book, i);
  }

  /** The post of an open operation, and the answer the worker takes away. */
  lemma PostAnswers(s: State, accounts: map<string, AccountType>, i: nat, now: Time) returns (outcome: Outcome)
    requires Open(s, accounts, i)
    ensures var t := Step(s, accounts, Post(i, now));
      && Safe(t, accounts) && |t.book| == |s.book| && SameIntent(s.book[i], t.book[i])
      && WasAnswered(t, i, outcome) && TrueAnswer(t.book[i], outcome)
      && (if Takes(s, accounts, i)
          then t.book[i].op.status == Accepted && outcome.AcceptedOutcome? && AllRowsAccepted(t.book[i])
          else t.book == s.book && outcome == RejectedOutcome(s.book[i].op.identity.operationId, RefusalReason(accounts, s.book[i].lines)))
  {
    outcome := PostJournal(s.book, accounts, InputOf(s.book[i]), now).1;
    assert Safe(Step(s, accounts, Post(i, now)), accounts) by { StepIsSafe(s, accounts, Post(i, now)); }
    PostGives(s, accounts, i, now);
    OwnPostIsTrue(s.book, accounts, i, now);
    if Takes(s, accounts, i) {
      PostedRecord(s.book, accounts, i, now);
    } else {
      RefusedPost(s.book, accounts, i, now);
    }
  }

  lemma PostGives(s: State, accounts: map<string, AccountType>, i: nat, now: Time)
    requires i < |s.book|
    ensures var (book, outcome) := PostJournal(s.book, accounts, InputOf(s.book[i]), now);
      Step(s, accounts, Post(i, now)).book == book && WasAnswered(Step(s, accounts, Post(i, now)), i, outcome)
  {
  }

  lemma RefusedPost(book: seq<Rows>, accounts: map<string, AccountType>, i: nat, now: Time)
    requires BookFits(book) && i < |book| && Ours(book[i]) && book[i].op.status in {Intent, Submitted, Unknown}
    requires !AccountsKnown(accounts, book[i].lines) || WouldOverdraw(book, accounts, book[i])
    ensures PostJournal(book, accounts, InputOf(book[i]), now)
         == (book, RejectedOutcome(book[i].op.identity.operationId, RefusalReason(accounts, book[i].lines)))
  {
    OwnDecisionReasons(book, accounts, i);
    UnacceptedPost(book, accounts, InputOf(book[i]), now);
  }

  ghost predicate AllRowsAccepted(rows: Rows) {
    forall p | p in rows.transfers :: rows.transfers[p].status == RowAccepted
  }

  lemma PostedRecord(book: seq<Rows>, accounts: map<string, AccountType>, i: nat, now: Time)
    requires BookFits(book) && i < |book| && Ours(book[i]) && book[i].op.status in {Intent, Submitted, Unknown}
    requires AccountsKnown(accounts, book[i].lines) && !WouldOverdraw(book, accounts, book[i])
    ensures var (posted, outcome) := PostJournal(book, accounts, InputOf(book[i]), now);
      && outcome.AcceptedOutcome? && SameIntent(book[i], posted[i]) && posted[i].op.status == Accepted && AllRowsAccepted(posted[i])
  {
    OwnDecisionReasons(book, accounts, i);
    AcceptedPost(book, accounts, InputOf(book[i]), now);
    AcceptingMeans(book[i], now);
    AcceptedRecord(book[i], ExpectedIds(book[i].op.identity, book[i].lines), now);
  }

  lemma ReceiptKeepsAccepted(rows: Rows, outcome: Outcome, now: Time)
    requires RecordFits(rows) && rows.op.status == Accepted && AllRowsAccepted(rows)
    requires outcome.AcceptedOutcome? && TrueAnswer(rows, outcome)
    ensures var after := WriteReceipt(rows, outcome, Some(Postgresql), now);
      && after.Success? && SameIntent(rows, after.value) && after.value.op.status == Accepted && AllRowsAccepted(after.value)
  {
    TrueAnswerMatches(rows, outcome);
    AcceptedReceiptMeans(rows, outcome, Some(Postgresql), now);
    WriteReceiptKeeps(rows, outcome, Some(Postgresql), now);
  }

  /** A transaction that commits replaces the record it was run on. */
  lemma StepCommits(s: State, accounts: map<string, AccountType>, action: Action)
    requires action.Receive? || action.Rebuild?
    requires action.index < |s.book| && Enabled(s, action) && Transaction(s.book[action.index], action).Success?
    ensures Step(s, accounts, action) == s.(book := s.book[action.index := Transaction(s.book[action.index], action).value])
  {
  }

  lemma AcceptanceIsReceived(s: State, accounts: map<string, AccountType>, i: nat, outcome: Outcome, now: Time)
    requires Safe(s, accounts) && i < |s.book| && Ours(s.book[i]) && s.book[i].op.status == Accepted && AllRowsAccepted(s.book[i])
    requires WasAnswered(s, i, outcome) && outcome.AcceptedOutcome? && TrueAnswer(s.book[i], outcome)
    ensures var t := Step(s, accounts, Receive(i, outcome, now));
      && Safe(t, accounts) && i < |t.book| && SameIntent(s.book[i], t.book[i]) && t.book[i].op.status == Accepted
      && AllRowsAccepted(t.book[i])
  {
    assert Safe(Step(s, accounts, Receive(i, outcome, now)), accounts) by { StepIsSafe(s, accounts, Receive(i, outcome, now)); }
    ReceiptKeepsAccepted(s.book[i], outcome, now);
    StepCommits(s, accounts, Receive(i, outcome, now));
  }

  lemma RefusalIsReceived(s: State, accounts: map<string, AccountType>, i: nat, reason: RejectionReason, now: Time)
    requires Safe(s, accounts) && i < |s.book| && s.book[i].op.status == Submitted
    requires WasAnswered(s, i, RejectedOutcome(s.book[i].op.identity.operationId, reason))
    ensures var t := Step(s, accounts, Receive(i, RejectedOutcome(s.book[i].op.identity.operationId, reason), now));
      && Safe(t, accounts) && i < |t.book| && t.book[i].op.status == Rejected && t.book[i].op.rejectionReason == Some(reason)
  {
    StepIsSafe(s, accounts, Receive(i, RejectedOutcome(s.book[i].op.identity.operationId, reason), now));
    RejectedReceiptMeans(s.book[i], reason, Some(Postgresql), now);
  }

  /** Beginning, identities and lookup of an open operation: it is not found. */
  lemma ApproachOpens(s: State, accounts: map<string, AccountType>, i: nat, routing: Routing, now: Time)
    requires Open(s, accounts, i)
    ensures var t := Run(s, accounts, [Begin(i, true, routing, now), Identify(i), Lookup(i)]);
      && Open(t, accounts, i) && SameIntent(s.book[i], t.book[i]) && t.book[i].op.status == Submitted
      && (Takes(t, accounts, i) <==> Takes(s, accounts, i))
      && Answered(i, UnknownOutcome(s.book[i].op.identity.operationId, NotFound), true) in t.answers
  {
    ThreeSteps(s, accounts, Begin(i, true, routing, now), Identify(i), Lookup(i));
    var s1 := Step(s, accounts, Begin(i, true, routing, now));
    BeginOpens(s, accounts, i, routing, now);
    var s2 := Step(s1, accounts, Identify(i));
    IdentifyOpens(s1, accounts, i);
    LookupOpens(s2, accounts, i);
    LookupKeepsTaking(s2, Step(s2, accounts, Lookup(i)), accounts, i);
  }

  lemma LookupKeepsTaking(s: State, t: State, accounts: map<string, AccountType>, i: nat)
    requires i < |s.book| && t.book == s.book
    ensures Takes(t, accounts, i) <==> Takes(s, accounts, i)
  {
  }

  /** Post and receipt of an operation that a lookup did not find. */
  lemma SettleOpen(s: State, accounts: map<string, AccountType>, i: nat, now: Time) returns (outcome: Outcome)
    requires Open(s, accounts, i) && s.book[i].op.status == Submitted
    ensures var t := Step(Step(s, accounts, Post(i, now)), accounts, Receive(i, outcome, now));
      && Safe(t, accounts) && i < |t.book|
      && (Takes(s, accounts, i) ==> t.book[i].op.status == Accepted && IsPosted(t.book[i]) && AllRowsAccepted(t.book[i]))
      && (!Takes(s, accounts, i) ==>
            && t.book[i].op.status == Rejected
            && t.book[i].op.rejectionReason == Some(RefusalReason(accounts, s.book[i].lines)))
  {
    outcome := PostAnswers(s, accounts, i, now);
    var t := Step(s, accounts, Post(i, now));
    if Takes(s, accounts, i) {
      AcceptanceIsReceived(t, accounts, i, outcome, now);
      PostedIffAccepted(Step(t, accounts, Receive(i, outcome, now)).book[i]);
    } else {
      RefusalIsReceived(t, accounts, i, outcome.reason, now);
    }
  }

  /**
   Recovery of an operation that was left open: the lookup answers not found, the post is decided by accounts and balances, and
   the receipt leaves the operation accepted when the ledger takes the journal, and rejected with the ledger's reason otherwise.
   */
  lemma RecoverySettles(s: State, accounts: map<string, AccountType>, i: nat, routing: Routing, now: Time) returns (outcome: Outcome)
    requires Open(s, accounts, i)
    ensures var found := Run(s, accounts, [Begin(i, true, routing, now), Identify(i), Lookup(i)]);
      var t := Run(s, accounts, [Begin(i, true, routing, now), Identify(i), Lookup(i), Post(i, now), Receive(i, outcome, now)]);
      && i < |found.book| && Answered(i, UnknownOutcome(s.book[i].op.identity.operationId, NotFound), true) in found.answers
      && Safe(t, accounts) && i < |t.book|
      && (Takes(s, accounts, i) ==> t.book[i].op.status == Accepted && IsPosted(t.book[i]) && AllRowsAccepted(t.book[i]))
      && (!Takes(s, accounts, i) ==>
            && t.book[i].op.status == Rejected
            && t.book[i].op.rejectionReason == Some(RefusalReason(accounts, s.book[i].lines)))
  {
    var approach := [Begin(i, true, routing, now), Identify(i), Lookup(i)];
    ApproachOpens(s, accounts, i, routing, now);
    outcome := SettleOpen(Run(s, accounts, approach), accounts, i, now);
    TwoMoreSteps(s, accounts, approach, Post(i, now), Receive(i, outcome, now));
    assert approach + [Post(i, now), Receive(i, outcome, now)]
        == [Begin(i, true, routing, now), Identify(i), Lookup(i), Post(i, now), Receive(i, outcome, now)];
  }

  lemma ThreeSteps(s: State, accounts: map<string, AccountType>, a: Action, b: Action, c: Action)
    ensures Run(s, accounts, [a, b, c]) == Step(Step(Step(s, accounts, a), accounts, b), accounts, c)
  {
    var s1 := Step(s, accounts, a);
    var s2 := Step(s1, accounts, b);
    assert [a, b, c][1..] == [b, c] && [b, c][1..] == [c] && [c][1..] == [];
    assert Run(s2, accounts, [c]) == Run(Step(s2, accounts, c), accounts, []);
    assert Run(s1, accounts, [b, c]) == Run(s2, accounts, [c]);
  }

  lemma {:induction false} RunConcat(s: State, accounts: map<string, AccountType>, first: seq<Action>, second: seq<Action>)
    ensures Run(s, accounts, first + second) == Run(Run(s, accounts, first), accounts, second)
    decreases |first|
  {
    if first == [] {
      assert first + second == second;
    } else {
      assert (first + second)[1..] == first[1..] + second;
      RunConcat(Step(s, accounts, first[0]), accounts, first[1..], second);
    }
  }

  lemma TwoSteps(s: State, accounts: map<string, AccountType>, a: Action, b: Action)
    ensures Run(s, accounts, [a, b]) == Step(Step(s, accounts, a), accounts, b)
  {
    var s1 := Step(s, accounts, a);
    assert [a, b][1..] == [b] && [b][1..] == [];
    assert Run(s1, accounts, [b]) == Run(Step(s1, accounts, b), accounts, []);
  }

  lemma TwoMoreSteps(s: State, accounts: map<string, AccountType>, first: seq<Action>, a: Action, b: Action)
    ensures Run(s, accounts, first + [a, b]) == Step(Step(Run(s, accounts, first), accounts, a), accounts, b)
  {
    RunConcat(s, accounts, first, [a, b]);
    TwoSteps(Run(s, accounts, first), accounts, a, b);
  }

  lemma LookupConfirms(s: State, accounts: map<string, AccountType>, i: nat)
    requires Safe(s, accounts) && i < |s.book| && Ours(s.book[i]) && s.book[i].op.status == Accepted && AllRowsAccepted(s.book[i])
    ensures var outcome := Acceptance(s.book[i], s.book[i].lines, s.book[i].op.engineAcceptedAt.value);
      var t := Step(s, accounts, Lookup(i));
      && t.book == s.book && WasAnswered(t, i, outcome) && TrueAnswer(s.book[i], outcome)
  {
    assert RecordFits(s.book[i]);
    OwnLookup(s.book, i);
    LookupGives(s, accounts, i);
  }

  lemma LookupGives(s: State, accounts: map<string, AccountType>, i: nat)
    requires i < |s.book|
    ensures var t := Step(s, accounts, Lookup(i));
      t.book == s.book && WasAnswered(t, i, ReconcileJournal(s.book, InputOf(s.book[i])))
  {
  }

  /** An accepted operation with intact rows is found by its rebuild and becomes reconciled. */
  lemma RebuildFinds(s: State, accounts: map<string, AccountType>, i: nat, now: Time)
    requires Safe(s, accounts) && i < |s.book| && Ours(s.book[i]) && s.book[i].op.status == Accepted && AllRowsAccepted(s.book[i])
    ensures var outcome := Acceptance(s.book[i], s.book[i].lines, s.book[i].op.engineAcceptedAt.value);
      var t := Run(s, accounts, [Lookup(i), Rebuild(i, outcome, now)]);
      && i < |t.book| && t.book[i].op.status == Reconciled && t.book[i].op.reconciledAt == Some(now)
      && t.book == s.book[i := t.book[i]]
  {
    var outcome := Acceptance(s.book[i], s.book[i].lines, s.book[i].op.engineAcceptedAt.value);
    TwoSteps(s, accounts, Lookup(i), Rebuild(i, outcome, now));
    LookupConfirms(s, accounts, i);
    RebuildReconciles(s.book[i], outcome, now);
    StepCommits(Step(s, accounts, Lookup(i)), accounts, Rebuild(i, outcome, now));
  }
}
