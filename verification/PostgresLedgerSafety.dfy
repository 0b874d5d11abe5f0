/**
 Safety of the PostgreSQL ledger over every run: no account ever stands on the wrong side, debits equal credits,
 a journal is posted at most once, and a replay moves nothing.
 */
module PostgresLedgerSafety {
  import opened Wrappers
  import opened Pairing
  import opened JournalValidation
  import opened OperationRecords
  import opened OperationTransactions
  import opened OperationInvariant
  import opened TransferIdentities
  import opened PostgresLedger

  /** Operations this ledger may post. */
  predicate Ours(rows: Rows) {
    rows.op.identity.engine == Postgresql && rows.op.identity.engineVerified
  }

  /** The record invariant, and that acceptance by this ledger posted the journal. */
  ghost predicate RecordFits(rows: Rows) {
    && Consistent(rows) && IdsAgree(rows)
    && (Ours(rows) && rows.op.status in {Accepted, Reconciled} ==> rows.journal.status != Draft)
  }

  lemma PostedIffAccepted(rows: Rows)
    requires RecordFits(rows)
    ensures IsPosted(rows) <==> Ours(rows) && rows.op.status in {Accepted, Reconciled}
  {
  }

  // ----- the steps of workers and callers

  /** The stored operations, and every answer the ledger has given a worker so far. */
  datatype State = State(book: seq<Rows>, answers: set<Answered>)

  /** An answer about an operation; `found` marks those of lookups, the others are of posts. */
  datatype Answered = Answered(index: nat, outcome: Outcome, found: bool)

  datatype Action =
    | Create(identity: Identity, lines: seq<Line>, now: Time)
    | Begin(index: nat, reconcile: bool, routing: Routing, now: Time)
    | Defer(index: nat, now: Time)
    | Identify(index: nat)
    | Post(index: nat, now: Time)
    | PostOther(input: PostInput, now: Time)
    | Lookup(index: nat)
    | Receive(index: nat, outcome: Outcome, now: Time)
    | Turn(index: nat, recovery: RecoveryReason, observed: Option<Engine>, now: Time)
    | Finalize(index: nat, now: Time)
    | Rebuild(index: nat, outcome: Outcome, now: Time)

  predicate SameKey(left: Identity, right: Identity) {
    left.tenantId == right.tenantId && left.operationId == right.operationId
  }

  ghost predicate Creatable(book: seq<Rows>, identity: Identity, lines: seq<Line>) {
    && WellFormed(lines) && NoSelfTransfer(lines)
    && (identity.operationType == JournalReverse <==> identity.sourceJournalId.Some?)
    && forall i | 0 <= i < |book| :: !SameKey(book[i].op.identity, identity)
  }

  function Commit(s: State, i: nat, committed: Committed): State
    requires i < |s.book|
  {
    if committed.Success? then s.(book := s.book[i := committed.value]) else s
  }

  /** What is receipted when a submission is denied, or turned away because the engine has changed. */
  function Failed(rows: Rows, recovery: RecoveryReason): Outcome {
    ManualOutcome(rows.op.identity.operationId, recovery)
  }

  /** The transaction a worker runs on its own operation. */
  function Transaction(rows: Rows, action: Action): Committed {
    match action
    case Begin(_, reconcile, routing, now) => BeginSubmission(rows, reconcile, Postgresql, routing, now).0
    case Defer(_, now) => DeferBlocked(rows, now)
    case Identify(_) => PersistIdentities(rows, ExpectedIds(rows.op.identity, rows.lines)).0
    case Receive(_, outcome, now) => WriteReceipt(rows, outcome, Some(Postgresql), now)
    case Turn(_, recovery, observed, now) => WriteReceipt(rows, Failed(rows, recovery), observed, now)
    case Finalize(_, now) => FinalizeAccepted(rows, now)
    case Rebuild(_, outcome, now) =>
      if outcome.AcceptedOutcome? && |outcome.transferIds| == |PairsOf(rows.lines)| then RebuildAccepted(rows, outcome, now)
      else Success(rows)
    case _ => Success(rows)
  }

  function Target(action: Action): Option<nat> {
    match action
    case Create(_, _, _) => None
    case PostOther(_, _) => None
    case _ => Some(action.index)
  }

  predicate WasAnswered(s: State, i: nat, outcome: Outcome) {
    Answered(i, outcome, false) in s.answers || Answered(i, outcome, true) in s.answers
  }

  /** A receipt or a rebuild acts only on an answer the ledger has given for the operation. */
  predicate Enabled(s: State, action: Action) {
    match action
    case Receive(i, outcome, _) => WasAnswered(s, i, outcome)
    case Rebuild(i, outcome, _) => WasAnswered(s, i, outcome)
    case _ => true
  }

  ghost function Step(s: State, accounts: map<string, AccountType>, action: Action): State {
    if action.Create? then
      if Creatable(s.book, action.identity, action.lines)
      then s.(book := s.book + [IntentRows(action.identity, action.lines, action.now, map[])]) else s
    else if action.PostOther? then s.(book := PostJournal(s.book, accounts, action.input, action.now).0)
    else if action.index >= |s.book| || !Enabled(s, action) then s
    else if action.Post? then
      var (book, outcome) := PostJournal(s.book, accounts, InputOf(s.book[action.index]), action.now);
      State(book, s.answers + {Answered(action.index, outcome, false)})
    else if action.Lookup? then
      s.(answers := s.answers + {Answered(action.index, ReconcileJournal(s.book, InputOf(s.book[action.index])), true)})
    else Commit(s, action.index, Transaction(s.book[action.index], action))
  }

  ghost function Run(s: State, accounts: map<string, AccountType>, actions: seq<Action>): State
    decreases |actions|
  {
    if actions == [] then s else Run(Step(s, accounts, actions[0]), accounts, actions[1..])
  }

  // ----- the invariant

  ghost predicate KeysUnique(book: seq<Rows>) {
    forall i, j | 0 <= i < j < |book| :: !SameKey(book[i].op.identity, book[j].op.identity)
  }

  /** An answer is about its operation, and an acceptance stays true of it. */
  ghost predicate TrueAnswer(rows: Rows, outcome: Outcome) {
    && outcome.operationId == rows.op.identity.operationId
    && (outcome.AcceptedOutcome? ==>
          && Ours(rows) && rows.op.status in {Accepted, Reconciled}
          && outcome == Acceptance(rows, rows.lines, outcome.acceptedAt)
          && rows.op.engineAcceptedAt == Some(outcome.acceptedAt))
  }

  /** A lookup reports a refusal only of an operation that is stored as refused, and that stays so. */
  ghost predicate TrueRefusal(rows: Rows, answer: Answered) {
    answer.found && answer.outcome.RejectedOutcome? ==> rows.op.status == Rejected
  }

  ghost predicate AnswersTrue(s: State) {
    forall a | a in s.answers ::
      a.index < |s.book| && TrueAnswer(s.book[a.index], a.outcome) && TrueRefusal(s.book[a.index], a)
  }

  ghost predicate BookFits(book: seq<Rows>) {
    KeysUnique(book) && forall i | 0 <= i < |book| :: RecordFits(book[i])
  }

  predicate OnItsSide(book: seq<Rows>, accounts: map<string, AccountType>, scope: Scope, account: string) {
    account in accounts ==> !Violates(accounts[account], BalanceOf(book, scope, account))
  }

  /** No account stands on the side its type forbids, in any scope. */
  ghost predicate ConstraintsHold(book: seq<Rows>, accounts: map<string, AccountType>) {
    forall scope, account :: OnItsSide(book, accounts, scope, account)
  }

  ghost predicate Safe(s: State, accounts: map<string, AccountType>) {
    BookFits(s.book) && AnswersTrue(s) && ConstraintsHold(s.book, accounts)
  }

  // ----- transactions that move no balance

  /** What every transaction but the ledger's own posting keeps. */
  ghost predicate Quiet(before: Rows, after: Rows) {
    && RecordFits(after) && SameIntent(before, after)
    && (before.op.status in {Accepted, Reconciled} <==> after.op.status in {Accepted, Reconciled})
    && (before.op.status in {Accepted, Reconciled} ==> after.op.engineAcceptedAt == before.op.engineAcceptedAt)
    && (before.op.status == Rejected ==> after.op.status == Rejected)
  }

  lemma BeginIsQuiet(rows: Rows, reconcile: bool, routing: Routing, now: Time)
    requires RecordFits(rows)
    ensures var after := BeginSubmission(rows, reconcile, Postgresql, routing, now).0;
      after.Success? ==> Quiet(rows, after.value)
  {
    BeginSubmissionKeeps(rows, reconcile, Postgresql, routing, now);
  }

  lemma DeferIsQuiet(rows: Rows, now: Time)
    requires RecordFits(rows)
    ensures DeferBlocked(rows, now).Success? ==> Quiet(rows, DeferBlocked(rows, now).value)
  {
    DeferBlockedKeeps(rows, now);
  }

  lemma IdentifyIsQuiet(rows: Rows)
    requires RecordFits(rows)
    ensures var after := PersistIdentities(rows, ExpectedIds(rows.op.identity, rows.lines)).0;
      after.Success? ==> Quiet(rows, after.value)
  {
    PersistedIds(rows);
    PersistIdentitiesKeeps(rows, ExpectedIds(rows.op.identity, rows.lines));
  }

  lemma ExpectedIdsDistinct(identity: Identity, lines: seq<Line>)
    ensures |set id | id in ExpectedIds(identity, lines)| == |ExpectedIds(identity, lines)|
  {
    DistinctHaveFullSet(ExpectedIds(identity, lines));
  }

  /** A true acceptance passes the receipt's mapping check. */
  lemma TrueAnswerMatches(rows: Rows, outcome: Outcome)
    requires RecordFits(rows) && outcome.AcceptedOutcome? && TrueAnswer(rows, outcome)
    ensures MappingMatches(rows, outcome)
  {
    ExpectedIdsDistinct(rows.op.identity, rows.lines);
    KeysAreInitial(rows.transfers, |PairsOf(rows.lines)|);
  }

  lemma ReceiveIsQuiet(rows: Rows, outcome: Outcome, observed: Option<Engine>, now: Time)
    requires RecordFits(rows) && TrueAnswer(rows, outcome)
    ensures var after := WriteReceipt(rows, outcome, observed, now);
      after.Success? ==> Quiet(rows, after.value)
  {
    if outcome.AcceptedOutcome? { TrueAnswerMatches(rows, outcome); }
    WriteReceiptKeeps(rows, outcome, observed, now);
    if WriteReceipt(rows, outcome, observed, now).Success? {
      ReceiptKeepsIds(rows, outcome, observed, now);
    }
  }

  lemma FinalizeIsQuiet(rows: Rows, now: Time)
    requires RecordFits(rows)
    ensures FinalizeAccepted(rows, now).Success? ==> Quiet(rows, FinalizeAccepted(rows, now).value)
  {
    FinalizeAcceptedKeeps(rows, now);
    if FinalizeAccepted(rows, now).Success? { FinalizeKeepsIds(rows, now); }
  }

  lemma RebuildIsQuiet(rows: Rows, outcome: Outcome, now: Time)
    requires RecordFits(rows) && outcome.AcceptedOutcome? && TrueAnswer(rows, outcome)
    ensures |outcome.transferIds| == |PairsOf(rows.lines)|
    ensures RebuildAccepted(rows, outcome, now).Success? ==> Quiet(rows, RebuildAccepted(rows, outcome, now).value)
  {
    NothingMissing(rows, outcome.transferIds);
    RebuildProjectionKeeps(rows, outcome, now);
    if RebuildAccepted(rows, outcome, now).Success? { RebuildKeepsIds(rows, outcome, now); }
  }

  lemma TransactionIsQuiet(rows: Rows, action: Action)
    requires RecordFits(rows)
    requires action.Receive? || action.Rebuild? ==> TrueAnswer(rows, action.outcome)
    ensures Transaction(rows, action).Success? ==> Quiet(rows, Transaction(rows, action).value)
  {
    match action
    case Begin(_, reconcile, routing, now) => BeginIsQuiet(rows, reconcile, routing, now);
    case Defer(_, now) => DeferIsQuiet(rows, now);
    case Identify(_) => IdentifyIsQuiet(rows);
    case Receive(_, outcome, now) => ReceiveIsQuiet(rows, outcome, Some(Postgresql), now);
    case Turn(_, recovery, observed, now) => ReceiveIsQuiet(rows, Failed(rows, recovery), observed, now);
    case Finalize(_, now) => FinalizeIsQuiet(rows, now);
    case Rebuild(_, outcome, now) => if outcome.AcceptedOutcome? { RebuildIsQuiet(rows, outcome, now); }
    case _ =>
  }

  lemma QuietMovesNothing(book: seq<Rows>, i: nat, after: Rows, scope: Scope, account: string)
    requires i < |book| && RecordFits(book[i]) && Quiet(book[i], after)
    ensures BalanceOf(book[i := after], scope, account) == BalanceOf(book, scope, account)
  {
    assert Contribution(after, scope, account) == Contribution(book[i], scope, account) by {
      PostedIffAccepted(book[i]);
      PostedIffAccepted(after);
    }
    BalanceAfterUpdate(book, i, after, scope, account);
  }

  /** Replacing one record by a later state of the same operation keeps keys, records and answers. */
  lemma UpdateKeepsBook(s: State, i: nat, after: Rows)
    requires BookFits(s.book) && AnswersTrue(s) && i < |s.book| && RecordFits(after) && SameIntent(s.book[i], after)
    requires s.book[i].op.status in {Accepted, Reconciled} ==>
      after.op.status in {Accepted, Reconciled} && after.op.engineAcceptedAt == s.book[i].op.engineAcceptedAt
    requires s.book[i].op.status == Rejected ==> after.op.status == Rejected
    ensures BookFits(s.book[i := after]) && AnswersTrue(s.(book := s.book[i := after]))
  {
  }

  lemma QuietKeeps(s: State, accounts: map<string, AccountType>, i: nat, after: Rows)
    requires Safe(s, accounts) && i < |s.book| && Quiet(s.book[i], after)
    ensures Safe(s.(book := s.book[i := after]), accounts)
  {
    UpdateKeepsBook(s, i, after);
    var book := s.book[i := after];
    forall scope, account ensures OnItsSide(book, accounts, scope, account)
    {
      assert OnItsSide(s.book, accounts, scope, account);
      QuietMovesNothing(s.book, i, after, scope, account);
    }
  }

  // ----- posting

  /** What one accepted post does to the record. */
  lemma AcceptedRecord(rows: Rows, ids: seq<TransferId>, now: Time)
    requires RecordFits(rows) && Ours(rows) && rows.op.status in {Intent, Submitted, Unknown}
    requires ids == ExpectedIds(rows.op.identity, rows.lines)
    ensures var after := AcceptInPostgresql(rows, ids, now);
      && after.Success? && RecordFits(after.value) && SameIntent(rows, after.value) && IsPosted(after.value)
      && after.value.op.status == Accepted && after.value.op.engineAcceptedAt == Some(now)
  {
    AcceptInPostgresqlKeeps(rows, ids, now);
    PostingBalanced(rows.lines);
    RebuiltIds(rows.transfers, ids, now);
  }

  /** The identities depend only on how many transfers there are. */
  lemma SameCountSameIds(identity: Identity, left: seq<Line>, right: seq<Line>)
    requires |PairsOf(left)| == |PairsOf(right)|
    ensures ExpectedIds(identity, left) == ExpectedIds(identity, right)
  {
  }

  /** An accepting decision is about an unposted record of ours whose lines are the input's. */
  lemma AcceptDecision(book: seq<Rows>, accounts: map<string, AccountType>, input: PostInput)
    requires BookFits(book) && Decide(book, accounts, input).Accept?
    ensures var rows := book[Decide(book, accounts, input).index];
      && Ours(rows) && rows.op.status in {Intent, Submitted, Unknown} && rows.op.identity.operationId == input.operationId
      && ExpectedIds(rows.op.identity, input.lines) == ExpectedIds(rows.op.identity, rows.lines)
      && multiset(rows.lines) == multiset(input.lines)
      && (forall line | line in input.lines :: line.account in accounts)
      && !Overdraws(book, accounts, ScopeOf(rows), input.lines)
  {
    var rows := book[Decide(book, accounts, input).index];
    KeysAreInitial(rows.transfers, |PairsOf(rows.lines)|);
    SameCountSameIds(rows.op.identity, input.lines, rows.lines);
  }

  lemma {:induction false} UntouchedAccount(account: string, lines: seq<Line>)
    requires forall line | line in lines :: line.account != account
    ensures LinesBalance(account, lines) == Balance(0, 0)
  {
    if lines != [] { UntouchedAccount(account, lines[1..]); }
  }

  /** An accepted post adds the journal to its scope and nothing elsewhere. */
  lemma PostingAdds(book: seq<Rows>, i: nat, after: Rows, scope: Scope, account: string)
    requires i < |book| && !IsPosted(book[i]) && IsPosted(after) && SameIntent(book[i], after)
    ensures BalanceOf(book[i := after], scope, account)
         == if ScopeOf(after) == scope then Add(BalanceOf(book, scope, account), LinesBalance(account, after.lines))
            else BalanceOf(book, scope, account)
  {
    BalanceAfterUpdate(book, i, after, scope, account);
  }

  lemma PostingKeepsConstraints(book: seq<Rows>, accounts: map<string, AccountType>, i: nat, after: Rows, lines: seq<Line>)
    requires i < |book| && !IsPosted(book[i]) && IsPosted(after) && SameIntent(book[i], after)
    requires ConstraintsHold(book, accounts) && multiset(after.lines) == multiset(lines)
    requires (forall line | line in lines :: line.account in accounts) && !Overdraws(book, accounts, ScopeOf(after), lines)
    ensures ConstraintsHold(book[i := after], accounts)
  {
    var posted := book[i := after];
    forall scope, account ensures OnItsSide(posted, accounts, scope, account)
    {
      assert OnItsSide(book, accounts, scope, account);
      PostingAdds(book, i, after, scope, account);
      LinesBalanceIgnoresOrder(account, after.lines, lines);
      if exists line :: line in lines && line.account == account {
        var line :| line in lines && line.account == account;
        assert !Violates(accounts[line.account], Add(BalanceOf(book, ScopeOf(after), line.account), LinesBalance(line.account, lines)));
      } else {
        UntouchedAccount(account, lines);
      }
    }
  }

  /** Without an acceptance the book stays as it is; every answer names the operation it was asked about. */
  lemma UnacceptedPost(book: seq<Rows>, accounts: map<string, AccountType>, input: PostInput, now: Time)
    requires !Decide(book, accounts, input).Accept?
    ensures var (posted, outcome) := PostJournal(book, accounts, input, now);
      posted == book && outcome == Decide(book, accounts, input).outcome && outcome.operationId == input.operationId
  {
    FoundHasKey(book, input.tenantId, input.operationId);
  }

  /** Posting never fails for want of a legal transition, so only a lost connection leaves the outcome unknown. */
  lemma AcceptedPost(book: seq<Rows>, accounts: map<string, AccountType>, input: PostInput, now: Time)
    requires BookFits(book)
    ensures Decide(book, accounts, input).Accept? ==>
      var i := Decide(book, accounts, input).index;
      var ids := ExpectedIds(book[i].op.identity, book[i].lines);
      && AcceptInPostgresql(book[i], ids, now).Success?
      && PostJournal(book, accounts, input, now)
           == (book[i := AcceptInPostgresql(book[i], ids, now).value], Acceptance(book[i], input.lines, now))
  {
    if Decide(book, accounts, input).Accept? {
      AcceptDecision(book, accounts, input);
      var rows := book[Decide(book, accounts, input).index];
      AcceptedRecord(rows, ExpectedIds(rows.op.identity, input.lines), now);
    }
  }

  lemma PostJournalKeeps(s: State, accounts: map<string, AccountType>, input: PostInput, now: Time)
    requires Safe(s, accounts)
    ensures Safe(s.(book := PostJournal(s.book, accounts, input, now).0), accounts)
  {
    var decision := Decide(s.book, accounts, input);
    if decision.Accept? {
      AcceptedPost(s.book, accounts, input, now);
      AcceptDecision(s.book, accounts, input);
      var rows := s.book[decision.index];
      var ids := ExpectedIds(rows.op.identity, rows.lines);
      AcceptedRecord(rows, ids, now);
      AcceptanceKeeps(s, accounts, decision.index, AcceptInPostgresql(rows, ids, now).value, input.lines);
    } else {
      UnacceptedPost(s.book, accounts, input, now);
    }
  }

  lemma AcceptanceKeeps(s: State, accounts: map<string, AccountType>, i: nat, after: Rows, lines: seq<Line>)
    requires Safe(s, accounts) && i < |s.book| && RecordFits(after) && SameIntent(s.book[i], after) && IsPosted(after)
    requires s.book[i].op.status in {Intent, Submitted, Unknown} && multiset(after.lines) == multiset(lines)
    requires (forall line | line in lines :: line.account in accounts) && !Overdraws(s.book, accounts, ScopeOf(after), lines)
    ensures Safe(s.(book := s.book[i := after]), accounts)
  {
    UpdateKeepsBook(s, i, after);
    PostingKeepsConstraints(s.book, accounts, i, after, lines);
  }

  lemma {:induction false} FoundHasKey(book: seq<Rows>, tenantId: string, operationId: string)
    ensures var found := Find(book, tenantId, operationId);
      found.Some? ==> book[found.value].op.identity.tenantId == tenantId && book[found.value].op.identity.operationId == operationId
  {
    if book != [] { FoundHasKey(book[1..], tenantId, operationId); }
  }

  lemma {:induction false} FindOwn(book: seq<Rows>, i: nat)
    requires KeysUnique(book) && i < |book|
    ensures Find(book, book[i].op.identity.tenantId, book[i].op.identity.operationId) == Some(i)
  {
    if i > 0 {
      assert !SameKey(book[0].op.identity, book[i].op.identity);
      assert KeysUnique(book[1..]) by {
        assert forall k | 0 <= k < |book[1..]| :: book[1..][k] == book[k + 1];
      }
      FindOwn(book[1..], i - 1);
    }
  }

  /** A worker's own journal matches what is stored. */
  lemma OwnInputMatches(rows: Rows)
    requires RecordFits(rows) && Ours(rows)
    ensures LocalRefusal(rows.lines).None? && OperationMatches(rows.op.identity, InputOf(rows))
    ensures JournalLinesMatch(rows.lines, rows.lines) && TransferRowsMatch(rows.transfers, rows.op.identity, rows.lines)
  {
    ValidationsAgree(rows.lines);
    WellFormedHasTransfers(rows.lines);
    KeysAreInitial(rows.transfers, |PairsOf(rows.lines)|);
  }

  /** What the ledger decides about a worker's own journal: foreign operations aside, the stored status decides. */
  lemma {:induction false} OwnDecision(book: seq<Rows>, accounts: map<string, AccountType>, i: nat)
    requires BookFits(book) && i < |book|
    ensures var rows, decision := book[i], Decide(book, accounts, InputOf(book[i]));
      && (decision.Accept? ==> decision.index == i && Ours(rows))
      && (decision.Replay? <==> Ours(rows) && rows.op.status in {Accepted, Reconciled})
      && (decision.Replay? ==> decision.outcome == Acceptance(rows, rows.lines, AcceptedAt(rows.op)))
      && (decision.Refuse? ==> !decision.outcome.AcceptedOutcome?)
  {
    FindOwn(book, i);
    if Ours(book[i]) {
      OwnInputMatches(book[i]);
      MatchingDecision(book, accounts, i);
    } else {
      ForeignIsRefused(book, accounts, i);
    }
  }

  /** For a stored operation that matches the input, the status decides. */
  lemma {:induction false} MatchingDecision(book: seq<Rows>, accounts: map<string, AccountType>, i: nat)
    requires i < |book| && Find(book, book[i].op.identity.tenantId, book[i].op.identity.operationId) == Some(i)
    requires LocalRefusal(book[i].lines).None? && OperationMatches(book[i].op.identity, InputOf(book[i]))
    requires JournalLinesMatch(book[i].lines, book[i].lines)
    requires TransferRowsMatch(book[i].transfers, book[i].op.identity, book[i].lines)
    ensures var rows, decision := book[i], Decide(book, accounts, InputOf(book[i]));
      && (decision.Accept? ==> decision.index == i)
      && (decision.Replay? <==> rows.op.status in {Accepted, Reconciled})
      && (decision.Replay? ==> decision.outcome == Acceptance(rows, rows.lines, AcceptedAt(rows.op)))
      && (decision.Refuse? ==> !decision.outcome.AcceptedOutcome?)
  {
  }

  /** An operation of another engine is never this ledger's to post. */
  lemma {:induction false} ForeignIsRefused(book: seq<Rows>, accounts: map<string, AccountType>, i: nat)
    requires i < |book| && !Ours(book[i]) && Find(book, book[i].op.identity.tenantId, book[i].op.identity.operationId) == Some(i)
    ensures Decide(book, accounts, InputOf(book[i])).Refuse?
    ensures !Decide(book, accounts, InputOf(book[i])).outcome.AcceptedOutcome?
  {
  }

  lemma OwnPostIsTrue(book: seq<Rows>, accounts: map<string, AccountType>, i: nat, now: Time)
    requires BookFits(book) && i < |book|
    ensures var (posted, outcome) := PostJournal(book, accounts, InputOf(book[i]), now);
      |posted| == |book| && TrueAnswer(posted[i], outcome)
  {
    OwnDecision(book, accounts, i);
    if Decide(book, accounts, InputOf(book[i])).Accept? {
      AcceptedPost(book, accounts, InputOf(book[i]), now);
      AcceptDecision(book, accounts, InputOf(book[i]));
      AcceptedRecord(book[i], ExpectedIds(book[i].op.identity, book[i].lines), now);
    } else {
      UnacceptedPost(book, accounts, InputOf(book[i]), now);
    }
  }

  lemma OwnLookup(book: seq<Rows>, i: nat)
    requires BookFits(book) && i < |book| && Ours(book[i]) && book[i].op.status in {Accepted, Reconciled}
    ensures var rows := book[i];
      ReconcileJournal(book, InputOf(rows))
        == if exists p | p in rows.transfers :: rows.transfers[p].status != RowAccepted
           then ManualOutcome(rows.op.identity.operationId, MappingMismatch)
           else Acceptance(rows, rows.lines, AcceptedAt(rows.op))
  {
    FindOwn(book, i);
    OwnInputMatches(book[i]);
  }

  lemma OwnLookupIsTrue(book: seq<Rows>, i: nat)
    requires BookFits(book) && i < |book|
    ensures TrueAnswer(book[i], ReconcileJournal(book, InputOf(book[i])))
    ensures TrueRefusal(book[i], Answered(i, ReconcileJournal(book, InputOf(book[i])), true))
  {
    FindOwn(book, i);
    OwnLinesAreSound(book[i]);
    if Ours(book[i]) && book[i].op.status in {Accepted, Reconciled} { OwnLookup(book, i); }
  }

  lemma OwnLinesAreSound(rows: Rows)
    requires RecordFits(rows)
    ensures LocalRefusal(rows.lines).None?
  {
    ValidationsAgree(rows.lines);
    WellFormedHasTransfers(rows.lines);
  }

  /**
   The lookup of an own operation answers not found if and only if it is not settled, and rejected if and only if it is
   stored as rejected, with the stored reason; a stored recovery is answered as manual.
   */
  lemma OwnLookupUnsettled(book: seq<Rows>, i: nat)
    requires BookFits(book) && i < |book| && Ours(book[i])
    ensures var rows := book[i];
      var answer := ReconcileJournal(book, InputOf(rows));
      && answer.operationId == rows.op.identity.operationId
      && (answer == UnknownOutcome(rows.op.identity.operationId, NotFound) <==> rows.op.status in {Intent, Submitted, Unknown})
      && (answer.UnknownOutcome? ==> answer.why == NotFound)
      && (answer.RejectedOutcome? <==> rows.op.status == Rejected)
      && (answer.RejectedOutcome? ==> rows.op.rejectionReason == Some(answer.reason))
      && (answer.AcceptedOutcome? ==> rows.op.status in {Accepted, Reconciled})
      && (rows.op.status == ManualRecovery ==>
            && answer.ManualOutcome?
            && (answer.recovery == ConflictingReplay <==> rows.op.recoveryReason == Some(ConflictingReplay))
            && (answer.recovery == ReconciliationRequired <==> rows.op.recoveryReason != Some(ConflictingReplay)))
  {
    FindOwn(book, i);
    OwnInputMatches(book[i]);
  }

  /** Another engine's operation is never found here: the mapping does not match. */
  lemma ForeignLookup(book: seq<Rows>, i: nat)
    requires BookFits(book) && i < |book| && !Ours(book[i])
    ensures ReconcileJournal(book, InputOf(book[i])) == ManualOutcome(book[i].op.identity.operationId, MappingMismatch)
  {
    FindOwn(book, i);
    OwnLinesAreSound(book[i]);
  }

  lemma AnswerKept(s: State, accounts: map<string, AccountType>, answer: Answered)
    requires Safe(s, accounts) && answer.index < |s.book|
    requires TrueAnswer(s.book[answer.index], answer.outcome) && TrueRefusal(s.book[answer.index], answer)
    ensures Safe(s.(answers := s.answers + {answer}), accounts)
  {
  }

  // ----- creating operations

  lemma {:induction false} SumSnoc(parts: seq<Balance>, part: Balance)
    ensures Sum(parts + [part]) == Add(Sum(parts), part)
  {
    if parts == [] {
      assert parts + [part] == [part] && Sum([part][1..]) == Balance(0, 0);
    } else {
      SumSnoc(parts[1..], part);
      assert (parts + [part])[1..] == parts[1..] + [part];
    }
  }

  lemma CreatingAddsNothing(book: seq<Rows>, rows: Rows, scope: Scope, account: string)
    requires !IsPosted(rows)
    ensures BalanceOf(book + [rows], scope, account) == BalanceOf(book, scope, account)
  {
    assert Contributions(book + [rows], scope, account) == Contributions(book, scope, account) + [Balance(0, 0)];
    SumSnoc(Contributions(book, scope, account), Balance(0, 0));
  }

  lemma CreateKeeps(s: State, accounts: map<string, AccountType>, identity: Identity, lines: seq<Line>, now: Time)
    requires Safe(s, accounts) && Creatable(s.book, identity, lines)
    ensures Safe(s.(book := s.book + [IntentRows(identity, lines, now, map[])]), accounts)
  {
    var rows := IntentRows(identity, lines, now, map[]);
    IntentIsConsistent(identity, lines, now, map[]);
    forall scope, account ensures OnItsSide(s.book + [rows], accounts, scope, account)
    {
      assert OnItsSide(s.book, accounts, scope, account);
      CreatingAddsNothing(s.book, rows, scope, account);
    }
  }

  // ----- every run

  lemma TransactionKeeps(s: State, accounts: map<string, AccountType>, action: Action)
    requires Safe(s, accounts) && !action.Create? && !action.PostOther? && action.index < |s.book| && Enabled(s, action)
    ensures Safe(Commit(s, action.index, Transaction(s.book[action.index], action)), accounts)
  {
    var rows := s.book[action.index];
    TransactionIsQuiet(rows, action);
    if Transaction(rows, action).Success? { QuietKeeps(s, accounts, action.index, Transaction(rows, action).value); }
  }

  lemma StepIsSafe(s: State, accounts: map<string, AccountType>, action: Action)
    requires Safe(s, accounts)
    ensures Safe(Step(s, accounts, action), accounts)
  {
    if action.Create? {
      if Creatable(s.book, action.identity, action.lines) { CreateKeeps(s, accounts, action.identity, action.lines, action.now); }
    } else if action.PostOther? {
      PostJournalKeeps(s, accounts, action.input, action.now);
    } else if action.index < |s.book| && Enabled(s, action) {
      if action.Post? {
        PostStepIsSafe(s, accounts, action.index, action.now);
      } else if action.Lookup? {
        OwnLookupIsTrue(s.book, action.index);
        AnswerKept(s, accounts, Answered(action.index, ReconcileJournal(s.book, InputOf(s.book[action.index])), true));
      } else {
        TransactionKeeps(s, accounts, action);
      }
    }
  }

  lemma PostStepIsSafe(s: State, accounts: map<string, AccountType>, i: nat, now: Time)
    requires Safe(s, accounts) && i < |s.book|
    ensures var (book, outcome) := PostJournal(s.book, accounts, InputOf(s.book[i]), now);
      Safe(State(book, s.answers + {Answered(i, outcome, false)}), accounts)
  {
    var (book, outcome) := PostJournal(s.book, accounts, InputOf(s.book[i]), now);
    PostJournalKeeps(s, accounts, InputOf(s.book[i]), now);
    OwnPostIsTrue(s.book, accounts, i, now);
    AnswerKept(s.(book := book), accounts, Answered(i, outcome, false));
  }

  lemma {:induction false} RunIsSafe(s: State, accounts: map<string, AccountType>, actions: seq<Action>)
    requires Safe(s, accounts)
    ensures Safe(Run(s, accounts, actions), accounts)
    decreases |actions|
  {
    if actions != [] {
      StepIsSafe(s, accounts, actions[0]);
      RunIsSafe(Step(s, accounts, actions[0]), accounts, actions[1..]);
    }
  }

  lemma {:induction false} EqualSides(parts: seq<Balance>)
    requires forall k | 0 <= k < |parts| :: parts[k].debits == parts[k].credits
    ensures Sum(parts).debits == Sum(parts).credits
  {
    if parts != [] { EqualSides(parts[1..]); }
  }

  /**
   In every state that creating, posting, receipting, finalising and rebuilding can reach, no account of any
   scope stands on its forbidden side and all debits of a scope equal all its credits.
   */
  lemma LedgerIsSafe(accounts: map<string, AccountType>, actions: seq<Action>, scope: Scope, account: string)
    requires account in accounts
    ensures var book := Run(State([], {}), accounts, actions).book;
      && !Violates(accounts[account], BalanceOf(book, scope, account))
      && TrialBalance(book, scope).debits == TrialBalance(book, scope).credits
  {
    assert Safe(State([], {}), accounts);
    RunIsSafe(State([], {}), accounts, actions);
    var book := Run(State([], {}), accounts, actions).book;
    assert OnItsSide(book, accounts, scope, account);
    EqualSides(TrialContributions(book, scope));
  }

  /** Posting an accepted operation again changes no row, so no balance, and answers what was answered first. */
  lemma ReplayChangesNothing(s: State, accounts: map<string, AccountType>, i: nat, first: Time, later: Time)
    requires Safe(s, accounts) && i < |s.book|
    ensures var (posted, outcome) := PostJournal(s.book, accounts, InputOf(s.book[i]), first);
      outcome.AcceptedOutcome? ==>
        |posted| == |s.book| && PostJournal(posted, accounts, InputOf(posted[i]), later) == (posted, outcome)
  {
    var (posted, outcome) := PostJournal(s.book, accounts, InputOf(s.book[i]), first);
    if outcome.AcceptedOutcome? {
      PostJournalKeeps(s, accounts, InputOf(s.book[i]), first);
      OwnPostIsTrue(s.book, accounts, i, first);
      OwnDecision(posted, accounts, i);
      UnacceptedPost(posted, accounts, InputOf(posted[i]), later);
    }
  }

  // ----- finalisation

  /**
   Finalisation can never commit here: acceptance has posted the journal, posted journals are immutable, and
   finalisation writes the journal again.
   */
  lemma FinalizationNeverCommits(rows: Rows, now: Time)
    requires RecordFits(rows) && Ours(rows) && rows.op.status == Accepted
    ensures FinalizeAccepted(rows, now) == Failure(JournalImmutable)
  {
    FinalizeCommitsIffDraft(rows, now);
  }

  /** Whatever else happens, an accepted operation of ours stays accepted until it is rebuilt. */
  lemma {:induction false} AcceptedUntilRebuilt(s: State, accounts: map<string, AccountType>, actions: seq<Action>, i: nat)
    requires Safe(s, accounts) && i < |s.book| && Ours(s.book[i]) && s.book[i].op.status == Accepted
    requires forall action | action in actions && action.Rebuild? :: action.index != i
    ensures var book := Run(s, accounts, actions).book;
      i < |book| && SameIntent(s.book[i], book[i]) && book[i].op.status == Accepted
    decreases |actions|
  {
    if actions != [] {
      assert actions[0] in actions;
      StepIsSafe(s, accounts, actions[0]);
      StepLeavesAccepted(s, accounts, actions[0], i);
      AcceptedUntilRebuilt(Step(s, accounts, actions[0]), accounts, actions[1..], i);
    }
  }

  lemma StepLeavesAccepted(s: State, accounts: map<string, AccountType>, action: Action, i: nat)
    requires Safe(s, accounts) && i < |s.book| && Ours(s.book[i]) && s.book[i].op.status == Accepted
    requires action.Rebuild? ==> action.index != i
    ensures var book := Step(s, accounts, action).book;
      i < |book| && SameIntent(s.book[i], book[i]) && book[i].op.status == Accepted
  {
    if action.PostOther? {
      PostLeavesAccepted(s.book, accounts, action.input, action.now, i);
    } else if !action.Create? && action.index < |s.book| && Enabled(s, action) {
      if action.Post? {
        PostLeavesAccepted(s.book, accounts, InputOf(s.book[action.index]), action.now, i);
      } else if !action.Lookup? && action.index == i {
        TransactionIsQuiet(s.book[i], action);
        TransactionLeavesAccepted(s.book[i], action);
      }
    }
  }

  lemma PostLeavesAccepted(book: seq<Rows>, accounts: map<string, AccountType>, input: PostInput, now: Time, i: nat)
    requires BookFits(book) && i < |book| && Ours(book[i]) && book[i].op.status == Accepted
    ensures PostJournal(book, accounts, input, now).0[i] == book[i]
  {
    if Decide(book, accounts, input).Accept? {
      AcceptDecision(book, accounts, input);
    }
  }

  lemma TransactionLeavesAccepted(rows: Rows, action: Action)
    requires RecordFits(rows) && Ours(rows) && rows.op.status == Accepted && !action.Rebuild?
    requires action.Receive? ==> TrueAnswer(rows, action.outcome)
    ensures Transaction(rows, action).Success? ==> Transaction(rows, action).value.op.status == Accepted
  {
    match action
    case Begin(_, reconcile, routing, now) => BeginSubmissionKeeps(rows, reconcile, Postgresql, routing, now);
    case Receive(_, outcome, now) =>
      if outcome.AcceptedOutcome? { TrueAnswerMatches(rows, outcome); }
    case Finalize(_, now) => FinalizationNeverCommits(rows, now);
    case _ =>
  }

  /** The ledger takes the journal from an empty scope: known accounts, none of them left on its forbidden side. */
  ghost predicate Postable(accounts: map<string, AccountType>, lines: seq<Line>) {
    forall line | line in lines ::
      line.account in accounts && !Violates(accounts[line.account], LinesBalance(line.account, lines))
  }

  /** An unposted record of ours may be posted when its accounts are known and none would be overdrawn. */
  ghost predicate MayPost(book: seq<Rows>, accounts: map<string, AccountType>, i: nat)
    requires i < |book|
  {
    && Ours(book[i]) && book[i].op.status in {Intent, Submitted, Unknown}
    && (forall line | line in book[i].lines :: line.account in accounts)
    && !Overdraws(book, accounts, ScopeOf(book[i]), book[i].lines)
  }

  lemma OwnIsAccepted(book: seq<Rows>, accounts: map<string, AccountType>, i: nat)
    requires BookFits(book) && i < |book| && MayPost(book, accounts, i)
    ensures Decide(book, accounts, InputOf(book[i])) == Accept(i)
  {
    FindOwn(book, i);
    OwnInputMatches(book[i]);
  }

  lemma OwnAcceptance(book: seq<Rows>, accounts: map<string, AccountType>, i: nat, now: Time)
    requires BookFits(book) && i < |book| && MayPost(book, accounts, i)
    ensures var (posted, outcome) := PostJournal(book, accounts, InputOf(book[i]), now);
      && posted == book[i := posted[i]] && RecordFits(posted[i]) && SameIntent(book[i], posted[i]) && IsPosted(posted[i])
      && posted[i].op.status == Accepted && outcome == Acceptance(posted[i], posted[i].lines, now)
      && posted[i].op.engineAcceptedAt == Some(now)
  {
    OwnIsAccepted(book, accounts, i);
    AcceptedPost(book, accounts, InputOf(book[i]), now);
    var ids := ExpectedIds(book[i].op.identity, book[i].lines);
    AcceptedRecord(book[i], ids, now);
  }

  lemma NothingPosted(book: seq<Rows>, scope: Scope, account: string)
    requires forall i | 0 <= i < |book| :: !(IsPosted(book[i]) && ScopeOf(book[i]) == scope)
    ensures BalanceOf(book, scope, account) == Balance(0, 0)
  {
    assert BalanceOf(book, scope, account).debits == 0 by { NoDebits(Contributions(book, scope, account)); }
    assert BalanceOf(book, scope, account).credits == 0 by { NoCredits(Contributions(book, scope, account)); }
  }

  /** The first journal of a scope may be posted when it leaves no account on its forbidden side. */
  lemma MayPostFirst(book: seq<Rows>, accounts: map<string, AccountType>, i: nat)
    requires i < |book| && Ours(book[i]) && book[i].op.status in {Intent, Submitted, Unknown} && Postable(accounts, book[i].lines)
    requires forall k | 0 <= k < |book| :: !(IsPosted(book[k]) && ScopeOf(book[k]) == ScopeOf(book[i]))
    ensures MayPost(book, accounts, i)
  {
    forall line | line in book[i].lines ensures BalanceOf(book, ScopeOf(book[i]), line.account) == Balance(0, 0) {
      NothingPosted(book, ScopeOf(book[i]), line.account);
    }
  }

  /** A submission from the stored intent to its finalisation. */
  function FirstSubmission(identity: Identity, lines: seq<Line>, now: Time): seq<Action> {
    [Create(identity, lines, now), Begin(0, false, Routing(true, Some(Postgresql), true), now), Identify(0), Post(0, now)]
  }

  /** An accepted operation that finalisation cannot move. */
  ghost predicate Stuck(s: State, accounts: map<string, AccountType>, identity: Identity, lines: seq<Line>, now: Time) {
    && |s.book| == 1 && s.book[0].op.identity == identity && s.book[0].lines == lines
    && s.book[0].op.status == Accepted && IsPosted(s.book[0])
    && FinalizeAccepted(s.book[0], now) == Failure(JournalImmutable)
    && Step(s, accounts, Finalize(0, now)) == s
  }

  lemma PostedIsStuck(s: State, accounts: map<string, AccountType>, now: Time)
    requires |s.book| == 1 && RecordFits(s.book[0]) && IsPosted(s.book[0]) && s.book[0].op.status == Accepted
    ensures Stuck(s, accounts, s.book[0].op.identity, s.book[0].lines, now)
  {
    FinalizationNeverCommits(s.book[0], now);
  }

  /** Every journal the ledger takes has a run to an accepted operation, and there finalisation is refused. */
  lemma FinalizationIsRefused(accounts: map<string, AccountType>, identity: Identity, lines: seq<Line>, now: Time)
    requires identity.engine == Postgresql && identity.engineVerified && Creatable([], identity, lines) && Postable(accounts, lines)
    ensures Stuck(Run(State([], {}), accounts, FirstSubmission(identity, lines, now)), accounts, identity, lines, now)
  {
    var s := FirstSubmissionPosts(accounts, identity, lines, now);
    PostsWhenAlone(s, accounts, now);
    PostedIsStuck(Step(s, accounts, Post(0, now)), accounts, now);
  }

  const SAMPLE_ACCOUNTS: map<string, AccountType> := map["cash" := Asset, "sales" := Revenue]

  /** The premise is not empty. */
  lemma SampleIsPostable()
    ensures Postable(SAMPLE_ACCOUNTS, SAMPLE_LINES)
    ensures Creatable([], Identity("row", "tenant", "entity", "op-1", JournalPost, Postgresql, true, "journal", None, "USD", 1,
                                   "event", "actor"), SAMPLE_LINES)
  {
    SampleIsWellFormed();
    assert "cash" in SAMPLE_ACCOUNTS && "sales" in SAMPLE_ACCOUNTS;
  }

  /** Up to the post the record stays unposted. */
  lemma FirstSubmissionPosts(accounts: map<string, AccountType>, identity: Identity, lines: seq<Line>, now: Time) returns (s: State)
    requires Creatable([], identity, lines)
    ensures Alone(s, accounts, identity, lines)
    ensures Run(State([], {}), accounts, FirstSubmission(identity, lines, now)) == Step(s, accounts, Post(0, now))
  {
    var create, begin := Create(identity, lines, now), Begin(0, false, Routing(true, Some(Postgresql), true), now);
    FourSteps(State([], {}), accounts, create, begin, Identify(0), Post(0, now));
    s := Step(State([], {}), accounts, create);
    CreatedAlone(accounts, identity, lines, now);
    BegunAlone(s, accounts, begin);
    s := Step(s, accounts, begin);
    IdentifiedAlone(s, accounts);
    s := Step(s, accounts, Identify(0));
  }

  /** A single unposted record of ours. */
  ghost predicate Alone(s: State, accounts: map<string, AccountType>, identity: Identity, lines: seq<Line>) {
    && Safe(s, accounts) && |s.book| == 1 && s.book[0].op.identity == identity && s.book[0].lines == lines
    && s.book[0].op.status in {Intent, Submitted, Unknown}
  }

  lemma CreatedAlone(accounts: map<string, AccountType>, identity: Identity, lines: seq<Line>, now: Time)
    requires Creatable([], identity, lines)
    ensures Alone(Step(State([], {}), accounts, Create(identity, lines, now)), accounts, identity, lines)
  {
    assert Safe(State([], {}), accounts);
    CreateKeeps(State([], {}), accounts, identity, lines, now);
  }

  lemma BegunAlone(s: State, accounts: map<string, AccountType>, begin: Action)
    requires begin.Begin? && begin.index == 0 && |s.book| == 1 && Alone(s, accounts, s.book[0].op.identity, s.book[0].lines)
    ensures Alone(Step(s, accounts, begin), accounts, s.book[0].op.identity, s.book[0].lines)
  {
    StepIsSafe(s, accounts, begin);
    BeginSubmissionKeeps(s.book[0], begin.reconcile, Postgresql, begin.routing, begin.now);
    TransactionIsQuiet(s.book[0], begin);
  }

  lemma IdentifiedAlone(s: State, accounts: map<string, AccountType>)
    requires |s.book| == 1 && Alone(s, accounts, s.book[0].op.identity, s.book[0].lines)
    ensures Alone(Step(s, accounts, Identify(0)), accounts, s.book[0].op.identity, s.book[0].lines)
  {
    StepIsSafe(s, accounts, Identify(0));
    PersistIdentitiesKeeps(s.book[0], ExpectedIds(s.book[0].op.identity, s.book[0].lines));
  }

  lemma FourSteps(s: State, accounts: map<string, AccountType>, a: Action, b: Action, c: Action, d: Action)
    ensures Run(s, accounts, [a, b, c, d]) == Step(Step(Step(Step(s, accounts, a), accounts, b), accounts, c), accounts, d)
  {
    assert [a, b, c, d][1..] == [b, c, d] && [b, c, d][1..] == [c, d] && [c, d][1..] == [d] && [d][1..] == [];
    var s1 := Step(s, accounts, a);
    var s2 := Step(s1, accounts, b);
    var s3 := Step(s2, accounts, c);
    assert Run(s3, accounts, [d]) == Run(Step(s3, accounts, d), accounts, []);
    assert Run(s2, accounts, [c, d]) == Run(s3, accounts, [d]);
    assert Run(s1, accounts, [b, c, d]) == Run(s2, accounts, [c, d]);
  }

  lemma PostsWhenAlone(s: State, accounts: map<string, AccountType>, now: Time)
    requires Safe(s, accounts) && |s.book| == 1 && Ours(s.book[0]) && s.book[0].op.status in {Intent, Submitted, Unknown}
    requires Postable(accounts, s.book[0].lines)
    ensures var t := Step(s, accounts, Post(0, now));
      && |t.book| == 1 && SameIntent(s.book[0], t.book[0]) && RecordFits(t.book[0]) && IsPosted(t.book[0])
      && t.book[0].op.status == Accepted
  {
    MayPostFirst(s.book, accounts, 0);
    OwnAcceptance(s.book, accounts, 0, now);
    PostWritesBook(s, accounts, 0, now);
  }

  lemma PostWritesBook(s: State, accounts: map<string, AccountType>, i: nat, now: Time)
    requires i < |s.book|
    ensures Step(s, accounts, Post(i, now)).book == PostJournal(s.book, accounts, InputOf(s.book[i]), now).0
  {
  }

  /** A rebuild from the ledger's own acceptance reconciles it. */
  lemma RebuildReconciles(rows: Rows, outcome: Outcome, now: Time)
    requires RecordFits(rows) && Ours(rows) && rows.op.status == Accepted
    requires outcome.AcceptedOutcome? && TrueAnswer(rows, outcome)
    ensures |outcome.transferIds| == |PairsOf(rows.lines)|
    ensures var after := RebuildAccepted(rows, outcome, now);
      after.Success? && after.value.op.status == Reconciled && after.value.op.reconciledAt == Some(now)
  {
    NothingMissing(rows, outcome.transferIds);
    RebuiltIds(rows.transfers, outcome.transferIds, outcome.acceptedAt);
    assert TransfersUpdateAllowed(rows.transfers, RebuiltRows(rows.transfers, outcome.transferIds, outcome.acceptedAt));
  }
}
