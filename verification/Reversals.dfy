/**
 Journal intents and their reversals: a posted journal is reversed at most once, a reversal is never reversed by
 this path, and its transfers are the source's turned round.
 */
module Reversals {
  import opened Wrappers
  import opened Pairing
  import opened PairingLaws
  import opened JournalValidation
  import opened OperationRecords
  import opened OperationTransactions
  import opened OperationInvariant
  import opened PostgresLedger

  datatype IntentRequest = IntentRequest(
    tenantId: string, legalEntityId: string, operationId: string, operationType: OperationType,
    sourceJournalId: Option<string>, currency: string, mappingVersion: nat, lines: seq<Line>, actorPrincipalId: string)

  datatype Configuration = Configuration(postingEnabled: bool, financialEngine: Engine, baseCurrency: string)

  datatype RevenueProfile = RevenueProfile(receivableAccountId: string, revenueAccountId: string)

  /** What the intent transaction reads besides journals and operations. */
  datatype Environment = Environment(
    authorised: bool, authority: Option<Engine>, configuration: Option<Configuration>, control: Option<Engine>,
    periodOpen: bool, profile: Option<RevenueProfile>, accounts: set<string>)

  /** Identifiers the database generates for a new intent. */
  datatype NewKeys = NewKeys(rowId: string, journalId: string, eventId: string)

  datatype IntentError =
    | InvalidLines
    | Unauthorised
    | OperationConflict
    | LedgerNotActivated
    | CurrencyMismatch
    | PeriodNotOpen
    | ReversalSourceRequired
    | ReversalSourceNotFound
    | ReversalSourceNotPosted
    | ReversalSourceNotReady
    | ReversalAlreadyExists
    | AccountNotFound

  /** An operation with the request it was created from. */
  datatype Stored = Stored(request: IntentRequest, rows: Rows)

  function FindOperation(entries: seq<Stored>, tenantId: string, operationId: string): (found: Option<nat>)
    ensures found.Some? ==>
      && found.value < |entries|
      && entries[found.value].rows.op.identity.tenantId == tenantId && entries[found.value].rows.op.identity.operationId == operationId
  {
    if entries == [] then None
    else if entries[0].rows.op.identity.tenantId == tenantId && entries[0].rows.op.identity.operationId == operationId then Some(0)
    else match FindOperation(entries[1..], tenantId, operationId)
      case Some(i) => Some(i + 1)
      case None => None
  }

  function FindJournal(entries: seq<Stored>, tenantId: string, journalId: string): (found: Option<nat>)
    ensures found.Some? ==>
      && found.value < |entries|
      && entries[found.value].rows.op.identity.tenantId == tenantId && entries[found.value].rows.op.identity.journalId == journalId
  {
    if entries == [] then None
    else if entries[0].rows.op.identity.tenantId == tenantId && entries[0].rows.op.identity.journalId == journalId then Some(0)
    else match FindJournal(entries[1..], tenantId, journalId)
      case Some(i) => Some(i + 1)
      case None => None
  }

  /** The unique key on the source journal. */
  predicate AlreadyReversed(entries: seq<Stored>, tenantId: string, sourceJournalId: string) {
    exists i | 0 <= i < |entries| ::
      entries[i].rows.op.identity.tenantId == tenantId && entries[i].rows.op.identity.sourceJournalId == Some(sourceJournalId)
  }

  predicate ProfileMatches(profile: Option<RevenueProfile>, lines: seq<Line>) {
    && profile.Some? && |lines| == 2
    && lines[0].account == profile.value.receivableAccountId && lines[1].account == profile.value.revenueAccountId
  }

  predicate SourceReady(source: Identity, status: Status, request: IntentRequest, engine: Engine) {
    && source.legalEntityId == request.legalEntityId && source.currency == request.currency
    && source.engineVerified && source.engine == engine && status == Reconciled
  }

  /** The lines of the intent: the request's own, or a posted source's with the sides swapped. */
  ghost function IntentLines(entries: seq<Stored>, request: IntentRequest, engine: Engine): Result<seq<Line>, IntentError> {
    if request.sourceJournalId.None? then Success(request.lines)
    else
      var found := FindJournal(entries, request.tenantId, request.sourceJournalId.value);
      if found.None? then Failure(ReversalSourceNotFound)
      else
        var source := entries[found.value].rows;
        if source.journal.status != Posted then Failure(ReversalSourceNotPosted)
        else if !SourceReady(source.op.identity, source.op.status, request, engine) then Failure(ReversalSourceNotReady)
        else if !WellFormed(SwapLines(source.lines)) || !NoSelfTransfer(SwapLines(source.lines)) then Failure(InvalidLines)
        else Success(SwapLines(source.lines))
  }

  function NewIdentity(request: IntentRequest, engine: Engine, keys: NewKeys): Identity {
    Identity(keys.rowId, request.tenantId, request.legalEntityId, request.operationId, request.operationType, engine, true,
             keys.journalId, request.sourceJournalId, request.currency, request.mappingVersion, keys.eventId,
             request.actorPrincipalId)
  }

  /** The checks in their order, before the lines are looked up. */
  function Admission(environment: Environment, request: IntentRequest): Option<IntentError> {
    if environment.configuration.None? then Some(LedgerNotActivated)
    else
      var configuration := environment.configuration.value;
      if (environment.authority.Some? && environment.authority.value != configuration.financialEngine)
         || environment.control != Some(configuration.financialEngine) then Some(LedgerNotActivated)
      else if configuration.baseCurrency != request.currency then Some(CurrencyMismatch)
      else if request.operationType == RevenuePost && !ProfileMatches(environment.profile, request.lines) then Some(OperationConflict)
      else if !configuration.postingEnabled || !environment.periodOpen then Some(PeriodNotOpen)
      else if request.operationType == JournalReverse && request.sourceJournalId.None? then Some(ReversalSourceRequired)
      else if request.operationType == JournalPost && request.sourceJournalId.Some? then Some(OperationConflict)
      else None
  }

  /** The stored operations after the command, and the position of the one it names. */
  ghost function CreateIntent(entries: seq<Stored>, environment: Environment, request: IntentRequest, keys: NewKeys, now: Time)
    : (result: Result<(seq<Stored>, nat), IntentError>)
  {
    if request.operationType != JournalReverse && !(WellFormed(request.lines) && NoSelfTransfer(request.lines))
    then Failure(InvalidLines)
    else if !environment.authorised then Failure(Unauthorised)
    else
      var existing := FindOperation(entries, request.tenantId, request.operationId);
      if existing.Some? then
        if entries[existing.value].request == request then Success((entries, existing.value)) else Failure(OperationConflict)
      else if Admission(environment, request).Some? then Failure(Admission(environment, request).value)
      else InsertIntent(entries, environment, request, keys, now)
  }

  ghost function InsertIntent(entries: seq<Stored>, environment: Environment, request: IntentRequest, keys: NewKeys, now: Time)
    : (result: Result<(seq<Stored>, nat), IntentError>)
    requires environment.configuration.Some?
  {
    var engine := environment.configuration.value.financialEngine;
    var lines := IntentLines(entries, request, engine);
    if lines.Failure? then Failure(lines.error)
    else if exists line :: line in lines.value && line.account !in environment.accounts then Failure(AccountNotFound)
    else if request.sourceJournalId.Some? && AlreadyReversed(entries, request.tenantId, request.sourceJournalId.value)
    then Failure(ReversalAlreadyExists)
    else
      var rows := IntentRows(NewIdentity(request, engine, keys), lines.value, now, map[]);
      Success((entries + [Stored(request, rows)], |entries|))
  }

  // ----- what is kept

  /** Generated identifiers are new. */
  ghost predicate IsFresh(entries: seq<Stored>, keys: NewKeys) {
    forall i | 0 <= i < |entries| :: entries[i].rows.op.identity.journalId != keys.journalId
  }

  ghost predicate JournalsUnique(entries: seq<Stored>) {
    forall i, j | 0 <= i < j < |entries| :: entries[i].rows.op.identity.journalId != entries[j].rows.op.identity.journalId
  }

  /** `reversal` reverses `source`: same books, swapped lines, and the source is not itself a reversal. */
  ghost predicate Reverses(source: Rows, reversal: Rows) {
    var s, r := source.op.identity, reversal.op.identity;
    && r.operationType == JournalReverse && s.operationType != JournalReverse
    && r.sourceJournalId == Some(s.journalId) && s.sourceJournalId == None
    && r.tenantId == s.tenantId && r.legalEntityId == s.legalEntityId && r.currency == s.currency && r.engine == s.engine
    && reversal.lines == SwapLines(source.lines)
  }

  ghost predicate HasSource(entries: seq<Stored>, reversal: Rows) {
    exists i | 0 <= i < |entries| :: Reverses(entries[i].rows, reversal)
  }

  ghost predicate EntriesFit(entries: seq<Stored>) {
    && (forall i | 0 <= i < |entries| :: Consistent(entries[i].rows))
    && (forall i | 0 <= i < |entries| && entries[i].rows.op.identity.sourceJournalId.Some? :: HasSource(entries, entries[i].rows))
    && JournalsUnique(entries)
  }

  /** Two reversals of the same source journal are the same operation. */
  ghost predicate ReversedOnce(entries: seq<Stored>) {
    forall i, j | 0 <= i < |entries| && 0 <= j < |entries| && entries[i].rows.op.identity.sourceJournalId.Some?
                  && entries[i].rows.op.identity.sourceJournalId == entries[j].rows.op.identity.sourceJournalId
                  && entries[i].rows.op.identity.tenantId == entries[j].rows.op.identity.tenantId :: i == j
  }

  /** What any transaction on an existing operation may do to its rows. */
  ghost predicate Evolves(before: Rows, after: Rows) {
    Consistent(after) && SameIntent(before, after)
  }

  // ----- the runs

  /** The transactions of workers, rebuilds and quarantines on a stored operation. */
  datatype Writer =
    | Begin(reconcile: bool, authority: Engine, routing: Routing, now: Time)
    | Defer(now: Time)
    | Identify(expected: seq<TransferId>)
    | Receive(outcome: Outcome, observed: Option<Engine>, now: Time)
    | Finalize(now: Time)
    | Rebuild(outcome: Outcome, now: Time)
    | FenceProjection

  function Written(rows: Rows, writer: Writer): Committed {
    match writer
    case Begin(reconcile, authority, routing, now) => BeginSubmission(rows, reconcile, authority, routing, now).0
    case Defer(now) => DeferBlocked(rows, now)
    case Identify(expected) => PersistIdentities(rows, expected).0
    case Receive(outcome, observed, now) => WriteReceipt(rows, outcome, observed, now)
    case Finalize(now) => FinalizeAccepted(rows, now)
    case Rebuild(outcome, now) =>
      if outcome.AcceptedOutcome? && |outcome.transferIds| == |PairsOf(rows.lines)| then RebuildAccepted(rows, outcome, now)
      else Success(rows)
    case FenceProjection => Quarantine(rows)
  }

  lemma WritersEvolve(rows: Rows, writer: Writer)
    requires Consistent(rows)
    ensures Written(rows, writer).Success? ==> Evolves(rows, Written(rows, writer).value)
  {
    match writer
    case Begin(reconcile, authority, routing, now) => BeginSubmissionKeeps(rows, reconcile, authority, routing, now);
    case Defer(now) => DeferBlockedKeeps(rows, now);
    case Identify(expected) => PersistIdentitiesKeeps(rows, expected);
    case Receive(outcome, observed, now) => WriteReceiptKeeps(rows, outcome, observed, now);
    case Finalize(now) => FinalizeAcceptedKeeps(rows, now);
    case Rebuild(outcome, now) =>
      if outcome.AcceptedOutcome? && |outcome.transferIds| == |PairsOf(rows.lines)| { RebuildAcceptedKeeps(rows, outcome, now); }
    case FenceProjection => QuarantineKeeps(rows);
  }

  /** The rows of all operations: the PostgreSQL ledger's book. */
  function BookOf(entries: seq<Stored>): (book: seq<Rows>)
    ensures |book| == |entries|
  {
    seq(|entries|, i requires 0 <= i < |entries| => entries[i].rows)
  }

  function WithBook(entries: seq<Stored>, book: seq<Rows>): (after: seq<Stored>)
    requires |book| == |entries|
    ensures |after| == |entries|
  {
    seq(|entries|, i requires 0 <= i < |entries| => entries[i].(rows := book[i]))
  }

  /** A command, a transaction on a stored operation, or a post in the PostgreSQL ledger with its own transaction. */
  datatype Action =
    | Create(environment: Environment, request: IntentRequest, keys: NewKeys, now: Time)
    | Write(index: nat, writer: Writer)
    | Post(index: nat, accounts: map<string, AccountType>, now: Time)

  ghost function Step(entries: seq<Stored>, action: Action): seq<Stored> {
    match action
    case Create(environment, request, keys, now) =>
      var created := CreateIntent(entries, environment, request, keys, now);
      if IsFresh(entries, keys) && created.Success? then created.value.0 else entries
    case Write(i, writer) =>
      if i < |entries| && Written(entries[i].rows, writer).Success?
      then entries[i := entries[i].(rows := Written(entries[i].rows, writer).value)] else entries
    case Post(i, accounts, now) =>
      if i < |entries| then WithBook(entries, PostJournal(BookOf(entries), accounts, InputOf(entries[i].rows), now).0) else entries
  }

  /** Journals are unique, so a post of a stored operation's own journal can only be accepted for that operation. */
  lemma PostIsOwn(book: seq<Rows>, i: nat, accounts: map<string, AccountType>)
    requires i < |book| && Decide(book, accounts, InputOf(book[i])).Accept?
    requires forall j, k | 0 <= j < k < |book| :: book[j].op.identity.journalId != book[k].op.identity.journalId
    ensures Decide(book, accounts, InputOf(book[i])) == Accept(i)
  {
    var j := Decide(book, accounts, InputOf(book[i])).index;
    assert book[j].op.identity.journalId == book[i].op.identity.journalId;
    assert j == i;
  }

  lemma PostedBook(book: seq<Rows>, i: nat, accounts: map<string, AccountType>, now: Time)
    requires i < |book| && Consistent(book[i])
    requires forall j, k | 0 <= j < k < |book| :: book[j].op.identity.journalId != book[k].op.identity.journalId
    ensures var posted := PostJournal(book, accounts, InputOf(book[i]), now).0;
      posted == book || (posted == book[i := posted[i]] && Evolves(book[i], posted[i]))
  {
    if Decide(book, accounts, InputOf(book[i])).Accept? {
      PostIsOwn(book, i, accounts);
      AcceptInPostgresqlKeeps(book[i], ExpectedIds(book[i].op.identity, book[i].lines), now);
    }
  }

  /** A post writes the operation it is about, or nothing. */
  lemma PostWrites(entries: seq<Stored>, i: nat, accounts: map<string, AccountType>, now: Time)
    requires EntriesFit(entries) && i < |entries|
    ensures var after := Step(entries, Post(i, accounts, now));
      after == entries || (|after| == |entries| && after == entries[i := entries[i].(rows := after[i].rows)]
                           && Evolves(entries[i].rows, after[i].rows))
  {
    PostedBook(BookOf(entries), i, accounts, now);
    var posted := PostJournal(BookOf(entries), accounts, InputOf(entries[i].rows), now).0;
    WithBookUpdated(entries, i, posted[i]);
  }

  lemma WithBookUpdated(entries: seq<Stored>, i: nat, rows: Rows)
    requires i < |entries|
    ensures WithBook(entries, BookOf(entries)) == entries
    ensures WithBook(entries, BookOf(entries)[i := rows]) == entries[i := entries[i].(rows := rows)]
  {
    assert WithBook(entries, BookOf(entries)) == entries;
    assert WithBook(entries, BookOf(entries)[i := rows]) == entries[i := entries[i].(rows := rows)];
  }

  ghost function Run(entries: seq<Stored>, actions: seq<Action>): seq<Stored>
    decreases |actions|
  {
    if actions == [] then entries else Run(Step(entries, actions[0]), actions[1..])
  }

  /** A posted source is an ordinary journal: reversals end up `reversed`, never `posted`. */
  lemma PostedIsNoReversal(rows: Rows)
    requires Consistent(rows) && rows.journal.status == Posted
    ensures rows.op.identity.operationType != JournalReverse && rows.op.identity.sourceJournalId.None?
  {
  }

  lemma NewReversalHasSource(entries: seq<Stored>, environment: Environment, request: IntentRequest, keys: NewKeys, now: Time)
    requires EntriesFit(entries) && environment.configuration.Some? && Admission(environment, request).None?
    requires request.sourceJournalId.Some? && request.operationType == JournalReverse
    requires InsertIntent(entries, environment, request, keys, now).Success?
    ensures var after := InsertIntent(entries, environment, request, keys, now).value.0;
      |after| == |entries| + 1 && HasSource(entries, after[|entries|].rows)
  {
    var after := InsertIntent(entries, environment, request, keys, now).value.0;
    var found := FindJournal(entries, request.tenantId, request.sourceJournalId.value).value;
    PostedIsNoReversal(entries[found].rows);
    assert Reverses(entries[found].rows, after[|entries|].rows);
  }

  /** A request for revenue carries no source. */
  predicate Decodable(request: IntentRequest) {
    request.operationType == RevenuePost ==> request.sourceJournalId.None?
  }

  lemma InsertKeeps(entries: seq<Stored>, environment: Environment, request: IntentRequest, keys: NewKeys, now: Time)
    requires EntriesFit(entries) && ReversedOnce(entries) && IsFresh(entries, keys) && Decodable(request)
    requires request.operationType != JournalReverse ==> WellFormed(request.lines) && NoSelfTransfer(request.lines)
    requires Admission(environment, request).None? && InsertIntent(entries, environment, request, keys, now).Success?
    ensures var after := InsertIntent(entries, environment, request, keys, now).value.0;
      EntriesFit(after) && ReversedOnce(after)
  {
    var after := InsertIntent(entries, environment, request, keys, now).value.0;
    var added := after[|entries|];
    IntentIsConsistent(added.rows.op.identity, added.rows.lines, now, map[]);
    assert after == entries + [added];
    if request.sourceJournalId.Some? { NewReversalHasSource(entries, environment, request, keys, now); }
    AppendKeeps(entries, added);
  }

  lemma AppendKeeps(entries: seq<Stored>, added: Stored)
    requires EntriesFit(entries) && ReversedOnce(entries) && Consistent(added.rows)
    requires forall i | 0 <= i < |entries| :: entries[i].rows.op.identity.journalId != added.rows.op.identity.journalId
    requires var id := added.rows.op.identity; id.sourceJournalId.Some? ==>
      HasSource(entries, added.rows) && !AlreadyReversed(entries, id.tenantId, id.sourceJournalId.value)
    ensures EntriesFit(entries + [added]) && ReversedOnce(entries + [added])
  {
    AppendKeepsSources(entries, added);
    AppendKeepsReversedOnce(entries, added);
  }

  lemma AppendKeepsSources(entries: seq<Stored>, added: Stored)
    requires forall i | 0 <= i < |entries| && entries[i].rows.op.identity.sourceJournalId.Some? :: HasSource(entries, entries[i].rows)
    requires added.rows.op.identity.sourceJournalId.Some? ==> HasSource(entries, added.rows)
    ensures var after := entries + [added];
      forall i | 0 <= i < |after| && after[i].rows.op.identity.sourceJournalId.Some? :: HasSource(after, after[i].rows)
  {
    SourcesKept(entries, entries + [added]);
  }

  lemma AppendKeepsReversedOnce(entries: seq<Stored>, added: Stored)
    requires ReversedOnce(entries)
    requires var id := added.rows.op.identity;
      id.sourceJournalId.Some? ==> !AlreadyReversed(entries, id.tenantId, id.sourceJournalId.value)
    ensures ReversedOnce(entries + [added])
  {
  }

  /** Appending keeps every source in place. */
  lemma SourcesKept(entries: seq<Stored>, after: seq<Stored>)
    requires |after| == |entries| + 1 && after[..|entries|] == entries
    ensures forall reversal :: HasSource(entries, reversal) ==> HasSource(after, reversal)
  {
    forall reversal | HasSource(entries, reversal) ensures HasSource(after, reversal) {
      var i :| 0 <= i < |entries| && Reverses(entries[i].rows, reversal);
      assert after[i] == entries[i];
    }
  }

  lemma WriteKeeps(entries: seq<Stored>, i: nat, after: Rows)
    requires EntriesFit(entries) && ReversedOnce(entries) && i < |entries| && Evolves(entries[i].rows, after)
    ensures EntriesFit(entries[i := entries[i].(rows := after)]) && ReversedOnce(entries[i := entries[i].(rows := after)])
  {
    var written := entries[i := entries[i].(rows := after)];
    forall k | 0 <= k < |written| && written[k].rows.op.identity.sourceJournalId.Some?
      ensures HasSource(written, written[k].rows)
    {
      WriteKeepsSource(entries, i, after, k);
    }
  }

  lemma WriteKeepsSource(entries: seq<Stored>, i: nat, after: Rows, k: nat)
    requires i < |entries| && k < |entries| && SameIntent(entries[i].rows, after) && HasSource(entries, entries[k].rows)
    ensures var written := entries[i := entries[i].(rows := after)]; HasSource(written, written[k].rows)
  {
    var written := entries[i := entries[i].(rows := after)];
    var j :| 0 <= j < |entries| && Reverses(entries[j].rows, entries[k].rows);
    assert Reverses(written[j].rows, written[k].rows);
  }

  lemma StepKeeps(entries: seq<Stored>, action: Action)
    requires EntriesFit(entries) && ReversedOnce(entries) && (action.Create? ==> Decodable(action.request))
    ensures EntriesFit(Step(entries, action)) && ReversedOnce(Step(entries, action))
  {
    match action
    case Create(environment, request, keys, now) =>
      if IsFresh(entries, keys) && CreateIntent(entries, environment, request, keys, now).Success?
         && FindOperation(entries, request.tenantId, request.operationId).None? {
        InsertKeeps(entries, environment, request, keys, now);
      }
    case Write(i, writer) =>
      if i < |entries| && Written(entries[i].rows, writer).Success? {
        WritersEvolve(entries[i].rows, writer);
        WriteKeeps(entries, i, Written(entries[i].rows, writer).value);
      }
    case Post(i, accounts, now) =>
      if i < |entries| {
        PostWrites(entries, i, accounts, now);
        var after := Step(entries, action);
        if after != entries { WriteKeeps(entries, i, after[i].rows); }
      }
  }

  lemma {:induction false} RunKeeps(entries: seq<Stored>, actions: seq<Action>)
    requires EntriesFit(entries) && ReversedOnce(entries)
    requires forall action | action in actions && action.Create? :: Decodable(action.request)
    ensures EntriesFit(Run(entries, actions)) && ReversedOnce(Run(entries, actions))
    decreases |actions|
  {
    if actions != [] {
      assert actions[0] in actions;
      StepKeeps(entries, actions[0]);
      RunKeeps(Step(entries, actions[0]), actions[1..]);
    }
  }

  /** Swapped lines give back exactly what the lines took. */
  lemma {:induction false} SwappedLinesCancel(lines: seq<Line>, account: string)
    ensures LineDebit(account, SwapLines(lines)) == LineCredit(account, lines)
    ensures LineCredit(account, SwapLines(lines)) == LineDebit(account, lines)
  {
    if lines != [] {
      SwappedLinesCancel(lines[1..], account);
      assert SwapLines(lines)[1..] == SwapLines(lines[1..]);
    }
  }

  ghost predicate SoleReversal(entries: seq<Stored>, s: nat, r: nat) {
    && s < |entries| && r < |entries| && Reverses(entries[s].rows, entries[r].rows)
    && forall q | 0 <= q < |entries| && Reverses(entries[s].rows, entries[q].rows) :: q == r
  }

  lemma SourceOf(entries: seq<Stored>, r: nat) returns (s: nat)
    requires EntriesFit(entries) && ReversedOnce(entries)
    requires r < |entries| && entries[r].rows.op.identity.operationType == JournalReverse
    ensures SoleReversal(entries, s, r) && entries[r].rows.lines == SwapLines(entries[s].rows.lines)
  {
    assert Consistent(entries[r].rows);
    assert HasSource(entries, entries[r].rows);
    s :| 0 <= s < |entries| && Reverses(entries[s].rows, entries[r].rows);
  }

  /** In every reachable state a stored reversal is the only reversal of a source that is not itself a reversal. */
  lemma ReversalHasSource(actions: seq<Action>, r: nat) returns (s: nat)
    requires forall action | action in actions && action.Create? :: Decodable(action.request)
    requires r < |Run([], actions)| && Run([], actions)[r].rows.op.identity.operationType == JournalReverse
    ensures SoleReversal(Run([], actions), s, r) && EntriesFit(Run([], actions))
    ensures var entries := Run([], actions); PairsOf(entries[r].rows.lines) == Flip(PairsOf(entries[s].rows.lines))
  {
    RunKeeps([], actions);
    s := SourceOf(Run([], actions), r);
    ReversalFlipsPairs(Run([], actions)[s].rows.lines);
  }

  /** Nothing in the command relates the mapping version of a reversal to its source's. */
  lemma MappingVersionIsFree(entries: seq<Stored>, environment: Environment, request: IntentRequest, keys: NewKeys, now: Time, version: nat)
    requires FindOperation(entries, request.tenantId, request.operationId).None?
    requires CreateIntent(entries, environment, request, keys, now).Success?
    ensures CreateIntent(entries, environment, request.(mappingVersion := version), keys, now).Success?
  {
  }

  /** A second reversal of a journal, and any reversal of a reversal, is refused. */
  lemma {:induction false} SecondReversalRefused(entries: seq<Stored>, environment: Environment, request: IntentRequest, keys: NewKeys, now: Time, r: nat)
    requires EntriesFit(entries) && r < |entries| && entries[r].rows.op.identity.operationType == JournalReverse
    requires request.operationType == JournalReverse && request.tenantId == entries[r].rows.op.identity.tenantId
    requires FindOperation(entries, request.tenantId, request.operationId).None?
    ensures request.sourceJournalId == entries[r].rows.op.identity.sourceJournalId ==>
      CreateIntent(entries, environment, request, keys, now).Failure?
    ensures request.sourceJournalId == Some(entries[r].rows.op.identity.journalId) ==>
      CreateIntent(entries, environment, request, keys, now).Failure?
  {
    if request.sourceJournalId == Some(entries[r].rows.op.identity.journalId) {
      assert Consistent(entries[r].rows);
      FindUniqueJournal(entries, r);
    }
  }

  lemma {:induction false} FindUniqueJournal(entries: seq<Stored>, r: nat)
    requires JournalsUnique(entries) && r < |entries|
    ensures FindJournal(entries, entries[r].rows.op.identity.tenantId, entries[r].rows.op.identity.journalId) == Some(r)
  {
    if r > 0 {
      assert forall k | 0 <= k < |entries[1..]| :: entries[1..][k] == entries[k + 1];
      FindUniqueJournal(entries[1..], r - 1);
    }
  }

  /** A reversal is accepted whenever its source is ready: swapping never makes lines invalid. */
  lemma ReadySourceCanBeReversed(entries: seq<Stored>, request: IntentRequest, engine: Engine, s: nat)
    requires EntriesFit(entries) && s < |entries| && request.tenantId == entries[s].rows.op.identity.tenantId
    requires request.sourceJournalId == Some(entries[s].rows.op.identity.journalId)
    requires entries[s].rows.op.identity.operationType != JournalReverse
    ensures IntentLines(entries, request, engine)
      == (if entries[s].rows.journal.status != Posted then Failure(ReversalSourceNotPosted)
          else if !SourceReady(entries[s].rows.op.identity, entries[s].rows.op.status, request, engine) then Failure(ReversalSourceNotReady)
          else Success(SwapLines(entries[s].rows.lines)))
  {
    FindUniqueJournal(entries, s);
    assert Consistent(entries[s].rows);
    ReversalStaysWellFormed(entries[s].rows.lines);
  }

  // ----- the command

  /** Line validation followed by the search for a transfer within one account. */
  method CheckLines(lines: seq<Line>) returns (valid: bool)
    ensures valid <==> WellFormed(lines) && NoSelfTransfer(lines)
  {
    var error := ValidateLines(lines);
    if error.Some? { return false; }
    var transfers := PairTransfers(lines);
    for i := 0 to |transfers|
      invariant forall k | 0 <= k < i :: PairsOf(lines)[k].debit != PairsOf(lines)[k].credit
    {
      if transfers[i].debit == transfers[i].credit { return false; }
    }
    return true;
  }

  method ReverseLines(lines: seq<Line>) returns (swapped: seq<Line>)
    ensures swapped == SwapLines(lines)
  {
    swapped := [];
    for i := 0 to |lines|
      invariant swapped == SwapLines(lines)[..i]
    {
      swapped := swapped + [Line(lines[i].account, lines[i].credit, lines[i].debit)];
    }
  }

  class IntentStore {
    var entries: seq<Stored>

    constructor ()
      ensures entries == []
    {
      entries := [];
    }

    method ReadSourceLines(request: IntentRequest, engine: Engine) returns (lines: Result<seq<Line>, IntentError>)
      ensures lines == IntentLines(entries, request, engine)
    {
      if request.sourceJournalId.None? { return Success(request.lines); }
      var found := FindJournal(entries, request.tenantId, request.sourceJournalId.value);
      if found.None? { return Failure(ReversalSourceNotFound); }
      var source := entries[found.value].rows;
      if source.journal.status != Posted { return Failure(ReversalSourceNotPosted); }
      if !SourceReady(source.op.identity, source.op.status, request, engine) { return Failure(ReversalSourceNotReady); }
      var swapped := ReverseLines(source.lines);
      var valid := CheckLines(swapped);
      return if valid then Success(swapped) else Failure(InvalidLines);
    }

    method AccountsExist(lines: seq<Line>, accounts: set<string>) returns (exist: bool)
      ensures exist == !exists line :: line in lines && line.account !in accounts
    {
      for i := 0 to |lines|
        invariant forall k | 0 <= k < i :: lines[k].account in accounts
      {
        if lines[i].account !in accounts {
          assert lines[i] in lines;
          return false;
        }
      }
      return true;
    }

    /** Stores an intent, or returns the stored one when the command is repeated unchanged. */
    method CreateJournalIntent(environment: Environment, request: IntentRequest, keys: NewKeys, now: Time)
      returns (result: Result<nat, IntentError>)
      modifies this
      ensures match CreateIntent(old(entries), environment, request, keys, now)
        case Success((after, i)) => entries == after && result == Success(i)
        case Failure(error) => entries == old(entries) && result == Failure(error)
    {
      if request.operationType != JournalReverse {
        var valid := CheckLines(request.lines);
        if !valid { return Failure(InvalidLines); }
      }
      if !environment.authorised { return Failure(Unauthorised); }
      var existing := FindOperation(entries, request.tenantId, request.operationId);
      if existing.Some? {
        return if entries[existing.value].request == request then Success(existing.value) else Failure(OperationConflict);
      }
      var refused := Admission(environment, request);
      if refused.Some? { return Failure(refused.value); }
      var engine := environment.configuration.value.financialEngine;
      var lines := ReadSourceLines(request, engine);
      if lines.Failure? { return Failure(lines.error); }
      var exist := AccountsExist(lines.value, environment.accounts);
      if !exist { return Failure(AccountNotFound); }
      if request.sourceJournalId.Some? && AlreadyReversed(entries, request.tenantId, request.sourceJournalId.value) {
        return Failure(ReversalAlreadyExists);
      }
      result := Success(|entries|);
      entries := entries + [Stored(request, IntentRows(NewIdentity(request, engine, keys), lines.value, now, map[]))];
    }
  }
}
