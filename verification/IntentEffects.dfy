/**
 When a new journal intent is stored and what is stored then: the conditions of the command stated outright, reversals
 included, and the reasons for which it is refused.
 */
module IntentEffects {
  import opened Wrappers
  import opened Pairing
  import opened PairingLaws
  import opened JournalValidation
  import opened OperationRecords
  import opened OperationTransactions
  import opened OperationInvariant
  import opened Reversals

  ghost predicate Sound(lines: seq<Line>) {
    WellFormed(lines) && NoSelfTransfer(lines)
  }

  /** No operation of the tenant carries this operation key yet. */
  ghost predicate IsNew(entries: seq<Stored>, request: IntentRequest) {
    forall i | 0 <= i < |entries| ::
      entries[i].rows.op.identity.tenantId != request.tenantId || entries[i].rows.op.identity.operationId != request.operationId
  }

  /** The ledger the entity is configured for is the one that is present and the one its cutover control names. */
  ghost predicate Activated(environment: Environment) {
    && environment.configuration.Some?
    && environment.control == Some(environment.configuration.value.financialEngine)
    && (environment.authority == None || environment.authority == Some(environment.configuration.value.financialEngine))
  }

  ghost predicate GatesOpen(environment: Environment) {
    environment.configuration.Some? && environment.configuration.value.postingEnabled && environment.periodOpen
  }

  /** A revenue posting has two lines, on the receivable and the revenue account of the profile. */
  ghost predicate FollowsProfile(environment: Environment, request: IntentRequest) {
    request.operationType == RevenuePost ==>
      && environment.profile.Some? && |request.lines| == 2
      && request.lines[0].account == environment.profile.value.receivableAccountId
      && request.lines[1].account == environment.profile.value.revenueAccountId
  }

  /** Reversals name a source and ordinary postings do not. */
  ghost predicate SourceFitsType(request: IntentRequest) {
    && (request.operationType == JournalReverse ==> request.sourceJournalId.Some?)
    && (request.operationType == JournalPost ==> request.sourceJournalId.None?)
  }

  /** The `s`-th operation is a posted and reconciled journal of the same tenant, entity, currency and ledger. */
  ghost predicate IsReadySource(entries: seq<Stored>, request: IntentRequest, engine: Engine, s: int) {
    && 0 <= s < |entries| && request.sourceJournalId == Some(entries[s].rows.op.identity.journalId)
    && entries[s].rows.op.identity.tenantId == request.tenantId
    && entries[s].rows.op.identity.legalEntityId == request.legalEntityId
    && entries[s].rows.op.identity.currency == request.currency
    && entries[s].rows.op.identity.engine == engine && entries[s].rows.op.identity.engineVerified
    && entries[s].rows.op.status == Reconciled && entries[s].rows.journal.status == JournalStatus.Posted
  }

  /** No operation of the tenant reverses that journal yet. */
  ghost predicate NotReversed(entries: seq<Stored>, request: IntentRequest) {
    forall i | 0 <= i < |entries| ::
      entries[i].rows.op.identity.tenantId == request.tenantId ==> entries[i].rows.op.identity.sourceJournalId != request.sourceJournalId
  }

  ghost predicate AccountsKnown(environment: Environment, lines: seq<Line>) {
    forall line | line in lines :: line.account in environment.accounts
  }

  /** Everything that does not depend on a source. */
  ghost predicate Admissible(environment: Environment, request: IntentRequest) {
    && (request.operationType != JournalReverse ==> Sound(request.lines))
    && environment.authorised && Activated(environment) && GatesOpen(environment)
    && environment.configuration.value.baseCurrency == request.currency
    && FollowsProfile(environment, request) && SourceFitsType(request)
  }

  lemma {:induction false} NewIsNotFound(entries: seq<Stored>, request: IntentRequest)
    requires IsNew(entries, request)
    ensures FindOperation(entries, request.tenantId, request.operationId).None?
  {
  }

  lemma AdmissibleMeans(entries: seq<Stored>, environment: Environment, request: IntentRequest, keys: NewKeys, now: Time)
    requires IsNew(entries, request)
    ensures CreateIntent(entries, environment, request, keys, now).Success? ==> Admissible(environment, request)
    ensures Admissible(environment, request) ==>
      CreateIntent(entries, environment, request, keys, now) == InsertIntent(entries, environment, request, keys, now)
  {
    NewIsNotFound(entries, request);
  }

  /** Without a source, the admissible intent is stored if and only if its accounts are known. */
  lemma OrdinaryIntentStoredIff(entries: seq<Stored>, environment: Environment, request: IntentRequest, keys: NewKeys, now: Time)
    requires IsNew(entries, request) && request.sourceJournalId.None?
    ensures CreateIntent(entries, environment, request, keys, now).Success?
       <==> Admissible(environment, request) && AccountsKnown(environment, request.lines)
  {
    AdmissibleMeans(entries, environment, request, keys, now);
  }

  lemma {:induction false} SourceIsFound(entries: seq<Stored>, request: IntentRequest, engine: Engine, s: nat)
    requires EntriesFit(entries) && IsReadySource(entries, request, engine, s)
    ensures IntentLines(entries, request, engine) == Success(SwapLines(entries[s].rows.lines))
  {
    PostedIsNoReversal(entries[s].rows);
    ReadySourceCanBeReversed(entries, request, engine, s);
  }

  lemma {:induction false} FoundIsReady(entries: seq<Stored>, request: IntentRequest, engine: Engine) returns (s: nat)
    requires request.sourceJournalId.Some? && IntentLines(entries, request, engine).Success?
    ensures IsReadySource(entries, request, engine, s) && IntentLines(entries, request, engine) == Success(SwapLines(entries[s].rows.lines))
  {
    s := FindJournal(entries, request.tenantId, request.sourceJournalId.value).value;
  }

  /**
   A new reversal is stored if and only if it is admissible, its source is a reconciled operation whose journal is posted in
   the same tenant, entity, currency and ledger, nothing reverses that journal yet, and its accounts are known.
   */
  lemma ReversalStoredIff(entries: seq<Stored>, environment: Environment, request: IntentRequest, keys: NewKeys, now: Time)
    requires EntriesFit(entries) && IsNew(entries, request) && request.sourceJournalId.Some?
    ensures CreateIntent(entries, environment, request, keys, now).Success? <==>
      && Admissible(environment, request) && NotReversed(entries, request)
      && exists s :: IsReadySource(entries, request, environment.configuration.value.financialEngine, s)
                     && AccountsKnown(environment, entries[s].rows.lines)
  {
    AdmissibleMeans(entries, environment, request, keys, now);
    if Admissible(environment, request) {
      var engine := environment.configuration.value.financialEngine;
      if InsertIntent(entries, environment, request, keys, now).Success? {
        var s := FoundIsReady(entries, request, engine);
        SwapKeepsAccounts(entries[s].rows.lines, environment);
        NotYetReversed(entries, request);
      }
      if s :| IsReadySource(entries, request, engine, s) && AccountsKnown(environment, entries[s].rows.lines) {
        SourceIsFound(entries, request, engine, s);
        SwapKeepsAccounts(entries[s].rows.lines, environment);
        NotYetReversed(entries, request);
      }
    }
  }

  lemma SwapKeepsAccounts(lines: seq<Line>, environment: Environment)
    ensures AccountsKnown(environment, SwapLines(lines)) <==> AccountsKnown(environment, lines)
  {
    var swapped := SwapLines(lines);
    assert forall i | 0 <= i < |lines| :: swapped[i] in swapped && swapped[i].account == lines[i].account;
  }

  lemma NotYetReversed(entries: seq<Stored>, request: IntentRequest)
    requires request.sourceJournalId.Some?
    ensures AlreadyReversed(entries, request.tenantId, request.sourceJournalId.value) <==> !NotReversed(entries, request)
  {
  }

  /** The record of a new intent: nothing submitted, one unresolved row per pair without identity, a draft journal. */
  ghost predicate IsIntentOf(rows: Rows, environment: Environment, request: IntentRequest, lines: seq<Line>, keys: NewKeys, now: Time)
    requires environment.configuration.Some?
  {
    var id, pairs := rows.op.identity, PairsOf(lines);
    && rows.lines == lines
    && id.tenantId == request.tenantId && id.legalEntityId == request.legalEntityId && id.operationId == request.operationId
    && id.operationType == request.operationType && id.sourceJournalId == request.sourceJournalId
    && id.currency == request.currency && id.mappingVersion == request.mappingVersion
    && id.actorPrincipalId == request.actorPrincipalId
    && id.engine == environment.configuration.value.financialEngine && id.engineVerified
    && id.rowId == keys.rowId && id.journalId == keys.journalId && id.reconciledEventId == keys.eventId
    && rows.op.status == Intent && rows.op.attempts == 0 && rows.op.scheduledAt == now && rows.op.submittedAt == None
    && rows.op.engineAcceptedAt == None && rows.op.reconciledAt == None && rows.op.lastError == None
    && rows.op.rejectionReason == None && rows.op.recoveryReason == None && rows.op.observedEngine == None
    && rows.journal.status == Draft && rows.journal.postedAt == None && rows.journal.reversesEntryId == None && rows.outbox == map[]
    && (forall p :: p in rows.transfers <==> 0 <= p < |pairs|)
    && forall p | 0 <= p < |pairs| ::
         rows.transfers[p] == TransferRow(pairs[p].debit, pairs[p].credit, pairs[p].amount, None, RowUnresolved, None)
  }

  /** What a new intent adds: one operation, the request's, with its own lines or its source's turned round. */
  lemma StoredMeans(entries: seq<Stored>, environment: Environment, request: IntentRequest, keys: NewKeys, now: Time)
    requires EntriesFit(entries) && IsNew(entries, request) && CreateIntent(entries, environment, request, keys, now).Success?
    ensures environment.configuration.Some?
    ensures var (after, position) := CreateIntent(entries, environment, request, keys, now).value;
      && position == |entries| && |after| == |entries| + 1 && after[..|entries|] == entries && after[position].request == request
      && IsIntentOf(after[position].rows, environment, request, after[position].rows.lines, keys, now)
      && (request.sourceJournalId.None? ==> after[position].rows.lines == request.lines)
      && (request.sourceJournalId.Some? ==>
            exists s :: IsReadySource(entries, request, environment.configuration.value.financialEngine, s)
                        && after[position].rows.lines == SwapLines(entries[s].rows.lines))
  {
    AdmissibleMeans(entries, environment, request, keys, now);
    if request.sourceJournalId.Some? {
      var s := FoundIsReady(entries, request, environment.configuration.value.financialEngine);
    }
  }

  /** A tenant's operation key names one operation. */
  ghost predicate OperationKeysUnique(entries: seq<Stored>) {
    forall j, k | 0 <= j < k < |entries| ::
      entries[j].rows.op.identity.tenantId != entries[k].rows.op.identity.tenantId
      || entries[j].rows.op.identity.operationId != entries[k].rows.op.identity.operationId
  }

  lemma CreateKeepsKeys(entries: seq<Stored>, environment: Environment, request: IntentRequest, keys: NewKeys, now: Time)
    requires OperationKeysUnique(entries) && CreateIntent(entries, environment, request, keys, now).Success?
    ensures OperationKeysUnique(CreateIntent(entries, environment, request, keys, now).value.0)
  {
    if FindOperation(entries, request.tenantId, request.operationId).None? {
      NotFoundIsNew(entries, request);
    }
  }

  lemma {:induction false} NotFoundIsNew(entries: seq<Stored>, request: IntentRequest)
    requires FindOperation(entries, request.tenantId, request.operationId).None?
    ensures IsNew(entries, request)
  {
    if entries != [] {
      NotFoundIsNew(entries[1..], request);
      assert forall k | 0 < k < |entries| :: entries[k] == entries[1..][k - 1];
    }
  }

  lemma StepKeepsKeys(entries: seq<Stored>, action: Action)
    requires EntriesFit(entries) && OperationKeysUnique(entries)
    ensures OperationKeysUnique(Step(entries, action))
  {
    match action
    case Create(environment, request, keys, now) =>
      if CreateIntent(entries, environment, request, keys, now).Success? { CreateKeepsKeys(entries, environment, request, keys, now); }
    case Write(i, writer) => if i < |entries| { WritersEvolve(entries[i].rows, writer); }
    case Post(i, accounts, now) => if i < |entries| { PostWrites(entries, i, accounts, now); }
  }

  /** In every run an operation key stays unique, so a repeated command meets exactly the operation it created. */
  lemma {:induction false} RunKeepsKeys(entries: seq<Stored>, actions: seq<Action>)
    requires EntriesFit(entries) && ReversedOnce(entries) && OperationKeysUnique(entries)
    requires forall action | action in actions && action.Create? :: Decodable(action.request)
    ensures OperationKeysUnique(Run(entries, actions))
    decreases |actions|
  {
    if actions != [] {
      assert actions[0] in actions;
      StepKeepsKeys(entries, actions[0]);
      StepKeeps(entries, actions[0]);
      RunKeepsKeys(Step(entries, actions[0]), actions[1..]);
    }
  }

  /** A command repeated unchanged returns what is stored; with another content it is refused; both change nothing. */
  lemma RepeatedIntentMeans(entries: seq<Stored>, environment: Environment, request: IntentRequest, keys: NewKeys, now: Time, i: nat)
    requires i < |entries| && environment.authorised && (request.operationType != JournalReverse ==> Sound(request.lines))
    requires entries[i].rows.op.identity.tenantId == request.tenantId && entries[i].rows.op.identity.operationId == request.operationId
    requires OperationKeysUnique(entries)
    ensures CreateIntent(entries, environment, request, keys, now)
         == if entries[i].request == request then Success((entries, i)) else Failure(OperationConflict)
  {
    StoredIsFound(entries, i);
  }

  lemma {:induction false} StoredIsFound(entries: seq<Stored>, i: nat)
    requires i < |entries|
    requires OperationKeysUnique(entries)
    ensures FindOperation(entries, entries[i].rows.op.identity.tenantId, entries[i].rows.op.identity.operationId) == Some(i)
  {
    if i > 0 {
      assert forall k | 0 <= k < |entries[1..]| :: entries[1..][k] == entries[k + 1];
      StoredIsFound(entries[1..], i - 1);
    }
  }

  // ----- the reasons

  /** Why a new intent is refused before its source is looked at, in the order in which the reasons are looked for. */
  lemma RefusalReasons(entries: seq<Stored>, environment: Environment, request: IntentRequest, keys: NewKeys, now: Time)
    requires IsNew(entries, request) && !Admissible(environment, request)
    ensures CreateIntent(entries, environment, request, keys, now) == Failure(
      if request.operationType != JournalReverse && !Sound(request.lines) then InvalidLines
      else if !environment.authorised then Unauthorised
      else if !Activated(environment) then LedgerNotActivated
      else if environment.configuration.value.baseCurrency != request.currency then CurrencyMismatch
      else if !FollowsProfile(environment, request) then OperationConflict
      else if !GatesOpen(environment) then PeriodNotOpen
      else if request.operationType == JournalReverse then ReversalSourceRequired
      else OperationConflict)
  {
    NewIsNotFound(entries, request);
  }

  /** Why an admissible reversal is refused. */
  lemma ReversalRefusals(entries: seq<Stored>, environment: Environment, request: IntentRequest, keys: NewKeys, now: Time, s: nat)
    requires EntriesFit(entries) && IsNew(entries, request) && Admissible(environment, request) && s < |entries|
    requires request.sourceJournalId == Some(entries[s].rows.op.identity.journalId)
    requires entries[s].rows.op.identity.tenantId == request.tenantId
    requires CreateIntent(entries, environment, request, keys, now).Failure?
    ensures var source := entries[s].rows;
      CreateIntent(entries, environment, request, keys, now).error ==
        if source.journal.status != JournalStatus.Posted then ReversalSourceNotPosted
        else if !IsReadySource(entries, request, environment.configuration.value.financialEngine, s) then ReversalSourceNotReady
        else if !AccountsKnown(environment, source.lines) then AccountNotFound
        else ReversalAlreadyExists
  {
    AdmissibleMeans(entries, environment, request, keys, now);
    FindUniqueJournal(entries, s);
    SwapKeepsAccounts(entries[s].rows.lines, environment);
    if entries[s].rows.journal.status == JournalStatus.Posted {
      PostedIsNoReversal(entries[s].rows);
      ReadySourceCanBeReversed(entries, request, environment.configuration.value.financialEngine, s);
    }
  }
}
