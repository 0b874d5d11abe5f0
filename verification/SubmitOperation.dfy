/**
 The submission command as the service runs it: tables and ledger port are updated in place, with the early
 exits of the source.  It is proved to be the uninterrupted run of one worker, so everything proved about runs
 holds of it.
 */
module SubmitOperation {
  import opened Wrappers
  import opened Pairing
  import opened JournalValidation
  import opened OperationRecords
  import opened OperationInvariant
  import opened OperationStore
  import opened ExternalLedger
  import opened Protocol
  import opened ProtocolSafety
  import opened ProtocolTheorems
  import opened Recovery
  import opened FirstAttempt

  /** The ledger port: the ledger's transfers and accounts behind the adapter's calls. */
  class LedgerPort {
    var log: seq<LedgerTransfer>
    var provisioned: set<string>
    var refusedAccounts: set<string>
    var refused: bool
    const remembers: bool

    constructor (remembers: bool)
      ensures log == [] && provisioned == {} && refusedAccounts == {} && !refused && this.remembers == remembers
    {
      log, provisioned, refusedAccounts, refused := [], {}, {}, false;
      this.remembers := remembers;
    }

    /** A known account stays accepted; a remembering ledger keeps refusing what it refused. */
    method CreateExecutionAccount(account: string, verdict: AccountVerdict) returns (answer: AccountVerdict)
      modifies this`provisioned, this`refusedAccounts
      ensures answer ==
        (if verdict.AccountUnknown? then verdict
         else if account in old(provisioned) then AccountAccepted
         else if remembers && account in old(refusedAccounts) then AccountRejected(ConstraintViolation)
         else verdict)
      ensures provisioned == old(provisioned) + (if answer.AccountAccepted? then {account} else {})
      ensures refusedAccounts == old(refusedAccounts) + (if answer.AccountRejected? then {account} else {})
    {
      if verdict.AccountUnknown? { return verdict; }
      if account in provisioned { return AccountAccepted; }
      if remembers && account in refusedAccounts { return AccountRejected(ConstraintViolation); }
      if verdict.AccountAccepted? { provisioned := provisioned + {account}; }
      if verdict.AccountRejected? { refusedAccounts := refusedAccounts + {account}; }
      return verdict;
    }

    method LocallyRefused(identity: Identity, lines: seq<Line>) returns (refusal: Option<Outcome>)
      ensures refusal == LocalRefusal(identity, lines)
    {
      var verdict := ValidateJournal(lines);
      if verdict.Some? { return Some(RejectedOutcome(identity.operationId, verdict.value)); }
      var pairs := PairLines(lines);
      if |pairs| == 0 { return Some(RejectedOutcome(identity.operationId, ConstraintViolation)); }
      for i := 0 to |pairs|
        invariant forall k | 0 <= k < i :: pairs[k].debit != pairs[k].credit
      {
        if pairs[i].debit == pairs[i].credit { return Some(RejectedOutcome(identity.operationId, ConstraintViolation)); }
      }
      return None;
    }

    method BuildTransfers(identity: Identity, lines: seq<Line>, clock: Time) returns (transfers: seq<LedgerTransfer>)
      ensures transfers == Batch(identity, lines, clock)
    {
      var pairs := PairLines(lines);
      transfers := [];
      for index := 0 to |pairs|
        invariant transfers == Batch(identity, lines, clock)[..index]
      {
        var id := TransferId(identity.mappingVersion, identity.tenantId, identity.legalEntityId, identity.operationId, index);
        transfers := transfers + [LedgerTransfer(id, pairs[index].debit, pairs[index].credit, pairs[index].amount,
                                                 identity.mappingVersion, clock + index)];
      }
    }

    method PostJournal(identity: Identity, lines: seq<Line>, delivery: Delivery, admitted: bool, reason: RejectionReason, clock: Time)
      returns (outcome: Outcome)
      modifies this`log, this`refused
      ensures var admits := admitted && !(remembers && old(refused));
        var posted := ExternalLedger.PostJournal(old(log), identity, lines, delivery, admits, reason, clock);
        && log == posted.log && outcome == posted.outcome
        && refused == (old(refused) || (delivery != LostRequest && !admits
                         && LookupTransfers(old(log), ExpectedIds(identity, lines)) == [] ))
    {
      var admits := admitted && !(remembers && refused);
      refused := refused || (delivery != LostRequest && !admits && LookupTransfers(log, ExpectedIds(identity, lines)) == []);
      var refusal := LocallyRefused(identity, lines);
      if refusal.Some? { return refusal.value; }
      var transfers := BuildTransfers(identity, lines, clock);
      if delivery == LostRequest { return UnknownOutcome(identity.operationId, UnknownReason.ResponseLost); }
      var answer := CreateTransfers(log, transfers, admits, reason);
      log := answer.log;
      outcome := InterpretPost(identity, lines, if delivery == Delivered then Some(answer.statuses) else None);
    }

    method ReconcileJournal(identity: Identity, lines: seq<Line>, available: bool) returns (outcome: Outcome)
      ensures outcome == ExternalLedger.ReconcileJournal(log, identity, lines, available)
    {
      var refusal := LocallyRefused(identity, lines);
      if refusal.Some? { return refusal.value; }
      var expected := BuildTransfers(identity, lines, 0);
      if !available { return UnknownOutcome(identity.operationId, Unavailable); }
      var transfers := LookupTransfers(log, ExpectedIds(identity, lines));
      if |transfers| == 0 { return UnknownOutcome(identity.operationId, NotFound); }
      if |transfers| != |expected| { return ManualOutcome(identity.operationId, MappingMismatch); }
      if exists i | 0 <= i < |expected| :: !StoredAmong(transfers, expected[i]) {
        return ManualOutcome(identity.operationId, MappingMismatch);
      }
      outcome := Accepting(identity, lines, MaxTimestamp(transfers));
    }
  }

  ghost function View(tables: OperationTables, ledger: LedgerPort, worker: Worker): System
    reads tables, ledger
  {
    System(tables.Contents(), ledger.log, ledger.provisioned, ledger.refusedAccounts, ledger.refused, ledger.remembers, [worker])
  }

  // ----- what the next step is, worker by worker

  /** The system after a transaction that committed `rows` or failed. */
  ghost function After(s: System, committed: OperationTransactions.Committed, next: Worker): System {
    s.(rows := if committed.Success? then committed.value else s.rows, workers := [if committed.Success? then next else Idle])
  }

  lemma ReceiptNext(s: System, outcome: Outcome, observed: Option<Engine>, now: Time)
    requires s.workers == [Receipting(outcome, observed)]
    ensures var committed := OperationTransactions.WriteReceipt(s.rows, outcome, observed, now);
      Next(s, Act(0, Receipt(now))) == After(s, committed,
        if outcome.AcceptedOutcome? && committed.Success? && committed.value.op.status == Accepted then Finalizing else Idle)
  {
  }

  lemma FinalizeNext(s: System, now: Time)
    requires s.workers == [Finalizing]
    ensures Next(s, Act(0, Finalize(now))) == After(s, OperationTransactions.FinalizeAccepted(s.rows, now), Idle)
  {
  }

  /** The view after a method that ended as specified. */
  lemma EndedView(before: System, specified: OperationTransactions.Committed, after: Rows, error: Option<TransactionError>, next: Worker)
    requires EndedAs(before.rows, specified, after, error)
    ensures After(before, specified, next) == before.(rows := after, workers := [if error == None then next else Idle])
  {
  }

  // ----- the phases, last first

  /** Writes the receipt and, when it was an acceptance, finalises. */
  method Settle(tables: OperationTables, ledger: LedgerPort, outcome: Outcome, observed: Option<Engine>, script: Script)
    modifies tables
    ensures View(tables, ledger, Idle) == Run(old(View(tables, ledger, Receipting(outcome, observed))), Closing(0, script))
  {
    ghost var s := View(tables, ledger, Receipting(outcome, observed));
    RunTwo(s, Act(0, Receipt(script.now)), Act(0, Finalize(script.now)));
    ReceiptNext(s, outcome, observed, script.now);
    var error := tables.WriteReceipt(outcome, observed, script.now);
    var accepted := error == None && outcome.AcceptedOutcome? && tables.op.status == Accepted;
    ghost var t := View(tables, ledger, if accepted then Finalizing else Idle);
    EndedView(s, OperationTransactions.WriteReceipt(s.rows, outcome, observed, script.now), tables.Contents(), error,
              if accepted then Finalizing else Idle);
    assert t == Next(s, Act(0, Receipt(script.now)));
    if accepted {
      Complete(tables, ledger, script);
    } else {
      SkipIdle(t, 0, Finalize(script.now));
    }
  }

  method Complete(tables: OperationTables, ledger: LedgerPort, script: Script)
    modifies tables
    ensures View(tables, ledger, Idle) == Next(old(View(tables, ledger, Finalizing)), Act(0, Finalize(script.now)))
  {
    ghost var s := View(tables, ledger, Finalizing);
    FinalizeNext(s, script.now);
    var error := tables.FinalizeAccepted(script.now);
    EndedView(s, OperationTransactions.FinalizeAccepted(s.rows, script.now), tables.Contents(), error, Idle);
  }

  /** Leaves with an outcome; the remaining steps of the script do not apply. */
  method Leave(tables: OperationTables, ledger: LedgerPort, outcome: Outcome, observed: Option<Engine>,
               ghost skipped: seq<Occurrence>, script: Script)
    requires Middle(0, skipped)
    modifies tables
    ensures View(tables, ledger, Idle)
         == Run(old(View(tables, ledger, Receipting(outcome, observed))), skipped + Closing(0, script))
  {
    ghost var s := View(tables, ledger, Receipting(outcome, observed));
    RunConcat(s, skipped, Closing(0, script));
    SkipMiddle(s, 0, skipped);
    Settle(tables, ledger, outcome, observed, script);
  }

  // ----- the ledger calls

  lemma IdentifyNext(s: System, reconcile: bool)
    requires s.workers == [Identifying(reconcile)]
    ensures var (committed, persisted) := OperationTransactions.PersistIdentities(s.rows, Expected(s));
      Next(s, Act(0, Identify)) ==
        if persisted then After(s, committed, if reconcile then LookingUp else Posting)
        else s.(workers := [Failing(s, MappingMismatch, Some(AUTHORITY))])
  {
  }

  lemma LookupNext(s: System, available: bool)
    requires s.workers == [LookingUp]
    ensures var outcome := ExternalLedger.ReconcileJournal(s.log, s.rows.op.identity, s.rows.lines, available);
      Next(s, Act(0, Lookup(available))) == s.(workers :=
        [if outcome.UnknownOutcome? && outcome.why == NotFound then Posting
         else Receipting(CheckedOutcome(s, outcome), Some(AUTHORITY))])
  {
  }

  lemma PostNext(s: System, script: Script)
    requires s.workers == [Posting]
    ensures var admits := script.admitted && !(s.remembers && s.refused);
      var posted := ExternalLedger.PostJournal(s.log, s.rows.op.identity, s.rows.lines, script.delivery, admits, script.reason, script.now);
      Next(s, Act(0, Post(script.delivery, script.admitted, script.reason, script.now)))
        == s.(workers := [Receipting(CheckedOutcome(s, posted.outcome), Some(AUTHORITY))], log := posted.log,
              refused := s.refused || (script.delivery != LostRequest && !admits && LookupTransfers(s.log, Expected(s)) == []))
  {
  }

  /** An outcome that claims other identities than the expected ones is fenced. */
  function Checked(tables: Rows, outcome: Outcome): Outcome {
    var expected := ExpectedIds(tables.op.identity, tables.lines);
    if outcome.AcceptedOutcome? && (outcome.transferCount != |expected| || outcome.transferIds != expected)
    then ManualOutcome(outcome.operationId, MappingMismatch) else outcome
  }

  lemma TailRun(s: System, first: Occurrence, rest: seq<Occurrence>)
    ensures Run(s, [first] + rest) == Run(Next(s, first), rest)
  {
    RunConcat(s, [first], rest);
    RunOne(s, first);
  }

  /** The post itself, up to the outcome in the worker's hands. */
  method CallPost(tables: OperationTables, ledger: LedgerPort, script: Script) returns (outcome: Outcome)
    modifies ledger
    ensures View(tables, ledger, Receipting(outcome, Some(AUTHORITY)))
         == Next(old(View(tables, ledger, Posting)), Act(0, Post(script.delivery, script.admitted, script.reason, script.now)))
  {
    ghost var s := View(tables, ledger, Posting);
    PostNext(s, script);
    outcome := ledger.PostJournal(tables.op.identity, tables.lines, script.delivery, script.admitted, script.reason, script.now);
    outcome := Checked(tables.Contents(), outcome);
  }

  method PostToLedger(tables: OperationTables, ledger: LedgerPort, script: Script)
    modifies tables, ledger
    ensures View(tables, ledger, Idle) == Run(old(View(tables, ledger, Posting)),
              [Act(0, Post(script.delivery, script.admitted, script.reason, script.now))] + Closing(0, script))
  {
    ghost var s := View(tables, ledger, Posting);
    TailRun(s, Act(0, Post(script.delivery, script.admitted, script.reason, script.now)), Closing(0, script));
    var outcome := CallPost(tables, ledger, script);
    Settle(tables, ledger, outcome, Some(AUTHORITY), script);
  }

  /** A first attempt posts without looking anything up. */
  lemma LookupPasses(s: System, available: bool, rest: seq<Occurrence>)
    requires s.workers == [Posting]
    ensures Run(s, [Act(0, Lookup(available))] + rest) == Run(s, rest)
  {
    LookupDoesNotApply(s, available);
    TailRun(s, Act(0, Lookup(available)), rest);
  }

  lemma LookupDoesNotApply(s: System, available: bool)
    requires s.workers == [Posting]
    ensures Next(s, Act(0, Lookup(available))) == s
  {
  }

  /** Filling empty identities breaks no rule of the transfer rows. */
  lemma PersistingIsAllowed(rows: Rows, expected: seq<TransferId>)
    ensures OperationTransactions.PersistIdentities(rows, expected).0.Success?
  {
  }

  /** Where the identities leave the worker. */
  function AfterIdentities(operationId: string, reconcile: bool, persisted: bool): Worker {
    if !persisted then Receipting(ManualOutcome(operationId, MappingMismatch), Some(AUTHORITY))
    else if reconcile then LookingUp else Posting
  }

  method CallIdentify(tables: OperationTables, ledger: LedgerPort, reconcile: bool) returns (persisted: bool)
    modifies tables`transfers
    ensures View(tables, ledger, AfterIdentities(tables.op.identity.operationId, reconcile, persisted))
         == Next(old(View(tables, ledger, Identifying(reconcile))), Act(0, Identify))
  {
    ghost var s := View(tables, ledger, Identifying(reconcile));
    IdentifyNext(s, reconcile);
    PersistingIsAllowed(s.rows, Expected(s));
    var expected := ExpectedIds(tables.op.identity, tables.lines);
    var error, agreed := tables.PersistIdentities(expected);
    EndedView(s, OperationTransactions.PersistIdentities(s.rows, Expected(s)).0, tables.Contents(), error,
              if reconcile then LookingUp else Posting);
    persisted := agreed;
  }

  /** Identities, then a lookup when reconciling, then a post when nothing was found or this is the first attempt. */
  method CallLedger(tables: OperationTables, ledger: LedgerPort, reconcile: bool, script: Script)
    modifies tables, ledger
    ensures View(tables, ledger, Idle)
         == Run(old(View(tables, ledger, Identifying(reconcile))), Calls(0, script) + Closing(0, script))
  {
    ghost var lookup := Act(0, Lookup(script.available));
    ghost var post := Act(0, Post(script.delivery, script.admitted, script.reason, script.now));
    ghost var closing := Closing(0, script);
    assert Calls(0, script) + closing == [Act(0, Identify)] + ([lookup] + ([post] + closing));
    TailRun(View(tables, ledger, Identifying(reconcile)), Act(0, Identify), [lookup] + ([post] + closing));
    var persisted := CallIdentify(tables, ledger, reconcile);
    if !persisted {
      assert [lookup] + ([post] + closing) == [lookup, post] + closing;
      Leave(tables, ledger, ManualOutcome(tables.op.identity.operationId, MappingMismatch), Some(AUTHORITY), [lookup, post], script);
    } else if reconcile {
      LookUpThenPost(tables, ledger, script);
    } else {
      LookupPasses(View(tables, ledger, Posting), script.available, [post] + closing);
      PostToLedger(tables, ledger, script);
    }
  }

  /** The lookup itself: the worker posts when nothing was found, and otherwise holds an outcome. */
  method CallLookup(tables: OperationTables, ledger: LedgerPort, script: Script) returns (next: Worker)
    ensures View(tables, ledger, next) == Next(View(tables, ledger, LookingUp), Act(0, Lookup(script.available)))
    ensures next == Posting || (next.Receipting? && next.observed == Some(AUTHORITY))
  {
    LookupNext(View(tables, ledger, LookingUp), script.available);
    var outcome := ledger.ReconcileJournal(tables.op.identity, tables.lines, script.available);
    next := if outcome.UnknownOutcome? && outcome.why == NotFound then Posting
            else Receipting(Checked(tables.Contents(), outcome), Some(AUTHORITY));
  }

  method LookUpThenPost(tables: OperationTables, ledger: LedgerPort, script: Script)
    modifies tables, ledger
    ensures View(tables, ledger, Idle) == Run(old(View(tables, ledger, LookingUp)), [Act(0, Lookup(script.available))]
              + ([Act(0, Post(script.delivery, script.admitted, script.reason, script.now))] + Closing(0, script)))
  {
    ghost var post := Act(0, Post(script.delivery, script.admitted, script.reason, script.now));
    TailRun(View(tables, ledger, LookingUp), Act(0, Lookup(script.available)), [post] + Closing(0, script));
    var next := CallLookup(tables, ledger, script);
    if next == Posting {
      PostToLedger(tables, ledger, script);
    } else {
      Leave(tables, ledger, next.outcome, next.observed, [post], script);
    }
  }

  // ----- the accounts

  /** What a submission records when an account is not accepted. */
  function AccountOutcome(operationId: string, answer: AccountVerdict): Outcome
    requires !answer.AccountAccepted?
  {
    match answer
    case AccountRejected(reason) => RejectedOutcome(operationId, reason)
    case AccountUnknown(why) => UnknownOutcome(operationId, why)
    case AccountManual(recovery) => ManualOutcome(operationId, recovery)
  }

  lemma ProvisionNext(s: System, reconcile: bool, pending: seq<string>, verdict: AccountVerdict)
    requires s.workers == [Provisioning(reconcile, pending)]
    ensures Next(s, Act(0, Provision(verdict))) ==
      if pending == [] then s.(workers := [Identifying(reconcile)])
      else
        var answer := AccountAnswer(s, pending[0], verdict);
        s.(workers := [if answer.AccountAccepted? then Provisioning(reconcile, pending[1..])
                       else Receipting(AccountOutcome(s.rows.op.identity.operationId, answer), Some(AUTHORITY))],
           provisioned := s.provisioned + (if answer.AccountAccepted? then {pending[0]} else {}),
           refusedAccounts := s.refusedAccounts + (if answer.AccountRejected? then {pending[0]} else {}))
  {
    assert s.provisioned + {} == s.provisioned && s.refusedAccounts + {} == s.refusedAccounts;
  }

  /** One account of the provisioning loop. */
  method ProvisionAccount(tables: OperationTables, ledger: LedgerPort, reconcile: bool, pending: seq<string>, script: Script)
    returns (answer: AccountVerdict)
    requires pending != []
    modifies ledger`provisioned, ledger`refusedAccounts
    ensures View(tables, ledger, if answer.AccountAccepted? then Provisioning(reconcile, pending[1..])
                                 else Receipting(AccountOutcome(tables.op.identity.operationId, answer), Some(AUTHORITY)))
         == Next(old(View(tables, ledger, Provisioning(reconcile, pending))), Act(0, Provision(script.verdict(pending[0]))))
  {
    ProvisionNext(View(tables, ledger, Provisioning(reconcile, pending)), reconcile, pending, script.verdict(pending[0]));
    answer := ledger.CreateExecutionAccount(pending[0], script.verdict(pending[0]));
  }

  lemma RunFirstProvision(s: System, pending: seq<string>, rest: seq<Occurrence>, script: Script)
    requires pending != []
    ensures Run(s, Provisions(0, pending, script) + rest)
         == Run(Next(s, Act(0, Provision(script.verdict(pending[0])))), Provisions(0, pending[1..], script) + rest)
  {
    var first, later := Act(0, Provision(script.verdict(pending[0]))), Provisions(0, pending[1..], script);
    assert Provisions(0, pending, script) + rest == [first] + (later + rest);
    TailRun(s, first, later + rest);
  }

  method ProvisionAndCall(tables: OperationTables, ledger: LedgerPort, reconcile: bool, script: Script)
    modifies tables, ledger
    ensures View(tables, ledger, Idle)
         == Run(old(View(tables, ledger, Provisioning(reconcile, DistinctAccounts(tables.lines)))),
                Provisions(0, DistinctAccounts(old(tables.lines)), script) + (Calls(0, script) + Closing(0, script)))
  {
    var pending := DistinctAccounts(tables.lines);
    ghost var rest := Calls(0, script) + Closing(0, script);
    ghost var target := Run(View(tables, ledger, Provisioning(reconcile, pending)), Provisions(0, pending, script) + rest);
    while pending != []
      invariant Run(View(tables, ledger, Provisioning(reconcile, pending)), Provisions(0, pending, script) + rest) == target
      decreases |pending|
    {
      ghost var s := View(tables, ledger, Provisioning(reconcile, pending));
      ghost var later := Provisions(0, pending[1..], script);
      RunFirstProvision(s, pending, rest, script);
      var answer := ProvisionAccount(tables, ledger, reconcile, pending, script);
      if !answer.AccountAccepted? {
        ProvisionsAreMiddle(0, pending[1..], script);
        CallsAreMiddle(0, script);
        assert later + rest == (later + Calls(0, script)) + Closing(0, script);
        Leave(tables, ledger, AccountOutcome(tables.op.identity.operationId, answer), Some(AUTHORITY),
              later + Calls(0, script), script);
        return;
      }
      pending := pending[1..];
    }
    TailRun(View(tables, ledger, Provisioning(reconcile, [])), Act(0, Provision(AccountAccepted)), rest);
    ProvisionNext(View(tables, ledger, Provisioning(reconcile, [])), reconcile, [], AccountAccepted);
    CallLedger(tables, ledger, reconcile, script);
  }

  // ----- the beginning

  lemma BeginNext(s: System, job: Job, script: Script)
    requires s.workers == [Beginning(job)]
    ensures var (committed, decision) :=
        OperationTransactions.BeginSubmission(s.rows, job == ReconcileJob, AUTHORITY, script.routing, script.now);
      Next(s, Act(0, Begin(script.routing, script.now))) ==
        match decision
        case AlreadyTerminal => s.(workers := [Idle])
        case RoutingChanged(observed) => s.(workers := [Failing(s, EngineRoutingChanged, observed)])
        case Blocked => s.(workers := [Deferring])
        case Proceed(reconcile) => After(s, committed, Provisioning(reconcile, DistinctAccounts(s.rows.lines)))
  {
  }

  lemma DeferNext(s: System, now: Time)
    requires s.workers == [Deferring]
    ensures Next(s, Act(0, Defer(now))) == After(s, OperationTransactions.DeferBlocked(s.rows, now), Idle)
  {
  }

  ghost function Remainder(accounts: seq<string>, script: Script): seq<Occurrence> {
    Provisions(0, accounts, script) + (Calls(0, script) + Closing(0, script))
  }

  lemma SkipRemainder(s: System, accounts: seq<string>, script: Script)
    requires s.workers == [Idle]
    ensures Run(s, Remainder(accounts, script)) == s
  {
    RunConcat(s, Provisions(0, accounts, script), Calls(0, script) + Closing(0, script));
    RunConcat(s, Calls(0, script), Closing(0, script));
    ProvisionsAreMiddle(0, accounts, script);
    CallsAreMiddle(0, script);
    SkipMiddle(s, 0, Provisions(0, accounts, script));
    SkipMiddle(s, 0, Calls(0, script));
    SkipClosing(s, 0, script);
  }

  lemma SkipFromIdle(s: System, skipped: seq<Occurrence>, accounts: seq<string>, script: Script)
    requires s.workers == [Idle] && Middle(0, skipped)
    ensures Run(s, skipped + Remainder(accounts, script)) == s
  {
    RunConcat(s, skipped, Remainder(accounts, script));
    SkipMiddle(s, 0, skipped);
    SkipRemainder(s, accounts, script);
  }

  /** Leaves early in the script: every step up to the receipt is skipped. */
  method LeaveEarly(tables: OperationTables, ledger: LedgerPort, outcome: Outcome, observed: Option<Engine>,
                    ghost skipped: seq<Occurrence>, ghost accounts: seq<string>, script: Script)
    requires Middle(0, skipped)
    modifies tables
    ensures View(tables, ledger, Idle)
         == Run(old(View(tables, ledger, Receipting(outcome, observed))), skipped + Remainder(accounts, script))
  {
    ProvisionsAreMiddle(0, accounts, script);
    CallsAreMiddle(0, script);
    ghost var middle := skipped + (Provisions(0, accounts, script) + Calls(0, script));
    assert skipped + Remainder(accounts, script) == middle + Closing(0, script);
    Leave(tables, ledger, outcome, observed, middle, script);
  }

  /** A blocked submission is put off by a statement of its own. */
  method PutOff(tables: OperationTables, ledger: LedgerPort, ghost accounts: seq<string>, script: Script)
    modifies tables
    ensures View(tables, ledger, Idle)
         == Run(old(View(tables, ledger, Deferring)), [Act(0, Defer(script.now))] + Remainder(accounts, script))
  {
    ghost var s := View(tables, ledger, Deferring);
    DeferNext(s, script.now);
    TailRun(s, Act(0, Defer(script.now)), Remainder(accounts, script));
    var deferred := tables.DeferBlocked(script.now);
    EndedView(s, OperationTransactions.DeferBlocked(s.rows, script.now), tables.Contents(), deferred, Idle);
    SkipRemainder(View(tables, ledger, Idle), accounts, script);
  }

  method CarryOn(tables: OperationTables, ledger: LedgerPort, reconcile: bool, script: Script)
    modifies tables, ledger
    ensures View(tables, ledger, Idle)
         == Run(old(View(tables, ledger, Provisioning(reconcile, DistinctAccounts(tables.lines)))),
                [Act(0, Defer(script.now))] + Remainder(DistinctAccounts(old(tables.lines)), script))
  {
    ghost var s := View(tables, ledger, Provisioning(reconcile, DistinctAccounts(tables.lines)));
    TailRun(s, Act(0, Defer(script.now)), Remainder(DistinctAccounts(tables.lines), script));
    DeferPasses(s, 0, script.now);
    ProvisionAndCall(tables, ledger, reconcile, script);
  }

  lemma BeginOnlyTouchesTheOperation(rows: Rows, reconcile: bool, routing: OperationTransactions.Routing, now: Time)
    ensures var (committed, decision) := OperationTransactions.BeginSubmission(rows, reconcile, AUTHORITY, routing, now);
      && (committed.Success? ==> committed.value == rows.(op := committed.value.op) && committed.value.op.identity == rows.op.identity)
      && (!decision.Proceed? ==> committed == Success(rows))
  {
  }

  /** Where the submission transaction leaves the worker. */
  function AfterBegin(operationId: string, accounts: seq<string>, decision: OperationTransactions.Decision, failed: bool): Worker {
    match decision
    case AlreadyTerminal => Idle
    case RoutingChanged(observed) => Receipting(ManualOutcome(operationId, EngineRoutingChanged), observed)
    case Blocked => Deferring
    case Proceed(reconcile) => if failed then Idle else Provisioning(reconcile, accounts)
  }

  method RunBegin(tables: OperationTables, ledger: LedgerPort, job: Job, ghost rest: seq<Occurrence>, script: Script)
    returns (next: Worker)
    modifies tables`op
    ensures Run(old(View(tables, ledger, Beginning(job))), [Act(0, Begin(script.routing, script.now))] + rest)
         == Run(View(tables, ledger, next), rest)
    ensures exists decision, failed :: next == AfterBegin(tables.op.identity.operationId, DistinctAccounts(tables.lines), decision, failed)
  {
    ghost var s := View(tables, ledger, Beginning(job));
    TailRun(s, Act(0, Begin(script.routing, script.now)), rest);
    BeginNext(s, job, script);
    BeginOnlyTouchesTheOperation(s.rows, job == ReconcileJob, script.routing, script.now);
    var error, decision := tables.BeginSubmission(job == ReconcileJob, AUTHORITY, script.routing, script.now);
    next := AfterBegin(tables.op.identity.operationId, DistinctAccounts(tables.lines), decision, error != None);
    ghost var committed :=
      OperationTransactions.BeginSubmission(s.rows, job == ReconcileJob, AUTHORITY, script.routing, script.now).0;
    EndedView(s, committed, tables.Contents(), error, next);
  }

  method BeginAndContinue(tables: OperationTables, ledger: LedgerPort, job: Job, script: Script)
    modifies tables, ledger
    ensures View(tables, ledger, Idle) == Run(old(View(tables, ledger, Beginning(job))),
              [Act(0, Begin(script.routing, script.now))]
              + ([Act(0, Defer(script.now))] + Remainder(DistinctAccounts(old(tables.lines)), script)))
  {
    ghost var defer, accounts := Act(0, Defer(script.now)), DistinctAccounts(tables.lines);
    var next := RunBegin(tables, ledger, job, [defer] + Remainder(accounts, script), script);
    Continue(tables, ledger, next, script);
  }

  /** From wherever the submission transaction left the worker to the end. */
  method Continue(tables: OperationTables, ledger: LedgerPort, next: Worker, script: Script)
    requires exists decision, failed ::
      next == AfterBegin(tables.op.identity.operationId, DistinctAccounts(tables.lines), decision, failed)
    modifies tables, ledger
    ensures View(tables, ledger, Idle) == Run(old(View(tables, ledger, next)),
              [Act(0, Defer(script.now))] + Remainder(DistinctAccounts(old(tables.lines)), script))
  {
    ghost var defer, accounts := Act(0, Defer(script.now)), DistinctAccounts(tables.lines);
    if next.Receipting? {
      LeaveEarly(tables, ledger, next.outcome, next.observed, [defer], accounts, script);
    } else if next == Deferring {
      PutOff(tables, ledger, accounts, script);
    } else if next.Provisioning? {
      CarryOn(tables, ledger, next.reconcile, script);
    } else {
      SkipFromIdle(View(tables, ledger, Idle), [defer], accounts, script);
    }
  }

  lemma StartNext(s: System, job: Job)
    requires s.workers == [Idle]
    ensures Next(s, Act(0, Start(job))) == if Terminal(s.rows.op.status) then s else s.(workers := [Loaded(job)])
  {
  }

  lemma AuthorizeNext(s: System, job: Job, verdict: Authorization)
    requires s.workers == [Loaded(job)]
    ensures Next(s, Act(0, Authorize(verdict))) == s.(workers :=
      [match verdict
       case Authorised => Beginning(job)
       case Denied => Failing(s, ReconciliationRequired, None)
       case AuthorizationFailed => Idle])
  {
  }

  /** From the loaded command on: authorisation, then the submission transaction. */
  method AuthorizeAndBegin(tables: OperationTables, ledger: LedgerPort, job: Job, script: Script)
    modifies tables, ledger
    ensures View(tables, ledger, Idle)
         == Run(old(View(tables, ledger, Loaded(job))), AfterLoading(DistinctAccounts(old(tables.lines)), script))
  {
    ghost var loaded, accounts := View(tables, ledger, Loaded(job)), DistinctAccounts(tables.lines);
    ghost var begin, defer := Act(0, Begin(script.routing, script.now)), Act(0, Defer(script.now));
    TailRun(loaded, Act(0, Authorize(script.authorization)), [begin] + ([defer] + Remainder(accounts, script)));
    AuthorizeNext(loaded, job, script.authorization);
    assert [begin] + ([defer] + Remainder(accounts, script)) == [begin, defer] + Remainder(accounts, script);
    match script.authorization {
      case AuthorizationFailed => SkipFromIdle(View(tables, ledger, Idle), [begin, defer], accounts, script);
      case Denied =>
        LeaveEarly(tables, ledger, ManualOutcome(tables.op.identity.operationId, ReconciliationRequired), None,
                   [begin, defer], accounts, script);
      case Authorised => BeginAndContinue(tables, ledger, job, script);
    }
  }

  ghost function AfterLoading(accounts: seq<string>, script: Script): seq<Occurrence> {
    [Act(0, Authorize(script.authorization))] + ([Act(0, Begin(script.routing, script.now))]
      + ([Act(0, Defer(script.now))] + Remainder(accounts, script)))
  }

  lemma ScriptUnfolds(s: System, job: Job, script: Script)
    ensures SubmitScript(s, 0, job, script) == [Act(0, Start(job))] + AfterLoading(DistinctAccounts(s.rows.lines), script)
  {
  }

  lemma SkipAfterLoading(s: System, accounts: seq<string>, script: Script)
    requires s.workers == [Idle]
    ensures Run(s, AfterLoading(accounts, script)) == s
  {
    var skipped := [Act(0, Authorize(script.authorization)), Act(0, Begin(script.routing, script.now)), Act(0, Defer(script.now))];
    assert AfterLoading(accounts, script) == skipped + Remainder(accounts, script);
    SkipFromIdle(s, skipped, accounts, script);
  }

  /** A final operation is left alone by the whole script; any other is loaded first. */
  lemma ScriptLoads(s: System, job: Job, script: Script)
    requires s.workers == [Idle]
    ensures Run(s, SubmitScript(s, 0, job, script))
         == if Terminal(s.rows.op.status) then s
            else Run(s.(workers := [Loaded(job)]), AfterLoading(DistinctAccounts(s.rows.lines), script))
  {
    var accounts := DistinctAccounts(s.rows.lines);
    ScriptUnfolds(s, job, script);
    TailRun(s, Act(0, Start(job)), AfterLoading(accounts, script));
    StartNext(s, job);
    if Terminal(s.rows.op.status) { SkipAfterLoading(s, accounts, script); }
  }

  /** An unposted operation of this ledger. */
  ghost predicate OwnIntent(rows: Rows) {
    Consistent(rows) && rows.op.status == Intent && rows.op.identity.engine == TigerBeetle && rows.op.identity.engineVerified
  }

  /** What a shut gate, a changed engine and a denial make of a first attempt. */
  lemma FirstAttemptEnds(s: System, script: Script)
    requires s.workers == [Idle] && OwnIntent(s.rows)
    ensures var t, routing := Run(s, SubmitScript(s, 0, SubmitJob, script)), script.routing;
      && (script.authorization == Authorised && routing.financialEngine != Some(TigerBeetle) ==>
            t.log == s.log && t.rows.op.status == ManualRecovery && t.rows.op.recoveryReason == Some(EngineRoutingChanged))
      && (script.authorization == Authorised && routing.financialEngine == Some(TigerBeetle)
          && (!routing.postingEnabled || !routing.periodOpen) ==>
            t.log == s.log && t.rows == s.rows.(op := s.rows.op.(scheduledAt := script.now + 5000, lastError := Some(PostingBlocked))))
      && (script.authorization == Denied ==>
            t.log == s.log && t.rows.op.status == ManualRecovery && t.rows.op.recoveryReason == Some(ReconciliationRequired))
      && (script.authorization == AuthorizationFailed ==> t == s)
      && (Safe(s) && Effect(s) == [] && Undisturbed(script) && GatesOpen(script) ==>
            && t.rows.op.status == (if Admits(s, script) then Reconciled else Rejected)
            && (Applied(t.log, t.rows.op.identity) == [] <==> !Admits(s, script)))
  {
    if Safe(s) && Effect(s) == [] && Undisturbed(script) && GatesOpen(script) {
      OpenGatesSettle(s, 0, script);
      FinalStatesAbsorb(s, SubmitScript(s, 0, SubmitJob, script));
    }
    if script.authorization == Denied {
      DenialFences(s, 0, SubmitJob, script);
    } else if script.authorization == AuthorizationFailed {
      UndecidedLeaves(s, 0, SubmitJob, script);
    } else if script.routing.financialEngine != Some(TigerBeetle) {
      ChangedRoutingFences(s, 0, script);
    } else if !script.routing.postingEnabled || !script.routing.periodOpen {
      ShutGatePutsOff(s, 0, script);
    }
  }

  /**
   The submission command.  Its effect on tables and ledger is the uninterrupted run of one worker through the
   script of how the world answers.  A first attempt with a shut gate is put off, one whose engine has changed or whose
   authorisation is denied is fenced, and none of these reaches the ledger; with open gates and nothing disturbed the ledger
   takes the journal and the operation is reconciled, or refuses it and the operation is rejected.
   */
  method Submit(tables: OperationTables, ledger: LedgerPort, job: Job, script: Script)
    modifies tables, ledger
    ensures View(tables, ledger, Idle)
         == Run(old(View(tables, ledger, Idle)), SubmitScript(old(View(tables, ledger, Idle)), 0, job, script))
    ensures job == SubmitJob && old(OwnIntent(tables.Contents())) && script.authorization == Authorised
            && script.routing.financialEngine == Some(TigerBeetle) && !(script.routing.postingEnabled && script.routing.periodOpen) ==>
      && ledger.log == old(ledger.log)
      && tables.op == old(tables.op).(scheduledAt := script.now + 5000, lastError := Some(PostingBlocked))
    ensures job == SubmitJob && old(OwnIntent(tables.Contents())) && script.authorization == Authorised
            && script.routing.financialEngine != Some(TigerBeetle) ==>
      && ledger.log == old(ledger.log)
      && tables.op.status == ManualRecovery && tables.op.recoveryReason == Some(EngineRoutingChanged)
    ensures job == SubmitJob && old(OwnIntent(tables.Contents())) && script.authorization == Denied ==>
      && ledger.log == old(ledger.log)
      && tables.op.status == ManualRecovery && tables.op.recoveryReason == Some(ReconciliationRequired)
    ensures job == SubmitJob && old(OwnIntent(tables.Contents())) && script.authorization == AuthorizationFailed ==>
      ledger.log == old(ledger.log) && tables.op == old(tables.op)
    ensures job == SubmitJob && old(OwnIntent(tables.Contents()) && Safe(View(tables, ledger, Idle)) && Effect(View(tables, ledger, Idle)) == [])
            && Undisturbed(script) && GatesOpen(script) ==>
      && tables.op.status == (if Admits(old(View(tables, ledger, Idle)), script) then Reconciled else Rejected)
      && (Applied(ledger.log, tables.op.identity) == [] <==> tables.op.status == Rejected)
  {
    ghost var s := View(tables, ledger, Idle);
    if job == SubmitJob && OwnIntent(s.rows) { FirstAttemptEnds(s, script); }
    ScriptLoads(s, job, script);
    if !Terminal(tables.op.status) {
      AuthorizeAndBegin(tables, ledger, job, script);
    }
  }

  /** The reconcile command settles the operation whenever nothing disturbs it. */
  method Reconcile(tables: OperationTables, ledger: LedgerPort, script: Script)
    requires Recoverable(View(tables, ledger, Idle), 0) && Undisturbed(script) && !Terminal(tables.op.status)
    modifies tables, ledger
    ensures Safe(View(tables, ledger, Idle))
    ensures var s := old(View(tables, ledger, Idle));
      tables.op.status == if Effect(s) != [] || Admits(s, script) then Reconciled else Rejected
    ensures Effect(old(View(tables, ledger, Idle))) != [] ==>
      Effect(View(tables, ledger, Idle)) == Effect(old(View(tables, ledger, Idle)))
  {
    RecoverySettlesFrom(View(tables, ledger, Idle), 0, script);
    Submit(tables, ledger, ReconcileJob, script);
  }
}
