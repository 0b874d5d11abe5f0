/**
 The first attempt of a submission, from the stored intent to its end: what reaches the ledger when a gate is shut, when the
 engine has changed, when authorisation is denied, and when nothing stands in the way.
 */
module FirstAttempt {
  import opened Wrappers
  import opened Pairing
  import opened JournalValidation
  import opened OperationRecords
  import opened OperationTransactions
  import opened OperationInvariant
  import opened TransactionEffects
  import opened ExternalLedger
  import opened Protocol
  import opened ProtocolSafety
  import opened ProtocolTheorems
  import opened Recovery

  // ----- steps that do not apply

  /** Actions of the middle of a script: neither a start, a receipt, nor a crash. */
  ghost predicate Middle(w: nat, occurrences: seq<Occurrence>) {
    forall o | o in occurrences :: o.Act? && o.worker == w
      && !o.action.Start? && !o.action.StartRebuild? && !o.action.Crash? && !o.action.Receipt?
  }

  lemma SkipIdle(s: System, w: nat, action: Action)
    requires w < |s.workers| && s.workers[w] == Idle && !action.Start? && !action.StartRebuild? && !action.Crash?
    ensures Next(s, Act(w, action)) == s
  {
    assert s.workers[w := Idle] == s.workers;
  }

  lemma {:induction false} SkipMiddle(s: System, w: nat, occurrences: seq<Occurrence>)
    requires Middle(w, occurrences) && w < |s.workers| && (s.workers[w].Receipting? || s.workers[w] == Idle)
    ensures Run(s, occurrences) == s
    decreases |occurrences|
  {
    if occurrences != [] {
      var o := occurrences[0];
      assert o in occurrences;
      if s.workers[w] == Idle { SkipIdle(s, w, o.action); } else { WaitingSkips(s, w, o.action); }
      SkipMiddle(s, w, occurrences[1..]);
    }
  }

  lemma SkipClosing(s: System, w: nat, script: Script)
    requires w < |s.workers| && s.workers[w] == Idle
    ensures Run(s, Closing(w, script)) == s
  {
    RunTwo(s, Act(w, Receipt(script.now)), Act(w, Finalize(script.now)));
    SkipIdle(s, w, Receipt(script.now));
    SkipIdle(s, w, Finalize(script.now));
  }

  lemma {:induction false} ProvisionsAreMiddle(w: nat, accounts: seq<string>, script: Script)
    ensures Middle(w, Provisions(w, accounts, script))
  {
    if accounts != [] { ProvisionsAreMiddle(w, accounts[1..], script); }
  }

  lemma CallsAreMiddle(w: nat, script: Script)
    ensures Middle(w, Calls(w, script))
  {
  }

  /** The part of a script between the beginning and the receipt. */
  function Dealings(w: nat, accounts: seq<string>, script: Script): seq<Occurrence> {
    Provisions(w, accounts, script) + Calls(w, script)
  }

  lemma DealingsAreMiddle(w: nat, accounts: seq<string>, script: Script)
    ensures Middle(w, Dealings(w, accounts, script))
  {
    ProvisionsAreMiddle(w, accounts, script);
    CallsAreMiddle(w, script);
  }

  // ----- the opening

  /** An intent of this ledger, and an idle worker. */
  ghost predicate Fresh(s: System, w: nat) {
    && w < |s.workers| && s.workers[w] == Idle && Consistent(s.rows) && s.rows.op.status == Intent
    && s.rows.op.identity.engine == TigerBeetle && s.rows.op.identity.engineVerified
  }

  lemma RunFour(s: System, a: Occurrence, b: Occurrence, c: Occurrence, d: Occurrence)
    ensures Run(s, [a, b, c, d]) == Next(Next(Next(Next(s, a), b), c), d)
  {
    assert [a, b, c, d] == [a, b] + [c, d];
    RunConcat(s, [a, b], [c, d]);
    RunTwo(s, a, b);
    RunTwo(Next(Next(s, a), b), c, d);
  }

  lemma StartLoads(s: System, w: nat, job: Job)
    requires w < |s.workers| && s.workers[w] == Idle && !Terminal(s.rows.op.status)
    ensures Next(s, Act(w, Start(job))) == Goto(s, w, Loaded(job))
  {
  }

  lemma VerdictMoves(s: System, w: nat, job: Job, verdict: Authorization)
    requires w < |s.workers| && s.workers[w] == Loaded(job)
    ensures Next(s, Act(w, Authorize(verdict))) == AuthorizeStep(s, w, job, verdict)
  {
  }

  /** Where the authorisation of a loaded job leaves the worker. */
  lemma AuthorizedReaches(s: System, w: nat, job: Job, verdict: Authorization)
    requires w < |s.workers| && s.workers[w] == Idle && !Terminal(s.rows.op.status)
    ensures Next(Next(s, Act(w, Start(job))), Act(w, Authorize(verdict))) == s.(workers := s.workers[w :=
      match verdict
      case Authorised => Beginning(job)
      case Denied => Failing(s, ReconciliationRequired, None)
      case AuthorizationFailed => Idle])
  {
    StartLoads(s, w, job);
    var t := Goto(s, w, Loaded(job));
    VerdictMoves(t, w, job, verdict);
    var next := match verdict
      case Authorised => Beginning(job)
      case Denied => Failing(s, ReconciliationRequired, None)
      case AuthorizationFailed => Idle;
    assert t.workers[w := next] == s.workers[w := next];
  }

  lemma SubmitBegins(s: System, w: nat, routing: Routing, now: Time)
    requires w < |s.workers| && s.workers[w] == Beginning(SubmitJob)
    ensures Next(s, Act(w, Begin(routing, now))) == BeginStep(s, w, SubmitJob, routing, now)
  {
  }

  /** The gates of a first attempt, as seen by the worker that begins it. */
  lemma BeginningReaches(s: System, w: nat, routing: Routing, now: Time)
    requires w < |s.workers| && s.workers[w] == Beginning(SubmitJob) && Consistent(s.rows) && s.rows.op.status == Intent
    requires s.rows.op.identity.engine == TigerBeetle && s.rows.op.identity.engineVerified
    ensures var t := Next(s, Act(w, Begin(routing, now)));
      var open := routing.postingEnabled && routing.periodOpen;
      if routing.financialEngine != Some(TigerBeetle) then
        t == Goto(s, w, Failing(s, EngineRoutingChanged, routing.financialEngine))
      else if !open then t == Goto(s, w, Deferring)
      else
        && t == s.(rows := t.rows, workers := s.workers[w := Provisioning(false, DistinctAccounts(s.rows.lines))])
        && t.rows == s.rows.(op := t.rows.op) && t.rows.op.status == Submitted && t.rows.op.identity == s.rows.op.identity
  {
    SubmitBegins(s, w, routing, now);
    FirstAttemptIsGated(s.rows, routing, now);
    BeginSubmissionKeeps(s.rows, false, TigerBeetle, routing, now);
  }

  /** The opening of a first attempt: its four steps. */
  lemma OpeningSteps(s: System, w: nat, script: Script)
    ensures var begun := Next(Next(Next(s, Act(w, Start(SubmitJob))), Act(w, Authorize(script.authorization))),
                              Act(w, Begin(script.routing, script.now)));
      Run(s, Opening(w, SubmitJob, script)) == Next(begun, Act(w, Defer(script.now)))
  {
    RunFour(s, Act(w, Start(SubmitJob)), Act(w, Authorize(script.authorization)), Act(w, Begin(script.routing, script.now)),
            Act(w, Defer(script.now)));
  }

  // ----- put off, turned away, denied

  lemma DeferredReaches(s: System, w: nat, now: Time)
    requires w < |s.workers| && s.workers[w] == Deferring && Consistent(s.rows)
    ensures Next(s, Act(w, Defer(now)))
         == s.(rows := s.rows.(op := s.rows.op.(scheduledAt := now + RETRY_DELAY, lastError := Some(PostingBlocked))),
               workers := s.workers[w := Idle])
  {
    PutOffMeans(s.rows, now);
  }

  /** A script is its opening, the dealings with the ledger, and its closing. */
  lemma ScriptRuns(s: System, w: nat, job: Job, script: Script)
    ensures Run(s, SubmitScript(s, w, job, script))
         == Run(Run(Run(s, Opening(w, job, script)), Dealings(w, DistinctAccounts(s.rows.lines), script)), Closing(w, script))
  {
    var dealings := Dealings(w, DistinctAccounts(s.rows.lines), script);
    assert SubmitScript(s, w, job, script) == Opening(w, job, script) + (dealings + Closing(w, script));
    RunConcat(s, Opening(w, job, script), dealings + Closing(w, script));
    RunConcat(Run(s, Opening(w, job, script)), dealings, Closing(w, script));
  }

  /** With an outcome in the worker's hands after the opening, the rest of the script is its receipt. */
  lemma RestIsReceipt(s: System, w: nat, job: Job, script: Script)
    requires var t := Run(s, Opening(w, job, script)); w < |t.workers| && (t.workers[w].Receipting? || t.workers[w] == Idle)
    ensures Run(s, SubmitScript(s, w, job, script)) == Run(Run(s, Opening(w, job, script)), Closing(w, script))
  {
    var accounts := DistinctAccounts(s.rows.lines);
    ScriptRuns(s, w, job, script);
    DealingsAreMiddle(w, accounts, script);
    SkipMiddle(Run(s, Opening(w, job, script)), w, Dealings(w, accounts, script));
  }

  /** With the worker idle after the opening, the rest of the script does nothing. */
  lemma RestSkipped(s: System, w: nat, job: Job, script: Script)
    requires var t := Run(s, Opening(w, job, script)); w < |t.workers| && t.workers[w] == Idle
    ensures Run(s, SubmitScript(s, w, job, script)) == Run(s, Opening(w, job, script))
  {
    RestIsReceipt(s, w, job, script);
    SkipClosing(Run(s, Opening(w, job, script)), w, script);
  }

  /** The record of an operation that has been put off. */
  function PutOff(rows: Rows, now: Time): Rows {
    rows.(op := rows.op.(scheduledAt := now + RETRY_DELAY, lastError := Some(PostingBlocked)))
  }

  lemma ShutGateOpens(s: System, w: nat, script: Script)
    requires Fresh(s, w) && script.authorization == Authorised && script.routing.financialEngine == Some(TigerBeetle)
    requires !script.routing.postingEnabled || !script.routing.periodOpen
    ensures Run(s, Opening(w, SubmitJob, script)) == s.(rows := PutOff(s.rows, script.now))
  {
    OpeningSteps(s, w, script);
    AuthorizedReaches(s, w, SubmitJob, Authorised);
    var s2 := s.(workers := s.workers[w := Beginning(SubmitJob)]);
    BeginningReaches(s2, w, script.routing, script.now);
    var s3 := Goto(s2, w, Deferring);
    DeferredReaches(s3, w, script.now);
    assert s3.workers[w := Idle] == s.workers;
  }

  /** With a shut gate the whole command only puts the operation off; nothing reaches the ledger. */
  lemma ShutGatePutsOff(s: System, w: nat, script: Script)
    requires Fresh(s, w) && script.authorization == Authorised && script.routing.financialEngine == Some(TigerBeetle)
    requires !script.routing.postingEnabled || !script.routing.periodOpen
    ensures Run(s, SubmitScript(s, w, SubmitJob, script))
         == s.(rows := s.rows.(op := s.rows.op.(scheduledAt := script.now + RETRY_DELAY, lastError := Some(PostingBlocked))))
  {
    ShutGateOpens(s, w, script);
    RestSkipped(s, w, SubmitJob, script);
  }

  lemma ManualOutcomeIsReceipted(s: System, w: nat, recovery: RecoveryReason, observed: Option<Engine>, script: Script)
    requires w < |s.workers| && s.workers[w] == Failing(s, recovery, observed)
    requires Consistent(s.rows) && s.rows.op.status in {Intent, Submitted, Unknown}
    ensures var t := Run(s, Closing(w, script));
      && t.log == s.log && t.rows.op.status == ManualRecovery && t.rows.op.recoveryReason == Some(recovery)
      && t.rows.op.observedEngine == observed && RowsBecome(s.rows, t.rows, RowManualRecovery)
  {
    RunTwo(s, Act(w, Receipt(script.now)), Act(w, Finalize(script.now)));
    ManualReceiptMeans(s.rows, recovery, observed, script.now);
    ReceiptIsStep(s, w, ManualOutcome(s.rows.op.identity.operationId, recovery), observed, script.now);
    var t := Next(s, Act(w, Receipt(script.now)));
    assert t.workers[w] == Idle;
    SkipIdle(t, w, Finalize(script.now));
  }

  /** When the configuration names another engine the operation is fenced; nothing reaches the ledger. */
  lemma ChangedRoutingFences(s: System, w: nat, script: Script)
    requires Fresh(s, w) && script.authorization == Authorised && script.routing.financialEngine != Some(TigerBeetle)
    ensures var t := Run(s, SubmitScript(s, w, SubmitJob, script));
      && t.log == s.log && t.rows.op.status == ManualRecovery && t.rows.op.recoveryReason == Some(EngineRoutingChanged)
      && t.rows.op.observedEngine == script.routing.financialEngine && RowsBecome(s.rows, t.rows, RowManualRecovery)
  {
    OpeningSteps(s, w, script);
    AuthorizedReaches(s, w, SubmitJob, Authorised);
    var s2 := s.(workers := s.workers[w := Beginning(SubmitJob)]);
    BeginningReaches(s2, w, script.routing, script.now);
    var s3 := Goto(s2, w, Failing(s2, EngineRoutingChanged, script.routing.financialEngine));
    WaitingSkips(s3, w, Defer(script.now));
    RestIsReceipt(s, w, SubmitJob, script);
    ManualOutcomeIsReceipted(s3, w, EngineRoutingChanged, script.routing.financialEngine, script);
  }

  /** Whatever the job: denied authorisation fences an unposted operation before anything else is read. */
  lemma DenialFences(s: System, w: nat, job: Job, script: Script)
    requires w < |s.workers| && s.workers[w] == Idle && Consistent(s.rows) && s.rows.op.status in {Intent, Submitted, Unknown}
    requires script.authorization == Denied
    ensures var t := Run(s, SubmitScript(s, w, job, script));
      && t.log == s.log && t.rows.op.status == ManualRecovery && t.rows.op.recoveryReason == Some(ReconciliationRequired)
      && RowsBecome(s.rows, t.rows, RowManualRecovery)
  {
    var a, b := Act(w, Start(job)), Act(w, Authorize(script.authorization));
    var c, d := Act(w, Begin(script.routing, script.now)), Act(w, Defer(script.now));
    RunFour(s, a, b, c, d);
    AuthorizedReaches(s, w, job, Denied);
    var s2 := s.(workers := s.workers[w := Failing(s, ReconciliationRequired, None)]);
    WaitingSkips(s2, w, c.action);
    WaitingSkips(s2, w, d.action);
    RestIsReceipt(s, w, job, script);
    ManualOutcomeIsReceipted(s2, w, ReconciliationRequired, None, script);
  }

  /** An authorisation that could not be decided leaves everything as it was. */
  lemma UndecidedLeaves(s: System, w: nat, job: Job, script: Script)
    requires w < |s.workers| && s.workers[w] == Idle && !Terminal(s.rows.op.status) && script.authorization == AuthorizationFailed
    ensures Run(s, SubmitScript(s, w, job, script)) == s
  {
    var a, b := Act(w, Start(job)), Act(w, Authorize(script.authorization));
    var c, d := Act(w, Begin(script.routing, script.now)), Act(w, Defer(script.now));
    RunFour(s, a, b, c, d);
    AuthorizedReaches(s, w, job, AuthorizationFailed);
    assert s.workers[w := Idle] == s.workers;
    SkipIdle(s, w, c.action);
    SkipIdle(s, w, d.action);
    RestSkipped(s, w, job, script);
  }

  // ----- going ahead

  ghost predicate GatesOpen(script: Script) {
    script.routing.financialEngine == Some(TigerBeetle) && script.routing.postingEnabled && script.routing.periodOpen
  }

  lemma OpeningEnds(s: System, w: nat, script: Script)
    requires Fresh(s, w) && script.authorization == Authorised && GatesOpen(script)
    ensures var t := Run(s, Opening(w, SubmitJob, script));
      && t == s.(rows := t.rows, workers := s.workers[w := Provisioning(false, DistinctAccounts(s.rows.lines))])
      && t.rows == s.rows.(op := t.rows.op) && t.rows.op.status == Submitted && t.rows.op.identity == s.rows.op.identity
  {
    OpeningSteps(s, w, script);
    AuthorizedReaches(s, w, SubmitJob, Authorised);
    var s2 := s.(workers := s.workers[w := Beginning(SubmitJob)]);
    BeginningReaches(s2, w, script.routing, script.now);
    var s3 := Next(s2, Act(w, Begin(script.routing, script.now)));
    assert s3.workers == s.workers[w := Provisioning(false, DistinctAccounts(s.rows.lines))];
    DeferPasses(s3, w, script.now);
  }

  lemma OpeningGoesAhead(s: System, w: nat, script: Script)
    requires Safe(s) && Fresh(s, w) && script.authorization == Authorised && GatesOpen(script)
    ensures var t := Run(s, Opening(w, SubmitJob, script));
      && Stands(s, t, w, Provisioning(false, DistinctAccounts(s.rows.lines))) && t.provisioned == s.provisioned
      && t.rows.op.status == Submitted
  {
    OpeningEnds(s, w, script);
    OpeningIsSafe(s, w, script);
  }

  lemma OpeningIsSafe(s: System, w: nat, script: Script)
    requires Safe(s)
    ensures Safe(Run(s, Opening(w, SubmitJob, script)))
  {
    RunIsSafe(s, Opening(w, SubmitJob, script));
  }

  /** Opening and accounts of a first attempt: the identities are next, or the receipt of a refused account. */
  lemma FirstProvisioningReaches(s: System, w: nat, script: Script)
    requires Safe(s) && Fresh(s, w) && Undisturbed(script) && GatesOpen(script)
    ensures var t := Run(s, Opening(w, SubmitJob, script) + Provisions(w, DistinctAccounts(s.rows.lines), script));
      && t.rows.op.status == Submitted
      && (if AllAccepted(s, DistinctAccounts(s.rows.lines), script) then Stands(s, t, w, Identifying(false))
          else Recovery.Refused(s.(rows := t.rows), t, w) && SameIntent(s.rows, t.rows))
  {
    var accounts := DistinctAccounts(s.rows.lines);
    RunConcat(s, Opening(w, SubmitJob, script), Provisions(w, accounts, script));
    OpeningGoesAhead(s, w, script);
    var s1 := Run(s, Opening(w, SubmitJob, script));
    assert AllAccepted(s1, accounts, script) == AllAccepted(s, accounts, script) by { SameAnswers(s, s1, accounts, script); }
    ProvisionsReach(s1, w, false, accounts, script);
    if AllAccepted(s, accounts, script) {
      StandsTransitive(s, s1, Run(s1, Provisions(w, accounts, script)), w, Provisioning(false, accounts), Identifying(false));
    }
  }

  lemma FirstIdentifies(s: System, w: nat)
    requires w < |s.workers| && s.workers[w] == Identifying(false)
    ensures Next(s, Act(w, Identify)) == IdentifyStep(s, w, false)
  {
  }

  lemma PostingPassesLookup(s: System, w: nat)
    requires w < |s.workers| && s.workers[w] == Posting
    ensures Next(s, Act(w, Lookup(true))) == s
  {
  }

  /** A first attempt posts without looking anything up. */
  lemma FirstCallsReach(s: System, w: nat)
    requires Safe(s) && w < |s.workers| && s.workers[w] == Identifying(false)
    ensures var t := Run(s, [Act(w, Identify), Act(w, Lookup(true))]);
      Stands(s, t, w, Posting) && t.rows.op == s.rows.op
  {
    RunTwo(s, Act(w, Identify), Act(w, Lookup(true)));
    FirstIdentifies(s, w);
    IdentifyReaches(s, w, false);
    PostingPassesLookup(IdentifyStep(s, w, false), w);
  }

  lemma FirstScriptSplits(s: System, w: nat, script: Script)
    requires Undisturbed(script)
    ensures SubmitScript(s, w, SubmitJob, script)
         == (Opening(w, SubmitJob, script) + Provisions(w, DistinctAccounts(s.rows.lines), script))
            + ([Act(w, Identify), Act(w, Lookup(true))] + Settle(w, script))
  {
  }

  /**
   With open gates and nothing disturbed, the first attempt settles the operation: reconciled when the ledger takes its
   accounts and its batch, rejected otherwise.
   */
  lemma OpenGatesSettle(s: System, w: nat, script: Script)
    requires Safe(s) && Fresh(s, w) && Effect(s) == [] && Undisturbed(script) && GatesOpen(script)
    ensures var t := Run(s, SubmitScript(s, w, SubmitJob, script));
      && t.rows.op.status == (if Admits(s, script) then Reconciled else Rejected)
      && (Applied(t.log, s.rows.op.identity) == [] <==> !Admits(s, script))
  {
    var first := Opening(w, SubmitJob, script) + Provisions(w, DistinctAccounts(s.rows.lines), script);
    var calls := [Act(w, Identify), Act(w, Lookup(true))];
    FirstScriptSplits(s, w, script);
    RunConcat(s, first, calls + Settle(w, script));
    FirstProvisioningReaches(s, w, script);
    var t := Run(s, first);
    if AllAccepted(s, DistinctAccounts(s.rows.lines), script) {
      RunConcat(t, calls, Settle(w, script));
      FirstCallsReach(t, w);
      SettleReaches(Run(t, calls), w, script.admitted, script.reason, script.now);
      SettledEffect(Run(t, calls), w, script);
    } else {
      RefusalSettles(t, w, script);
    }
  }

  /** A reconciled operation has been applied. */
  lemma SettledEffect(s: System, w: nat, script: Script)
    requires Safe(s)
    ensures var t := Run(s, Settle(w, script)); t.rows.op.status == Reconciled ==> Effect(t) != []
  {
    RunIsSafe(s, Settle(w, script));
  }
}
