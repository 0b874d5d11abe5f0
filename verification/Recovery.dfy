/**
 Recovery: from any reachable state one uninterrupted reconcile run of an idle worker settles the operation.
 */
module Recovery {
  import opened Wrappers
  import opened JournalValidation
  import opened OperationRecords
  import opened OperationTransactions
  import opened OperationInvariant
  import opened TransferIdentities
  import opened ExternalLedger
  import opened Protocol
  import opened ProtocolSafety
  import opened ProtocolTheorems

  lemma {:induction false} RunConcat(s: System, first: seq<Occurrence>, second: seq<Occurrence>)
    ensures Run(s, first + second) == Run(Run(s, first), second)
    decreases |first|
  {
    if first == [] {
      assert first + second == second;
    } else {
      assert (first + second)[1..] == first[1..] + second;
      RunConcat(Next(s, first[0]), first[1..], second);
    }
  }

  /** Worker `w` stands at `worker`, nothing has reached or left the ledger, and the state is safe. */
  ghost predicate Stands(s: System, t: System, w: nat, worker: Worker) {
    && Safe(t) && OrderlyStep(s, t) && Effect(t) == Effect(s) && t.log == s.log
    && t.refused == s.refused && t.refusedAccounts == s.refusedAccounts
    && w < |t.workers| && t.workers == s.workers[w := worker]
  }

  /** An idle worker and an operation routed to this ledger. */
  ghost predicate Ready(s: System, w: nat) {
    && w < |s.workers| && s.workers[w] == Idle
    && s.rows.op.identity.engine == AUTHORITY && s.rows.op.identity.engineVerified
  }

  ghost predicate Recoverable(s: System, w: nat) {
    Safe(s) && Ready(s, w)
  }

  /** Authorised, the ledger available, every response delivered, and every account either accepted or refused. */
  ghost predicate Undisturbed(script: Script) {
    && script.authorization == Authorised && script.available && script.delivery == Delivered
    && forall account :: script.verdict(account).AccountAccepted? || script.verdict(account).AccountRejected?
  }

  /** The ledger accepts each of the accounts: known ones always, others unless it refuses them now or remembers a refusal. */
  ghost predicate AllAccepted(s: System, accounts: seq<string>, script: Script) {
    forall account | account in accounts :: AccountAnswer(s, account, script.verdict(account)) == AccountAccepted
  }

  /** The ledger takes the journal in this run: all its accounts, and the batch itself. */
  ghost predicate Admits(s: System, script: Script) {
    AllAccepted(s, DistinctAccounts(s.rows.lines), script) && script.admitted && !(s.remembers && s.refused)
  }

  lemma RunTwo(s: System, a: Occurrence, b: Occurrence)
    ensures Run(s, [a, b]) == Next(Next(s, a), b)
  {
    assert [a, b] == [a] + [b];
    RunConcat(s, [a], [b]);
    RunOne(s, a);
    RunOne(Next(s, a), b);
  }

  lemma RunThree(s: System, a: Occurrence, b: Occurrence, c: Occurrence)
    ensures Run(s, [a, b, c]) == Next(Next(Next(s, a), b), c)
  {
    assert [a, b, c] == [a, b] + [c];
    RunConcat(s, [a, b], [c]);
    RunTwo(s, a, b);
    RunOne(Next(Next(s, a), b), c);
  }

  lemma RunOne(s: System, a: Occurrence)
    ensures Run(s, [a]) == Next(s, a)
  {
    assert [a][1..] == [];
    assert Run(s, [a]) == Run(Next(s, a), []);
  }

  lemma StartReaches(s: System, w: nat)
    requires Safe(s) && w < |s.workers| && s.workers[w] == Idle && !Terminal(s.rows.op.status)
    ensures var t := Next(s, Act(w, Start(ReconcileJob)));
      && t == Goto(s, w, Loaded(ReconcileJob)) && Stands(s, t, w, Loaded(ReconcileJob))
  {
    GotoKeeps(s, w, Loaded(ReconcileJob));
    GotoIsOrderly(s, w, Loaded(ReconcileJob));
  }

  lemma AuthorizeReaches(s: System, w: nat)
    requires Safe(s) && w < |s.workers| && s.workers[w] == Loaded(ReconcileJob)
    ensures var t := Next(s, Act(w, Authorize(Authorised)));
      && t == Goto(s, w, Beginning(ReconcileJob)) && Stands(s, t, w, Beginning(ReconcileJob))
  {
    GotoKeeps(s, w, Beginning(ReconcileJob));
    GotoIsOrderly(s, w, Beginning(ReconcileJob));
  }

  lemma BeginStands(s: System, w: nat, routing: Routing, now: Time)
    requires Safe(s) && w < |s.workers| && s.workers[w] == Beginning(ReconcileJob) && !Terminal(s.rows.op.status)
    requires s.rows.op.identity.engine == AUTHORITY && s.rows.op.identity.engineVerified
    ensures var t := Next(s, Act(w, Begin(routing, now)));
      && Stands(s, t, w, Provisioning(true, DistinctAccounts(s.rows.lines))) && t.provisioned == s.provisioned
      && t.rows.op.status in {Submitted, Accepted}
  {
    BeginIsStep(s, w, routing, now);
    BeginReaches(s, w, routing, now);
    assert Safe(BeginStep(s, w, ReconcileJob, routing, now)) by { BeginStepKeeps(s, w, ReconcileJob, routing, now); }
  }

  lemma BeginIsStep(s: System, w: nat, routing: Routing, now: Time)
    requires w < |s.workers| && s.workers[w] == Beginning(ReconcileJob)
    ensures Next(s, Act(w, Begin(routing, now))) == BeginStep(s, w, ReconcileJob, routing, now)
  {
  }

  /** An action that does not fit where the worker stands changes nothing. */
  lemma DeferPasses(s: System, w: nat, now: Time)
    requires w < |s.workers| && s.workers[w] != Deferring
    ensures Next(s, Act(w, Defer(now))) == s
  {
  }

  /** Loading, authorising and beginning a reconcile job marks the operation submitted, or leaves it accepted. */
  lemma OpeningReaches(s: System, w: nat, script: Script)
    requires Recoverable(s, w) && !Terminal(s.rows.op.status) && script.authorization == Authorised
    ensures var t := Run(s, Opening(w, ReconcileJob, script));
      && Stands(s, t, w, Provisioning(true, DistinctAccounts(s.rows.lines))) && t.provisioned == s.provisioned
      && t.rows.op.status in {Submitted, Accepted}
  {
    var a, b := Act(w, Start(ReconcileJob)), Act(w, Authorize(Authorised));
    var c, d := Act(w, Begin(script.routing, script.now)), Act(w, Defer(script.now));
    assert Opening(w, ReconcileJob, script) == [a, b, c] + [d];
    RunConcat(s, [a, b, c], [d]);
    RunThree(s, a, b, c);
    StartReaches(s, w);
    var s1 := Next(s, a);
    AuthorizeReaches(s1, w);
    var s2 := Next(s1, b);
    BeginStands(s2, w, script.routing, script.now);
    var s3 := Next(s2, c);
    RunOne(s3, d);
    DeferPasses(s3, w, script.now);
    StandsTransitive(s, s1, s2, w, Loaded(ReconcileJob), Beginning(ReconcileJob));
    StandsTransitive(s, s2, s3, w, Beginning(ReconcileJob), Provisioning(true, DistinctAccounts(s.rows.lines)));
  }

  lemma BeginReaches(s: System, w: nat, routing: Routing, now: Time)
    requires Safe(s) && w < |s.workers| && s.workers[w] == Beginning(ReconcileJob) && !Terminal(s.rows.op.status)
    requires s.rows.op.identity.engine == AUTHORITY && s.rows.op.identity.engineVerified
    ensures var t := BeginStep(s, w, ReconcileJob, routing, now);
      && t == s.(rows := t.rows, workers := s.workers[w := Provisioning(true, DistinctAccounts(s.rows.lines))])
      && SameIntent(s.rows, t.rows) && t.rows.op.status in {Submitted, Accepted}
      && StatusTransition(s.rows.op.status, t.rows.op.status)
  {
    BeginSubmissionKeeps(s.rows, true, AUTHORITY, routing, now);
  }

  /** An accepted account takes the worker one account further. */
  lemma ProvisionReaches(s: System, w: nat, reconcile: bool, pending: seq<string>, verdict: AccountVerdict)
    requires Safe(s) && w < |s.workers| && s.workers[w] == Provisioning(reconcile, pending)
    requires pending != [] ==> AccountAnswer(s, pending[0], verdict) == AccountAccepted
    ensures var t := Next(s, Act(w, Provision(verdict)));
      && t.rows == s.rows && t.provisioned == s.provisioned + (if pending == [] then {} else {pending[0]})
      && Stands(s, t, w, if pending == [] then Identifying(reconcile) else Provisioning(reconcile, pending[1..]))
  {
    ProvisionIsStep(s, w, verdict);
    ProvisionStepKeeps(s, w, reconcile, pending, verdict);
    StepIsOrderly(s, w, Provision(verdict));
  }

  /** Worker `w` is about to receipt a refusal; the ledger's log is as it was. */
  ghost predicate Refused(s: System, t: System, w: nat) {
    && Safe(t) && t.rows == s.rows && t.log == s.log
    && w < |t.workers| && t.workers[w].Receipting? && t.workers[w].outcome.RejectedOutcome? && t.workers[w].observed == Some(AUTHORITY)
  }

  /** A refused account takes the worker to its receipt. */
  lemma RefusalReaches(s: System, w: nat, reconcile: bool, pending: seq<string>, verdict: AccountVerdict)
    requires Safe(s) && w < |s.workers| && s.workers[w] == Provisioning(reconcile, pending) && pending != []
    requires AccountAnswer(s, pending[0], verdict).AccountRejected?
    ensures Refused(s, Next(s, Act(w, Provision(verdict))), w)
  {
    ProvisionIsStep(s, w, verdict);
    RefusalShape(s, w, reconcile, pending, verdict);
    assert Safe(ProvisionStep(s, w, reconcile, pending, verdict)) by { ProvisionStepKeeps(s, w, reconcile, pending, verdict); }
  }

  lemma RefusalShape(s: System, w: nat, reconcile: bool, pending: seq<string>, verdict: AccountVerdict)
    requires w < |s.workers| && pending != [] && AccountAnswer(s, pending[0], verdict).AccountRejected?
    ensures var t := ProvisionStep(s, w, reconcile, pending, verdict);
      && t.rows == s.rows && t.log == s.log && |t.workers| == |s.workers|
      && t.workers[w].Receipting? && t.workers[w].outcome.RejectedOutcome? && t.workers[w].observed == Some(AUTHORITY)
  {
  }

  /** Nothing but a receipt moves a worker that holds an outcome. */
  lemma WaitingSkips(s: System, w: nat, action: Action)
    requires w < |s.workers| && s.workers[w].Receipting? && !action.Receipt? && !action.Crash?
    ensures Next(s, Act(w, action)) == s
  {
  }

  lemma {:induction false} WaitingSkipsProvisions(s: System, w: nat, accounts: seq<string>, script: Script)
    requires w < |s.workers| && s.workers[w].Receipting?
    ensures Run(s, Provisions(w, accounts, script)) == s
    decreases |accounts|
  {
    var o := Act(w, Provision(if accounts == [] then AccountAccepted else script.verdict(accounts[0])));
    WaitingSkips(s, w, o.action);
    RunOne(s, o);
    if accounts != [] {
      assert Provisions(w, accounts, script) == [o] + Provisions(w, accounts[1..], script);
      RunConcat(s, [o], Provisions(w, accounts[1..], script));
      WaitingSkipsProvisions(s, w, accounts[1..], script);
    }
  }

  /** Accepting one account does not change what the ledger says about the others. */
  lemma AnswersKept(s: System, t: System, accounts: seq<string>, script: Script)
    requires accounts != [] && AccountAnswer(s, accounts[0], script.verdict(accounts[0])) == AccountAccepted
    requires t.provisioned == s.provisioned + {accounts[0]} && t.refusedAccounts == s.refusedAccounts && t.remembers == s.remembers
    ensures AllAccepted(t, accounts[1..], script) <==> AllAccepted(s, accounts, script)
  {
    forall account | account in accounts[1..]
      ensures AccountAnswer(t, account, script.verdict(account)) == AccountAccepted
         <==> AccountAnswer(s, account, script.verdict(account)) == AccountAccepted
    {
    }
    assert forall account | account in accounts :: account == accounts[0] || account in accounts[1..];
  }

  /** Provisioning ends at the identities when every account is accepted, and at the receipt of a refusal otherwise. */
  lemma {:induction false} ProvisionsReach(s: System, w: nat, reconcile: bool, pending: seq<string>, script: Script)
    requires Safe(s) && w < |s.workers| && s.workers[w] == Provisioning(reconcile, pending) && Undisturbed(script)
    ensures var t := Run(s, Provisions(w, pending, script));
      && t.rows == s.rows
      && (if AllAccepted(s, pending, script) then Stands(s, t, w, Identifying(reconcile)) else Refused(s, t, w))
    decreases |pending|
  {
    if pending == [] {
      ProvisionReaches(s, w, reconcile, pending, AccountAccepted);
      RunOne(s, Act(w, Provision(AccountAccepted)));
    } else {
      var o := Act(w, Provision(script.verdict(pending[0])));
      assert Provisions(w, pending, script) == [o] + Provisions(w, pending[1..], script);
      RunConcat(s, [o], Provisions(w, pending[1..], script));
      RunOne(s, o);
      if AccountAnswer(s, pending[0], script.verdict(pending[0])) == AccountAccepted {
        ProvisionReaches(s, w, reconcile, pending, script.verdict(pending[0]));
        LaterProvisionsReach(s, w, reconcile, pending, script);
      } else {
        RefusalReaches(s, w, reconcile, pending, script.verdict(pending[0]));
        WaitingSkipsProvisions(Next(s, o), w, pending[1..], script);
      }
    }
  }

  /** The induction step of `ProvisionsReach`: the first account is accepted. */
  lemma {:induction false} LaterProvisionsReach(s: System, w: nat, reconcile: bool, pending: seq<string>, script: Script)
    requires Safe(s) && w < |s.workers| && s.workers[w] == Provisioning(reconcile, pending) && Undisturbed(script)
    requires pending != [] && AccountAnswer(s, pending[0], script.verdict(pending[0])) == AccountAccepted
    ensures var t := Next(s, Act(w, Provision(script.verdict(pending[0]))));
      var u := Run(t, Provisions(w, pending[1..], script));
      && u.rows == s.rows
      && (if AllAccepted(s, pending, script) then Stands(s, u, w, Identifying(reconcile)) else Refused(s, u, w))
    decreases |pending|, 0
  {
    ProvisionReaches(s, w, reconcile, pending, script.verdict(pending[0]));
    var t := Next(s, Act(w, Provision(script.verdict(pending[0]))));
    ProvisionsReach(t, w, reconcile, pending[1..], script);
    AnswersKept(s, t, pending, script);
    if AllAccepted(s, pending, script) {
      StandsTransitive(s, t, Run(t, Provisions(w, pending[1..], script)), w, Provisioning(reconcile, pending[1..]), Identifying(reconcile));
    }
  }

  lemma IdentifyReaches(s: System, w: nat, reconcile: bool)
    requires Safe(s) && w < |s.workers| && s.workers[w] == Identifying(reconcile)
    ensures var t := IdentifyStep(s, w, reconcile);
      && Stands(s, t, w, if reconcile then LookingUp else Posting) && t.rows.op == s.rows.op && IdsPersisted(t.rows)
  {
    IdentifyStepKeeps(s, w, reconcile);
    IdentifyIsOrderly(s, w, reconcile);
    PersistedIds(s.rows);
    assert Effect(IdentifyStep(s, w, reconcile)) == Effect(s) by { PersistIdentitiesKeeps(s.rows, Expected(s)); }
  }

  lemma LookupReaches(s: System, w: nat)
    requires Safe(s) && w < |s.workers| && s.workers[w] == LookingUp
    ensures var t := LookupStep(s, w, true);
      && t.rows == s.rows
      && (if Effect(s) == [] then Stands(s, t, w, Posting)
          else Stands(s, t, w, Receipting(Accepting(s.rows.op.identity, s.rows.lines, MaxTimestamp(Effect(s))), Some(AUTHORITY))))
  {
    LookupStepKeeps(s, w, true);
    LookupIsTruthful(s, true);
    if Effect(s) != [] {
      TrueAcceptanceMatches(s, ReconcileJournal(s.log, s.rows.op.identity, s.rows.lines, true));
    }
  }

  /** The part of a run up to the ledger's lookup. */
  function Approach(s: System, w: nat, script: Script): seq<Occurrence> {
    Opening(w, ReconcileJob, script) + Provisions(w, DistinctAccounts(s.rows.lines), script)
    + [Act(w, Identify), Act(w, Lookup(true))]
  }

  lemma StandsTransitive(s: System, t: System, u: System, w: nat, x: Worker, y: Worker)
    requires Stands(s, t, w, x) && Stands(t, u, w, y)
    requires s.rows.op.status == t.rows.op.status || t.rows.op.status == u.rows.op.status
    ensures Stands(s, u, w, y)
  {
    assert s.workers[w := x][w := y] == s.workers[w := y];
  }

  /** Opening and provisioning: the identities are next, or the receipt of a refused account. */
  lemma ProvisioningReaches(s: System, w: nat, script: Script)
    requires Recoverable(s, w) && !Terminal(s.rows.op.status) && Undisturbed(script)
    ensures var t := Run(s, Opening(w, ReconcileJob, script) + Provisions(w, DistinctAccounts(s.rows.lines), script));
      && t.rows.op.status in {Submitted, Accepted}
      && (if AllAccepted(s, DistinctAccounts(s.rows.lines), script) then Stands(s, t, w, Identifying(true))
          else Refused(s.(rows := t.rows), t, w) && SameIntent(s.rows, t.rows))
  {
    var accounts := DistinctAccounts(s.rows.lines);
    var opening, provisions := Opening(w, ReconcileJob, script), Provisions(w, accounts, script);
    RunConcat(s, opening, provisions);
    OpeningReaches(s, w, script);
    var s1 := Run(s, opening);
    assert AllAccepted(s1, accounts, script) == AllAccepted(s, accounts, script) by { SameAnswers(s, s1, accounts, script); }
    ProvisionsReach(s1, w, true, accounts, script);
    if AllAccepted(s, accounts, script) {
      StandsTransitive(s, s1, Run(s1, provisions), w, Provisioning(true, accounts), Identifying(true));
    }
  }

  lemma SameAnswers(s: System, t: System, accounts: seq<string>, script: Script)
    requires t.provisioned == s.provisioned && t.refusedAccounts == s.refusedAccounts && t.remembers == s.remembers
    ensures AllAccepted(t, accounts, script) == AllAccepted(s, accounts, script)
  {
    forall account | account in accounts
      ensures AccountAnswer(t, account, script.verdict(account)) == AccountAnswer(s, account, script.verdict(account))
    {
    }
  }

  /** Provisioned accounts are never refused; what was applied has all its accounts. */
  lemma ReadyAreAccepted(s: System, script: Script)
    requires AccountsReady(s) && Undisturbed(script)
    ensures AllAccepted(s, DistinctAccounts(s.rows.lines), script)
  {
    forall account | account in DistinctAccounts(s.rows.lines)
      ensures AccountAnswer(s, account, script.verdict(account)) == AccountAccepted
    {
      var line :| line in s.rows.lines && line.account == account;
      assert account in s.provisioned;
    }
  }

  lemma IdentifyIsStep(s: System, w: nat)
    requires w < |s.workers| && s.workers[w] == Identifying(true)
    ensures Next(s, Act(w, Identify)) == IdentifyStep(s, w, true)
  {
  }

  lemma LookupIsStep(s: System, w: nat)
    requires w < |s.workers| && s.workers[w] == LookingUp
    ensures Next(s, Act(w, Lookup(true))) == LookupStep(s, w, true)
  {
  }

  lemma ApproachReaches(s: System, w: nat, script: Script)
    requires Recoverable(s, w) && !Terminal(s.rows.op.status) && Undisturbed(script)
    requires AllAccepted(s, DistinctAccounts(s.rows.lines), script)
    ensures var t := Run(s, Approach(s, w, script));
      && t.rows.op.status in {Submitted, Accepted} && IdsPersisted(t.rows)
      && (if Effect(s) == [] then Stands(s, t, w, Posting)
          else Stands(s, t, w, Receipting(Accepting(s.rows.op.identity, s.rows.lines, MaxTimestamp(Effect(s))), Some(AUTHORITY))))
  {
    var first := Opening(w, ReconcileJob, script) + Provisions(w, DistinctAccounts(s.rows.lines), script);
    RunConcat(s, first, [Act(w, Identify), Act(w, Lookup(true))]);
    ProvisioningReaches(s, w, script);
    var s2 := Run(s, first);
    RunTwo(s2, Act(w, Identify), Act(w, Lookup(true)));
    IdentifyIsStep(s2, w);
    IdentifyReaches(s2, w, true);
    var s3 := IdentifyStep(s2, w, true);
    StandsTransitive(s, s2, s3, w, Identifying(true), LookingUp);
    LookupIsStep(s3, w);
    LookupReaches(s3, w);
    var s4 := LookupStep(s3, w, true);
    StandsTransitive(s, s3, s4, w, LookingUp, s4.workers[w]);
  }

  // ----- settling

  lemma PostReaches(s: System, w: nat, admitted: bool, reason: RejectionReason, clock: Time)
    requires Safe(s) && w < |s.workers| && s.workers[w] == Posting && Effect(s) == []
    ensures var t := PostStep(s, w, Delivered, admitted, reason, clock);
      && Safe(t) && t.rows == s.rows
      && (if admitted && !(s.remembers && s.refused)
          then Effect(t) != [] && t.workers == s.workers[w := Receipting(
                 Accepting(s.rows.op.identity, s.rows.lines, MaxTimestamp(Effect(t))), Some(AUTHORITY))]
          else t.log == s.log && t.workers == s.workers[w := Receipting(
                 RejectedOutcome(s.rows.op.identity.operationId, reason), Some(AUTHORITY))])
  {
    var admits := admitted && !(s.remembers && s.refused);
    var t := PostStep(s, w, Delivered, admitted, reason, clock);
    assert Safe(t) by { PostStepKeeps(s, w, Delivered, admitted, reason, clock); }
    PostIsTruthful(s, Delivered, admits, reason, clock);
    if admits {
      AppendedBatchIsEffect(s, clock);
      TrueAcceptanceMatches(t, PostJournal(s.log, s.rows.op.identity, s.rows.lines, Delivered, admits, reason, clock).outcome);
    }
  }

  lemma AcceptedReceiptReaches(s: System, w: nat, outcome: Outcome, now: Time)
    requires Safe(s) && w < |s.workers| && s.workers[w] == Receipting(outcome, Some(AUTHORITY))
    requires TrueAcceptance(s, outcome) && s.rows.op.status in {Submitted, Accepted}
    ensures var t := ReceiptStep(s, w, outcome, Some(AUTHORITY), now);
      && Safe(t) && t.log == s.log && SameIntent(s.rows, t.rows) && t.rows.op.status == Accepted
      && t.workers == s.workers[w := Finalizing]
  {
    assert Safe(ReceiptStep(s, w, outcome, Some(AUTHORITY), now)) by {
      ReceiptStepKeeps(s, w, outcome, Some(AUTHORITY), now);
    }
    TrueAcceptanceMatches(s, outcome);
    ReceiptFollowsStatusGraph(s.rows, outcome, Some(AUTHORITY), now);
    AcceptanceCommits(s.rows, outcome, now);
  }

  lemma AcceptanceCommits(rows: Rows, outcome: Outcome, now: Time)
    requires Consistent(rows) && IdsAgree(rows) && rows.op.status in {Submitted, Accepted} && outcome.AcceptedOutcome?
    requires outcome.operationId == rows.op.identity.operationId && MappingMatches(rows, outcome)
    requires outcome.transferIds == ExpectedIds(rows.op.identity, rows.lines)
    ensures WriteReceipt(rows, outcome, Some(AUTHORITY), now).Success?
    ensures WriteReceipt(rows, outcome, Some(AUTHORITY), now).value.op.status == Accepted
  {
    assert TransfersUpdateAllowed(rows.transfers, WithIds(rows.transfers, outcome.transferIds));
  }

  lemma RejectedReceiptReaches(s: System, w: nat, outcome: Outcome, now: Time)
    requires Safe(s) && w < |s.workers| && s.workers[w] == Receipting(outcome, Some(AUTHORITY))
    requires outcome.RejectedOutcome? && s.rows.op.status == Submitted
    ensures var t := ReceiptStep(s, w, outcome, Some(AUTHORITY), now);
      && Safe(t) && t.log == s.log && SameIntent(s.rows, t.rows) && t.rows.op.status == Rejected
      && t.workers == s.workers[w := Idle]
  {
    ReceiptStepKeeps(s, w, outcome, Some(AUTHORITY), now);
    RejectionCommits(s.rows, outcome, now);
  }

  lemma RejectionCommits(rows: Rows, outcome: Outcome, now: Time)
    requires Consistent(rows) && rows.op.status == Submitted && outcome.RejectedOutcome?
    requires outcome.operationId == rows.op.identity.operationId
    ensures WriteReceipt(rows, outcome, Some(AUTHORITY), now).Success?
    ensures WriteReceipt(rows, outcome, Some(AUTHORITY), now).value.op.status == Rejected
    ensures SameIntent(rows, WriteReceipt(rows, outcome, Some(AUTHORITY), now).value)
  {
    assert TransfersUpdateAllowed(rows.transfers, WithStatus(rows.transfers, RowRejected));
  }

  lemma FinalizeReaches(s: System, w: nat, now: Time)
    requires Safe(s) && w < |s.workers| && s.workers[w] == Finalizing && s.rows.op.status == Accepted
    ensures var t := Commit(s, w, FinalizeAccepted(s.rows, now), Idle);
      && Safe(t) && t.log == s.log && SameIntent(s.rows, t.rows) && t.rows.op.status == Reconciled
  {
    FinalizeStepKeeps(s, w, now);
    FinalizeCommitsIffDraft(s.rows, now);
    FinalizeAcceptedKeeps(s.rows, now);
  }

  lemma PostIsStep(s: System, w: nat, admitted: bool, reason: RejectionReason, clock: Time)
    requires w < |s.workers|
    ensures Next(s, Act(w, Post(Delivered, admitted, reason, clock)))
         == if s.workers[w] == Posting then PostStep(s, w, Delivered, admitted, reason, clock) else s
  {
  }

  lemma ReceiptIsStep(s: System, w: nat, outcome: Outcome, observed: Option<Engine>, now: Time)
    requires w < |s.workers| && s.workers[w] == Receipting(outcome, observed)
    ensures Next(s, Act(w, Receipt(now))) == ReceiptStep(s, w, outcome, observed, now)
  {
  }

  lemma FinalizeIsStep(s: System, w: nat, now: Time)
    requires w < |s.workers|
    ensures Next(s, Act(w, Finalize(now)))
         == if s.workers[w] == Finalizing then Commit(s, w, FinalizeAccepted(s.rows, now), Idle) else s
  {
  }

  /** Receipt and finalisation of an acceptance. */
  lemma AcceptanceSettles(s: System, w: nat, outcome: Outcome, now: Time)
    requires Safe(s) && w < |s.workers| && s.workers[w] == Receipting(outcome, Some(AUTHORITY))
    requires TrueAcceptance(s, outcome) && s.rows.op.status in {Submitted, Accepted}
    ensures var t := Next(Next(s, Act(w, Receipt(now))), Act(w, Finalize(now)));
      Safe(t) && t.log == s.log && SameIntent(s.rows, t.rows) && t.rows.op.status == Reconciled
  {
    AcceptedReceiptReaches(s, w, outcome, now);
    ReceiptIsStep(s, w, outcome, Some(AUTHORITY), now);
    var t := ReceiptStep(s, w, outcome, Some(AUTHORITY), now);
    FinalizeReaches(t, w, now);
    FinalizeIsStep(t, w, now);
  }

  lemma RejectionSettles(s: System, w: nat, outcome: Outcome, now: Time)
    requires Safe(s) && w < |s.workers| && s.workers[w] == Receipting(outcome, Some(AUTHORITY))
    requires outcome.RejectedOutcome? && s.rows.op.status == Submitted
    ensures var t := Next(Next(s, Act(w, Receipt(now))), Act(w, Finalize(now)));
      Safe(t) && t.log == s.log && SameIntent(s.rows, t.rows) && t.rows.op.status == Rejected
  {
    RejectedReceiptReaches(s, w, outcome, now);
    ReceiptIsStep(s, w, outcome, Some(AUTHORITY), now);
    FinalizeIsStep(ReceiptStep(s, w, outcome, Some(AUTHORITY), now), w, now);
  }

  /** The closing steps, from either standing place of the approach. */
  lemma SettleReaches(s: System, w: nat, admitted: bool, reason: RejectionReason, now: Time)
    requires Safe(s) && w < |s.workers| && s.rows.op.status in {Submitted, Accepted}
    requires if Effect(s) == [] then s.workers[w] == Posting
             else s.workers[w] == Receipting(Accepting(s.rows.op.identity, s.rows.lines, MaxTimestamp(Effect(s))), Some(AUTHORITY))
    ensures var t := Run(s, [Act(w, Post(Delivered, admitted, reason, now)), Act(w, Receipt(now)), Act(w, Finalize(now))]);
      && Safe(t) && SameIntent(s.rows, t.rows)
      && (Effect(s) != [] ==> Effect(t) == Effect(s))
      && (Effect(s) != [] || (admitted && !(s.remembers && s.refused)) ==> t.rows.op.status == Reconciled)
      && (Effect(s) == [] && !(admitted && !(s.remembers && s.refused)) ==> t.rows.op.status == Rejected && Effect(t) == [])
  {
    RunThree(s, Act(w, Post(Delivered, admitted, reason, now)), Act(w, Receipt(now)), Act(w, Finalize(now)));
    PostIsStep(s, w, admitted, reason, now);
    var s1 := if s.workers[w] == Posting then PostStep(s, w, Delivered, admitted, reason, now) else s;
    if Effect(s) == [] { PostReaches(s, w, admitted, reason, now); }
    var outcome := s1.workers[w].outcome;
    if outcome.AcceptedOutcome? {
      AcceptanceSettles(s1, w, outcome, now);
    } else {
      RejectionSettles(s1, w, outcome, now);
    }
  }

  function Settle(w: nat, script: Script): seq<Occurrence> {
    [Act(w, Post(Delivered, script.admitted, script.reason, script.now)), Act(w, Receipt(script.now)), Act(w, Finalize(script.now))]
  }

  lemma ScriptIsApproachThenSettle(s: System, w: nat, script: Script)
    requires script.available && script.delivery == Delivered
    ensures SubmitScript(s, w, ReconcileJob, script) == Approach(s, w, script) + Settle(w, script)
  {
  }

  /** With a refused account, identities, lookup and post are passed over and the refusal is written. */
  lemma RefusalSettles(s: System, w: nat, script: Script)
    requires Safe(s) && w < |s.workers| && s.workers[w].Receipting? && s.workers[w].outcome.RejectedOutcome?
    requires s.workers[w].observed == Some(AUTHORITY) && s.rows.op.status == Submitted
    ensures var t := Run(s, [Act(w, Identify), Act(w, Lookup(true))] + Settle(w, script));
      Safe(t) && t.log == s.log && SameIntent(s.rows, t.rows) && t.rows.op.status == Rejected
  {
    var post := Act(w, Post(Delivered, script.admitted, script.reason, script.now));
    RunConcat(s, [Act(w, Identify), Act(w, Lookup(true))], Settle(w, script));
    RunTwo(s, Act(w, Identify), Act(w, Lookup(true)));
    RunThree(s, post, Act(w, Receipt(script.now)), Act(w, Finalize(script.now)));
    WaitingSkips(s, w, Identify);
    WaitingSkips(s, w, Lookup(true));
    WaitingSkips(s, w, post.action);
    RejectionSettles(s, w, s.workers[w].outcome, script.now);
  }

  /** The whole run when some account is refused. */
  lemma RefusedAccountSettles(s: System, w: nat, script: Script)
    requires Recoverable(s, w) && !Terminal(s.rows.op.status) && Undisturbed(script)
    requires !AllAccepted(s, DistinctAccounts(s.rows.lines), script)
    ensures var t := Run(s, SubmitScript(s, w, ReconcileJob, script));
      Safe(t) && t.log == s.log && SameIntent(s.rows, t.rows) && t.rows.op.status == Rejected && Effect(s) == []
  {
    var first := Opening(w, ReconcileJob, script) + Provisions(w, DistinctAccounts(s.rows.lines), script);
    var rest := [Act(w, Identify), Act(w, Lookup(true))] + Settle(w, script);
    ScriptIsApproachThenSettle(s, w, script);
    assert SubmitScript(s, w, ReconcileJob, script) == first + rest;
    RunConcat(s, first, rest);
    ProvisioningReaches(s, w, script);
    if Effect(s) != [] { ReadyAreAccepted(s, script); }
    var t := Run(s, first);
    assert Effect(t) == Effect(s);
    RefusalSettles(t, w, script);
  }

  /**
   From every reachable state that is not final, one uninterrupted reconcile run settles the operation: it ends
   reconciled when the ledger has applied it or admits its accounts and its batch now, and rejected otherwise.
   What was applied stays as it was, so the same transfer identities are used, and manual recovery is never entered.
   */
  lemma RecoverySettles(initial: System, past: seq<Occurrence>, w: nat, script: Script)
    requires Initial(initial) && Ready(Run(initial, past), w) && !Terminal(Run(initial, past).rows.op.status)
    requires Undisturbed(script)
    ensures var s := Run(initial, past);
      var t := Run(s, SubmitScript(s, w, ReconcileJob, script));
      && (t.rows.op.status == if Effect(s) != [] || Admits(s, script) then Reconciled else Rejected)
      && (Effect(s) != [] ==> Effect(t) == Effect(s))
      && (t.rows.op.status == Rejected ==> Effect(t) == [])
      && Consistent(t.rows) && IdsAgree(t.rows)
  {
    var s := Run(initial, past);
    InitialIsSafe(initial);
    RunIsSafe(initial, past);
    RecoverySettlesFrom(s, w, script);
  }

  lemma RecoverySettlesFrom(s: System, w: nat, script: Script)
    requires Recoverable(s, w) && !Terminal(s.rows.op.status) && Undisturbed(script)
    ensures var t := Run(s, SubmitScript(s, w, ReconcileJob, script));
      && Safe(t) && SameIntent(s.rows, t.rows)
      && (t.rows.op.status == if Effect(s) != [] || Admits(s, script) then Reconciled else Rejected)
      && (Effect(s) != [] ==> Effect(t) == Effect(s))
      && (t.rows.op.status == Rejected ==> Effect(t) == [])
  {
    if AllAccepted(s, DistinctAccounts(s.rows.lines), script) {
      ScriptIsApproachThenSettle(s, w, script);
      ApproachReaches(s, w, script);
      RunConcat(s, Approach(s, w, script), Settle(w, script));
      SettleReaches(Run(s, Approach(s, w, script)), w, script.admitted, script.reason, script.now);
    } else {
      RefusedAccountSettles(s, w, script);
    }
  }
}
