/**
 The protocol's promises over every run: posted at most once, rejected only when not posted, and final states
 that stay final.
 */
module ProtocolTheorems {
  import opened Wrappers
  import opened Pairing
  import opened PairingLaws
  import opened JournalValidation
  import opened OperationRecords
  import opened OperationTransactions
  import opened OperationInvariant
  import opened ExternalLedger
  import opened Protocol
  import opened ProtocolSafety

  // ----- the intent never changes and the status follows the trigger's graph

  ghost predicate Follows(before: Rows, after: Committed) {
    after.Success? ==> SameIntent(before, after.value) && StatusTransition(before.op.status, after.value.op.status)
  }

  lemma TransactionsFollow(rows: Rows, now: Time)
    ensures Follows(rows, FinalizeAccepted(rows, now)) && Follows(rows, Quarantine(rows)) && Follows(rows, DeferBlocked(rows, now))
    ensures forall expected :: Follows(rows, PersistIdentities(rows, expected).0)
  {
  }

  lemma BeginFollows(rows: Rows, reconcile: bool, authority: Engine, routing: Routing, now: Time)
    ensures Follows(rows, BeginSubmission(rows, reconcile, authority, routing, now).0)
  {
  }

  lemma RebuildFollows(rows: Rows, outcome: Outcome, now: Time)
    requires outcome.AcceptedOutcome? && |outcome.transferIds| == |PairsOf(rows.lines)|
    ensures Follows(rows, RebuildAccepted(rows, outcome, now))
  {
  }

  /** What every step leaves alone, and how it may move the status. */
  ghost predicate OrderlyStep(s: System, t: System) {
    && SameIntent(s.rows, t.rows) && StatusTransition(s.rows.op.status, t.rows.op.status)
    && t.remembers == s.remembers && |t.workers| == |s.workers|
  }

  lemma CommitIsOrderly(s: System, w: nat, committed: Committed, next: Worker)
    requires w < |s.workers| && Follows(s.rows, committed)
    ensures OrderlyStep(s, Commit(s, w, committed, next))
  {
  }

  lemma GotoIsOrderly(s: System, w: nat, next: Worker)
    requires w < |s.workers|
    ensures OrderlyStep(s, Goto(s, w, next))
  {
  }

  lemma BeginIsOrderly(s: System, w: nat, job: Job, routing: Routing, now: Time)
    requires w < |s.workers| && s.workers[w] == Beginning(job)
    ensures OrderlyStep(s, BeginStep(s, w, job, routing, now))
  {
    BeginFollows(s.rows, job == ReconcileJob, AUTHORITY, routing, now);
    var (committed, decision) := BeginSubmission(s.rows, job == ReconcileJob, AUTHORITY, routing, now);
    match decision
    case Proceed(reconcile) => CommitIsOrderly(s, w, committed, Provisioning(reconcile, DistinctAccounts(s.rows.lines)));
    case RoutingChanged(observed) => GotoIsOrderly(s, w, Failing(s, EngineRoutingChanged, observed));
    case AlreadyTerminal => GotoIsOrderly(s, w, Idle);
    case Blocked => GotoIsOrderly(s, w, Deferring);
  }

  lemma IdentifyIsOrderly(s: System, w: nat, reconcile: bool)
    requires w < |s.workers| && s.workers[w] == Identifying(reconcile)
    ensures OrderlyStep(s, IdentifyStep(s, w, reconcile))
  {
    TransactionsFollow(s.rows, 0);
    var (committed, persisted) := PersistIdentities(s.rows, Expected(s));
    if persisted {
      CommitIsOrderly(s, w, committed, if reconcile then LookingUp else Posting);
    } else {
      GotoIsOrderly(s, w, Failing(s, MappingMismatch, Some(AUTHORITY)));
    }
  }

  lemma RebuildCommitIsOrderly(s: System, w: nat, outcome: Outcome, now: Time)
    requires w < |s.workers|
    ensures OrderlyStep(s, RebuildCommitStep(s, w, outcome, now))
  {
    GotoIsOrderly(s, w, Quarantining);
    if outcome.AcceptedOutcome? && |outcome.transferIds| == |PairsOf(s.rows.lines)| {
      RebuildFollows(s.rows, outcome, now);
      CommitIsOrderly(s, w, RebuildAccepted(s.rows, outcome, now), Idle);
    }
  }

  lemma ReceiptIsOrderly(s: System, w: nat, outcome: Outcome, observed: Option<Engine>, now: Time)
    requires w < |s.workers|
    ensures OrderlyStep(s, ReceiptStep(s, w, outcome, observed, now))
  {
    ReceiptFollowsStatusGraph(s.rows, outcome, observed, now);
    CommitIsOrderly(s, w, WriteReceipt(s.rows, outcome, observed, now), Finalizing);
    CommitIsOrderly(s, w, WriteReceipt(s.rows, outcome, observed, now), Idle);
  }

  /** A worker whose next step touches no rows. */
  predicate Moving(worker: Worker) {
    worker.Idle? || worker.Loaded? || worker.Provisioning? || worker.LookingUp? || worker.Posting?
  }

  lemma MovesAreOrderly(s: System, w: nat, action: Action)
    requires w < |s.workers| && Moving(s.workers[w])
    ensures OrderlyStep(s, SubmissionStep(s, w, action))
  {
  }

  lemma TransactionsAreOrderly(s: System, w: nat, action: Action)
    requires w < |s.workers| && !Moving(s.workers[w])
    ensures OrderlyStep(s, SubmissionStep(s, w, action))
  {
    match (s.workers[w], action)
    case (Beginning(job), Begin(routing, now)) => BeginIsOrderly(s, w, job, routing, now);
    case (Deferring, Defer(now)) => TransactionsFollow(s.rows, now); CommitIsOrderly(s, w, DeferBlocked(s.rows, now), Idle);
    case (Identifying(reconcile), Identify) => IdentifyIsOrderly(s, w, reconcile);
    case (Receipting(outcome, observed), Receipt(now)) => ReceiptIsOrderly(s, w, outcome, observed, now);
    case (Finalizing, Finalize(now)) => TransactionsFollow(s.rows, now); CommitIsOrderly(s, w, FinalizeAccepted(s.rows, now), Idle);
    case _ =>
  }

  lemma RebuildMovesAreOrderly(s: System, w: nat, action: Action)
    requires w < |s.workers| && !s.workers[w].RebuildCommitting? && !s.workers[w].Quarantining?
    ensures OrderlyStep(s, RebuildStep(s, w, action))
  {
    match (s.workers[w], action)
    case (Idle, StartRebuild) => GotoIsOrderly(s, w, RebuildLookingUp);
    case (RebuildLookingUp, RebuildLookup(available)) => GotoIsOrderly(s, w, RebuildLookupStep(s, w, available).workers[w]);
    case (RebuildChecking(outcome), RebuildCheck) => GotoIsOrderly(s, w, RebuildCheckStep(s, w, outcome).workers[w]);
    case _ =>
  }

  lemma RebuildIsOrderly(s: System, w: nat, action: Action)
    requires w < |s.workers|
    ensures OrderlyStep(s, RebuildStep(s, w, action))
  {
    if s.workers[w].RebuildCommitting? && action.RebuildCommit? {
      RebuildCommitIsOrderly(s, w, s.workers[w].outcome, action.now);
    } else if s.workers[w].Quarantining? && action.FenceProjection? {
      QuarantineIsOrderly(s, w);
    } else if !s.workers[w].RebuildCommitting? && !s.workers[w].Quarantining? {
      RebuildMovesAreOrderly(s, w, action);
    }
  }

  lemma QuarantineIsOrderly(s: System, w: nat)
    requires w < |s.workers|
    ensures OrderlyStep(s, Commit(s, w, Quarantine(s.rows), Idle))
  {
    TransactionsFollow(s.rows, 0);
    CommitIsOrderly(s, w, Quarantine(s.rows), Idle);
  }

  lemma StepIsOrderly(s: System, w: nat, action: Action)
    requires w < |s.workers|
    ensures OrderlyStep(s, Step(s, w, action))
  {
    GotoIsOrderly(s, w, Idle);
    RebuildIsOrderly(s, w, action);
    if Moving(s.workers[w]) { MovesAreOrderly(s, w, action); } else { TransactionsAreOrderly(s, w, action); }
  }

  lemma ReceiptFollowsStatusGraph(rows: Rows, outcome: Outcome, observed: Option<Engine>, now: Time)
    ensures Follows(rows, WriteReceipt(rows, outcome, observed, now))
  {
  }

  lemma NextIsOrderly(s: System, o: Occurrence)
    ensures OrderlyStep(s, Next(s, o))
  {
    if o.Act? && o.worker < |s.workers| { StepIsOrderly(s, o.worker, o.action); }
  }

  /**
   Whatever workers, crashes and rebuilds do: a rejected or fenced operation keeps its status for ever, and a
   reconciled one can only be fenced.
   */
  lemma {:induction false} FinalStatesAbsorb(s: System, occurrences: seq<Occurrence>)
    ensures SameIntent(s.rows, Run(s, occurrences).rows)
    ensures s.rows.op.status in {Rejected, ManualRecovery} ==> Run(s, occurrences).rows.op.status == s.rows.op.status
    ensures s.rows.op.status == Reconciled ==> Run(s, occurrences).rows.op.status in {Reconciled, ManualRecovery}
    decreases |occurrences|
  {
    if occurrences != [] {
      NextIsOrderly(s, occurrences[0]);
      FinalStatesAbsorb(Next(s, occurrences[0]), occurrences[1..]);
    }
  }

  // ----- posted at most once

  function DebitedInLedger(account: string, transfers: seq<LedgerTransfer>): nat {
    if transfers == [] then 0
    else (if transfers[0].debit == account then transfers[0].amount else 0) + DebitedInLedger(account, transfers[1..])
  }

  function CreditedInLedger(account: string, transfers: seq<LedgerTransfer>): nat {
    if transfers == [] then 0
    else (if transfers[0].credit == account then transfers[0].amount else 0) + CreditedInLedger(account, transfers[1..])
  }

  lemma {:induction false} TransfersMovePairs(account: string, transfers: seq<LedgerTransfer>, pairs: seq<Pair<string>>)
    requires |transfers| == |pairs|
    requires forall i | 0 <= i < |pairs| ::
      transfers[i].debit == pairs[i].debit && transfers[i].credit == pairs[i].credit && transfers[i].amount == pairs[i].amount
    ensures DebitedInLedger(account, transfers) == DebitedTo(account, pairs)
    ensures CreditedInLedger(account, transfers) == CreditedTo(account, pairs)
  {
    if pairs != [] { TransfersMovePairs(account, transfers[1..], pairs[1..]); }
  }

  /** What an operation does to an account's balance in the ledger: nothing, or exactly its journal lines. */
  lemma EffectIsLinesOnce(log: seq<LedgerTransfer>, identity: Identity, lines: seq<Line>, account: string)
    requires WellFormed(lines) && AppliedAtMostOnce(log, identity, lines)
    ensures var effect := Applied(log, identity);
      || (effect == [] && DebitedInLedger(account, effect) == 0 && CreditedInLedger(account, effect) == 0)
      || (DebitedInLedger(account, effect) == LineDebit(account, lines)
          && CreditedInLedger(account, effect) == LineCredit(account, lines))
  {
    var effect := Applied(log, identity);
    if effect != [] {
      var clock :| effect == Batch(identity, lines, clock);
      TransfersMovePairs(account, effect, PairsOf(lines));
      BalancedJournalKeepsAccounts(lines, account);
    }
  }

  /**
   Over every interleaving of workers, crashes, lost responses and rebuilds, the ledger's effect of the
   operation is nothing or exactly its journal once; an accepted or reconciled operation has been applied.
   */
  lemma PostedAtMostOnce(s: System, occurrences: seq<Occurrence>, account: string)
    requires Initial(s)
    ensures var t := Run(s, occurrences);
      var effect := Applied(t.log, s.rows.op.identity);
      && Consistent(t.rows)
      && AppliedAtMostOnce(t.log, s.rows.op.identity, s.rows.lines)
      && (effect != [] ==> DebitedInLedger(account, effect) == LineDebit(account, s.rows.lines)
                           && CreditedInLedger(account, effect) == LineCredit(account, s.rows.lines))
      && (t.rows.op.status in {Accepted, Reconciled} ==> effect != [])
  {
    InitialIsSafe(s);
    RunIsSafe(s, occurrences);
    FinalStatesAbsorb(s, occurrences);
    var t := Run(s, occurrences);
    EffectIsLinesOnce(t.log, s.rows.op.identity, s.rows.lines, account);
    if Effect(t) != [] {
      var clock :| Effect(t) == Batch(s.rows.op.identity, s.rows.lines, clock);
      TransfersMovePairs(account, Effect(t), PairsOf(s.rows.lines));
      BalancedJournalKeepsAccounts(s.rows.lines, account);
    }
  }

  // ----- a rejection means nothing was posted

  /** The ledger has refused the journal, or refuses one of its accounts. */
  ghost predicate RefusedByLedger(s: System) {
    s.refused || exists line :: line in s.rows.lines && line.account in s.refusedAccounts
  }

  ghost predicate Rejecting(worker: Worker) {
    worker.Receipting? && worker.outcome.RejectedOutcome?
  }

  /** With a ledger that remembers: refusals and effects exclude each other, and every rejection is a refusal. */
  ghost predicate RefusalsHold(s: System) {
    && s.provisioned !! s.refusedAccounts
    && (Effect(s) != [] ==> !s.refused)
    && (s.rows.op.status == Rejected ==> RefusedByLedger(s))
    && forall w | 0 <= w < |s.workers| && Rejecting(s.workers[w]) :: RefusedByLedger(s)
  }

  lemma RefusedMeansNotApplied(s: System)
    requires Safe(s) && RefusalsHold(s) && RefusedByLedger(s)
    ensures Effect(s) == []
  {
  }

  /** The pending accounts of a worker are accounts of the journal. */
  ghost predicate PendingAreOurs(s: System) {
    forall w | 0 <= w < |s.workers| && s.workers[w].Provisioning? ::
      forall account | account in s.workers[w].pending :: exists line :: line in s.rows.lines && line.account == account
  }

  ghost predicate Memorious(s: System) {
    Safe(s) && RefusalsHold(s) && PendingAreOurs(s) && s.remembers
  }

  /** A step that does not touch the ledger keeps the refusals, if a new rejection is a refusal. */
  lemma RowsKeepRefusals(s: System, t: System, w: nat, next: Worker)
    requires RefusalsHold(s) && PendingAreOurs(s) && w < |s.workers| && SameIntent(s.rows, t.rows)
    requires t == s.(rows := t.rows, workers := s.workers[w := next])
    requires Rejecting(next) || t.rows.op.status == Rejected ==> RefusedByLedger(s)
    requires next.Provisioning? ==>
      forall account | account in next.pending :: exists line :: line in s.rows.lines && line.account == account
    ensures RefusalsHold(t) && PendingAreOurs(t)
  {
    assert RefusedByLedger(s) ==> RefusedByLedger(t);
    assert Effect(t) == Effect(s);
  }

  lemma ProvisionKeepsRefusals(s: System, w: nat, reconcile: bool, pending: seq<string>, verdict: AccountVerdict)
    requires Memorious(s) && w < |s.workers| && s.workers[w] == Provisioning(reconcile, pending)
    ensures RefusalsHold(ProvisionStep(s, w, reconcile, pending, verdict))
    ensures PendingAreOurs(ProvisionStep(s, w, reconcile, pending, verdict))
  {
    var t := ProvisionStep(s, w, reconcile, pending, verdict);
    if pending != [] {
      var account := pending[0];
      assert account in s.workers[w].pending;
      match AccountAnswer(s, account, verdict)
      case AccountAccepted =>
        assert account !in s.refusedAccounts;
        assert forall later | later in pending[1..] :: later in s.workers[w].pending;
      case AccountRejected(_) =>
        assert account !in s.provisioned;
        assert RefusedByLedger(t);
      case AccountUnknown(_) =>
      case AccountManual(_) =>
    }
  }

  lemma PostKeepsRefusals(s: System, w: nat, delivery: Delivery, admitted: bool, reason: RejectionReason, clock: Time)
    requires Memorious(s) && w < |s.workers| && s.workers[w] == Posting
    ensures RefusalsHold(PostStep(s, w, delivery, admitted, reason, clock))
    ensures PendingAreOurs(PostStep(s, w, delivery, admitted, reason, clock))
  {
    var admits := admitted && !s.refused;
    var t := PostStep(s, w, delivery, admitted, reason, clock);
    PostIsTruthful(s, delivery, admits, reason, clock);
    LookupFindsApplied(s.log, s.rows.op.identity, s.rows.lines);
    if delivery != LostRequest && admits && Effect(s) == [] {
      AppendedBatchIsEffect(s, clock);
      assert !s.refused && !t.refused;
    }
    assert RefusedByLedger(s) ==> RefusedByLedger(t);
    assert Rejecting(t.workers[w]) ==> t.refused;
  }

  /** A step that changes only rows and the worker, and starts no rejection of its own. */
  ghost predicate PlainMove(s: System, t: System, w: nat)
    requires w < |s.workers| && |t.workers| == |s.workers|
  {
    && t == s.(rows := t.rows, workers := s.workers[w := t.workers[w]])
    && SameIntent(s.rows, t.rows)
    && (Rejecting(t.workers[w]) || t.rows.op.status == Rejected ==> Rejecting(s.workers[w]) || s.rows.op.status == Rejected)
    && (t.workers[w].Provisioning? ==>
          t.workers[w] == s.workers[w] || t.workers[w].pending == DistinctAccounts(s.rows.lines))
  }

  ghost predicate NeverRejects(before: Rows, after: Committed) {
    Follows(before, after) && (after.Success? && after.value.op.status == Rejected ==> before.op.status == Rejected)
  }

  lemma CommitIsPlain(s: System, w: nat, committed: Committed, next: Worker)
    requires w < |s.workers| && NeverRejects(s.rows, committed) && !Rejecting(next)
    requires next.Provisioning? ==> next.pending == DistinctAccounts(s.rows.lines)
    ensures PlainMove(s, Commit(s, w, committed, next), w)
  {
  }

  lemma GotoIsPlain(s: System, w: nat, next: Worker)
    requires w < |s.workers| && (Rejecting(next) ==> Rejecting(s.workers[w])) && !next.Provisioning?
    ensures PlainMove(s, Goto(s, w, next), w)
  {
  }

  lemma NothingElseRejects(rows: Rows, now: Time)
    ensures NeverRejects(rows, FinalizeAccepted(rows, now)) && NeverRejects(rows, Quarantine(rows))
    ensures NeverRejects(rows, DeferBlocked(rows, now))
    ensures forall expected :: NeverRejects(rows, PersistIdentities(rows, expected).0)
  {
  }

  lemma BeginNeverRejects(rows: Rows, reconcile: bool, authority: Engine, routing: Routing, now: Time)
    ensures NeverRejects(rows, BeginSubmission(rows, reconcile, authority, routing, now).0)
  {
  }

  lemma RebuildNeverRejects(rows: Rows, outcome: Outcome, now: Time)
    requires outcome.AcceptedOutcome? && |outcome.transferIds| == |PairsOf(rows.lines)|
    ensures NeverRejects(rows, RebuildAccepted(rows, outcome, now))
  {
  }

  lemma ReceiptIsPlain(s: System, w: nat, outcome: Outcome, observed: Option<Engine>, now: Time)
    requires w < |s.workers| && s.workers[w] == Receipting(outcome, observed)
    ensures PlainMove(s, ReceiptStep(s, w, outcome, observed, now), w)
  {
    ReceiptFollowsStatusGraph(s.rows, outcome, observed, now);
    var committed := WriteReceipt(s.rows, outcome, observed, now);
    if !outcome.RejectedOutcome? {
      ReceiptRejectsOnlyRejections(s.rows, outcome, observed, now);
      CommitIsPlain(s, w, committed, Idle);
      CommitIsPlain(s, w, committed, Finalizing);
    }
  }

  lemma ReceiptRejectsOnlyRejections(rows: Rows, outcome: Outcome, observed: Option<Engine>, now: Time)
    requires !outcome.RejectedOutcome?
    ensures NeverRejects(rows, WriteReceipt(rows, outcome, observed, now))
  {
  }

  lemma BeginIsPlain(s: System, w: nat, job: Job, routing: Routing, now: Time)
    requires w < |s.workers| && s.workers[w] == Beginning(job)
    ensures PlainMove(s, BeginStep(s, w, job, routing, now), w)
  {
    BeginNeverRejects(s.rows, job == ReconcileJob, AUTHORITY, routing, now);
    var (committed, decision) := BeginSubmission(s.rows, job == ReconcileJob, AUTHORITY, routing, now);
    match decision
    case Proceed(reconcile) => CommitIsPlain(s, w, committed, Provisioning(reconcile, DistinctAccounts(s.rows.lines)));
    case RoutingChanged(observed) => GotoIsPlain(s, w, Failing(s, EngineRoutingChanged, observed));
    case AlreadyTerminal => GotoIsPlain(s, w, Idle);
    case Blocked => GotoIsPlain(s, w, Deferring);
  }

  lemma IdentifyIsPlain(s: System, w: nat, reconcile: bool)
    requires w < |s.workers| && s.workers[w] == Identifying(reconcile)
    ensures PlainMove(s, IdentifyStep(s, w, reconcile), w)
  {
    NothingElseRejects(s.rows, 0);
    var (committed, persisted) := PersistIdentities(s.rows, Expected(s));
    if persisted {
      CommitIsPlain(s, w, committed, if reconcile then LookingUp else Posting);
    } else {
      GotoIsPlain(s, w, Failing(s, MappingMismatch, Some(AUTHORITY)));
    }
  }

  lemma LookupIsPlain(s: System, w: nat, available: bool)
    requires Safe(s) && w < |s.workers|
    ensures PlainMove(s, LookupStep(s, w, available), w)
  {
    LookupIsTruthful(s, available);
    GotoIsPlain(s, w, LookupStep(s, w, available).workers[w]);
  }

  lemma RebuildCommitIsPlain(s: System, w: nat, outcome: Outcome, now: Time)
    requires w < |s.workers|
    ensures PlainMove(s, RebuildCommitStep(s, w, outcome, now), w)
  {
    GotoIsPlain(s, w, Quarantining);
    if outcome.AcceptedOutcome? && |outcome.transferIds| == |PairsOf(s.rows.lines)| {
      RebuildNeverRejects(s.rows, outcome, now);
      CommitIsPlain(s, w, RebuildAccepted(s.rows, outcome, now), Idle);
    }
  }

  lemma StayIsPlain(s: System, w: nat)
    requires w < |s.workers|
    ensures PlainMove(s, s, w)
  {
    assert s.workers[w := s.workers[w]] == s.workers;
  }

  lemma AuthorizeIsPlain(s: System, w: nat, job: Job, verdict: Authorization)
    requires w < |s.workers|
    ensures PlainMove(s, AuthorizeStep(s, w, job, verdict), w)
  {
    GotoIsPlain(s, w, AuthorizeStep(s, w, job, verdict).workers[w]);
  }

  lemma SubmissionIsPlain(s: System, w: nat, action: Action)
    requires Safe(s) && w < |s.workers|
    requires !(s.workers[w].Provisioning? && action.Provision?) && !(s.workers[w] == Posting && action.Post?)
    ensures |SubmissionStep(s, w, action).workers| == |s.workers| && PlainMove(s, SubmissionStep(s, w, action), w)
  {
    StayIsPlain(s, w);
    match (s.workers[w], action)
    case (Idle, Start(job)) => GotoIsPlain(s, w, Loaded(job));
    case (Loaded(job), Authorize(verdict)) => AuthorizeIsPlain(s, w, job, verdict);
    case (Beginning(job), Begin(routing, now)) => BeginIsPlain(s, w, job, routing, now);
    case (Deferring, Defer(now)) => NothingElseRejects(s.rows, now); CommitIsPlain(s, w, DeferBlocked(s.rows, now), Idle);
    case (Identifying(reconcile), Identify) => IdentifyIsPlain(s, w, reconcile);
    case (LookingUp, Lookup(available)) => LookupIsPlain(s, w, available);
    case (Receipting(outcome, observed), Receipt(now)) => ReceiptIsPlain(s, w, outcome, observed, now);
    case (Finalizing, Finalize(now)) => NothingElseRejects(s.rows, now); CommitIsPlain(s, w, FinalizeAccepted(s.rows, now), Idle);
    case _ =>
  }

  lemma RebuildIsPlain(s: System, w: nat, action: Action)
    requires w < |s.workers|
    ensures |RebuildStep(s, w, action).workers| == |s.workers| && PlainMove(s, RebuildStep(s, w, action), w)
  {
    StayIsPlain(s, w);
    match (s.workers[w], action)
    case (Idle, StartRebuild) => GotoIsPlain(s, w, RebuildLookingUp);
    case (RebuildLookingUp, RebuildLookup(available)) => GotoIsPlain(s, w, RebuildLookupStep(s, w, available).workers[w]);
    case (RebuildChecking(outcome), RebuildCheck) => GotoIsPlain(s, w, RebuildCheckStep(s, w, outcome).workers[w]);
    case (RebuildCommitting(outcome), RebuildCommit(now)) => RebuildCommitIsPlain(s, w, outcome, now);
    case (Quarantining, FenceProjection) => NothingElseRejects(s.rows, 0); CommitIsPlain(s, w, Quarantine(s.rows), Idle);
    case _ =>
  }

  lemma PlainStep(s: System, w: nat, action: Action)
    requires Safe(s) && w < |s.workers|
    requires !(s.workers[w].Provisioning? && action.Provision?) && !(s.workers[w] == Posting && action.Post?)
    ensures |Step(s, w, action).workers| == |s.workers| && PlainMove(s, Step(s, w, action), w)
  {
    GotoIsPlain(s, w, Idle);
    RebuildIsPlain(s, w, action);
    SubmissionIsPlain(s, w, action);
  }

  lemma PlainKeepsRefusals(s: System, t: System, w: nat)
    requires Memorious(s) && w < |s.workers| && |t.workers| == |s.workers| && PlainMove(s, t, w)
    ensures RefusalsHold(t) && PendingAreOurs(t)
  {
    RowsKeepRefusals(s, t, w, t.workers[w]);
  }

  lemma ProvisionIsStep(s: System, w: nat, verdict: AccountVerdict)
    requires w < |s.workers| && s.workers[w].Provisioning?
    ensures Step(s, w, Provision(verdict)) == ProvisionStep(s, w, s.workers[w].reconcile, s.workers[w].pending, verdict)
  {
  }

  lemma PostIsOwnStep(s: System, w: nat, action: Action)
    requires w < |s.workers| && s.workers[w] == Posting && action.Post?
    ensures Step(s, w, action) == PostStep(s, w, action.delivery, action.admitted, action.reason, action.clock)
  {
  }

  lemma StepKeepsRefusals(s: System, w: nat, action: Action)
    requires Memorious(s) && w < |s.workers|
    ensures RefusalsHold(Step(s, w, action)) && PendingAreOurs(Step(s, w, action))
  {
    if s.workers[w].Provisioning? && action.Provision? {
      ProvisionIsStep(s, w, action.answer);
      ProvisionKeepsRefusals(s, w, s.workers[w].reconcile, s.workers[w].pending, action.answer);
    } else if s.workers[w] == Posting && action.Post? {
      PostIsOwnStep(s, w, action);
      PostKeepsRefusals(s, w, action.delivery, action.admitted, action.reason, action.clock);
    } else {
      PlainStep(s, w, action);
      PlainKeepsRefusals(s, Step(s, w, action), w);
    }
  }

  lemma {:induction false} RunKeepsRefusals(s: System, occurrences: seq<Occurrence>)
    requires Memorious(s)
    ensures Memorious(Run(s, occurrences))
    decreases |occurrences|
  {
    if occurrences != [] {
      var o := occurrences[0];
      NextIsSafe(s, o);
      NextIsOrderly(s, o);
      if o.Act? && o.worker < |s.workers| {
        StepKeepsRefusals(s, o.worker, o.action);
      } else if o.OthersPost? && forall t | t in o.transfers :: !Owns(s.rows.op.identity, t.id) {
        OthersPostKeeps(s, o.transfers);
      }
      RunKeepsRefusals(Next(s, o), occurrences[1..]);
    }
  }

  /**
   With a ledger that keeps refusing what it refused once, any number of workers can be interleaved: a rejected
   operation has had no effect, and never will.
   */
  lemma RejectedMeansNotPosted(s: System, occurrences: seq<Occurrence>)
    requires Initial(s) && s.remembers && s.provisioned !! s.refusedAccounts
    ensures var t := Run(s, occurrences);
      t.rows.op.status == Rejected ==> Applied(t.log, s.rows.op.identity) == []
  {
    InitialIsSafe(s);
    assert forall w | 0 <= w < |s.workers| :: s.workers[w] in s.workers;
    RunKeepsRefusals(s, occurrences);
    FinalStatesAbsorb(s, occurrences);
    var t := Run(s, occurrences);
    if t.rows.op.status == Rejected { RefusedMeansNotApplied(t); }
  }
}
