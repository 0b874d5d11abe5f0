/**
 The submission protocol as a state machine.  Any number of workers drive one operation; each of their steps
 is one database transaction, one ledger call, or a read.  Between any two steps a worker may crash, other
 operations may reach the ledger and the outbox, and responses may be lost.
 */
module Protocol {
  import opened Wrappers
  import opened Pairing
  import opened JournalValidation
  import opened OperationRecords
  import opened OperationTransactions
  import opened ExternalLedger

  datatype Job = SubmitJob | ReconcileJob

  datatype AccountVerdict =
    | AccountAccepted
    | AccountUnknown(why: UnknownReason)
    | AccountRejected(reason: RejectionReason)
    | AccountManual(recovery: RecoveryReason)

  datatype Authorization = Authorised | Denied | AuthorizationFailed

  /** Where a worker stands between two steps, with the values it carries. */
  datatype Worker =
    | Idle
    | Loaded(job: Job)
    | Beginning(job: Job)
    | Deferring
    | Provisioning(reconcile: bool, pending: seq<string>)
    | Identifying(reconcile: bool)
    | LookingUp
    | Posting
    | Receipting(outcome: Outcome, observed: Option<Engine>)
    | Finalizing
    | RebuildLookingUp
    | RebuildChecking(outcome: Outcome)
    | RebuildCommitting(outcome: Outcome)
    | Quarantining

  /**
   The rows, the ledger with its accounts, and the workers.  `remembers` says whether the ledger keeps
   refusing what it has refused once; `refused` and `refusedAccounts` are that memory.
   */
  datatype System = System(rows: Rows, log: seq<LedgerTransfer>, provisioned: set<string>, refusedAccounts: set<string>,
                           refused: bool, remembers: bool, workers: seq<Worker>)

  datatype Action =
    | Start(job: Job)
    | Authorize(verdict: Authorization)
    | Begin(routing: Routing, now: Time)
    | Defer(now: Time)
    | Provision(answer: AccountVerdict)
    | Identify
    | Lookup(available: bool)
    | Post(delivery: Delivery, admitted: bool, reason: RejectionReason, clock: Time)
    | Receipt(now: Time)
    | Finalize(now: Time)
    | StartRebuild
    | RebuildLookup(available: bool)
    | RebuildCheck
    | RebuildCommit(now: Time)
    | FenceProjection
    | Crash

  /** A worker's step, or something that happens outside this operation. */
  datatype Occurrence =
    | Act(worker: nat, action: Action)
    | OthersPost(transfers: seq<LedgerTransfer>)
    | OthersPublish(event: Event)

  const AUTHORITY := TigerBeetle

  function Expected(s: System): seq<TransferId> {
    ExpectedIds(s.rows.op.identity, s.rows.lines)
  }

  function Failing(s: System, recovery: RecoveryReason, observed: Option<Engine>): Worker {
    Receipting(ManualOutcome(s.rows.op.identity.operationId, recovery), observed)
  }

  /** Commits a transaction's rows and moves the worker on; a refused transaction ends the worker's run. */
  function Commit(s: System, w: nat, committed: Committed, next: Worker): System
    requires w < |s.workers|
  {
    match committed
    case Success(rows) => s.(rows := rows, workers := s.workers[w := next])
    case Failure(_) => s.(workers := s.workers[w := Idle])
  }

  function Goto(s: System, w: nat, next: Worker): System
    requires w < |s.workers|
  {
    s.(workers := s.workers[w := next])
  }

  function AuthorizeStep(s: System, w: nat, job: Job, verdict: Authorization): System
    requires w < |s.workers|
  {
    match verdict
    case Authorised => Goto(s, w, Beginning(job))
    case Denied => Goto(s, w, Failing(s, ReconciliationRequired, None))
    case AuthorizationFailed => Goto(s, w, Idle)
  }

  function BeginStep(s: System, w: nat, job: Job, routing: Routing, now: Time): System
    requires w < |s.workers|
  {
    var (committed, decision) := BeginSubmission(s.rows, job == ReconcileJob, AUTHORITY, routing, now);
    match decision
    case AlreadyTerminal => Goto(s, w, Idle)
    case RoutingChanged(observed) => Goto(s, w, Failing(s, EngineRoutingChanged, observed))
    case Blocked => Goto(s, w, Deferring)
    case Proceed(reconcile) => Commit(s, w, committed, Provisioning(reconcile, DistinctAccounts(s.rows.lines)))
  }

  function IdentifyStep(s: System, w: nat, reconcile: bool): System
    requires w < |s.workers|
  {
    var (committed, persisted) := PersistIdentities(s.rows, Expected(s));
    if !persisted then Goto(s, w, Failing(s, MappingMismatch, Some(AUTHORITY)))
    else Commit(s, w, committed, if reconcile then LookingUp else Posting)
  }

  /** What the ledger says about an account: known accounts stay accepted, remembered refusals stay refused. */
  function AccountAnswer(s: System, account: string, verdict: AccountVerdict): AccountVerdict {
    if verdict.AccountUnknown? then verdict
    else if account in s.provisioned then AccountAccepted
    else if s.remembers && account in s.refusedAccounts then AccountRejected(ConstraintViolation)
    else verdict
  }

  function ProvisionStep(s: System, w: nat, reconcile: bool, pending: seq<string>, verdict: AccountVerdict): System
    requires w < |s.workers|
  {
    if pending == [] then Goto(s, w, Identifying(reconcile))
    else
      match AccountAnswer(s, pending[0], verdict)
      case AccountAccepted =>
        Goto(s, w, Provisioning(reconcile, pending[1..])).(provisioned := s.provisioned + {pending[0]})
      case AccountRejected(reason) =>
        Goto(s, w, Receipting(RejectedOutcome(s.rows.op.identity.operationId, reason), Some(AUTHORITY)))
          .(refusedAccounts := s.refusedAccounts + {pending[0]})
      case AccountUnknown(why) =>
        Goto(s, w, Receipting(UnknownOutcome(s.rows.op.identity.operationId, why), Some(AUTHORITY)))
      case AccountManual(recovery) => Goto(s, w, Failing(s, recovery, Some(AUTHORITY)))
  }

  /** An accepted outcome must name exactly the expected identities. */
  function CheckedOutcome(s: System, outcome: Outcome): Outcome {
    if outcome.AcceptedOutcome? && (outcome.transferCount != |Expected(s)| || outcome.transferIds != Expected(s))
    then ManualOutcome(outcome.operationId, MappingMismatch) else outcome
  }

  ghost function LookupStep(s: System, w: nat, available: bool): System
    requires w < |s.workers|
  {
    var outcome := ReconcileJournal(s.log, s.rows.op.identity, s.rows.lines, available);
    if outcome.UnknownOutcome? && outcome.why == NotFound then Goto(s, w, Posting)
    else Goto(s, w, Receipting(CheckedOutcome(s, outcome), Some(AUTHORITY)))
  }

  ghost function PostStep(s: System, w: nat, delivery: Delivery, admitted: bool, reason: RejectionReason, clock: Time): System
    requires w < |s.workers|
  {
    var admits := admitted && !(s.remembers && s.refused);
    var posted := PostJournal(s.log, s.rows.op.identity, s.rows.lines, delivery, admits, reason, clock);
    var refusedNow := delivery != LostRequest && !admits && LookupTransfers(s.log, Expected(s)) == [];
    Goto(s, w, Receipting(CheckedOutcome(s, posted.outcome), Some(AUTHORITY)))
      .(log := posted.log, refused := s.refused || refusedNow)
  }

  function ReceiptStep(s: System, w: nat, outcome: Outcome, observed: Option<Engine>, now: Time): System
    requires w < |s.workers|
  {
    var committed := WriteReceipt(s.rows, outcome, observed, now);
    var finalizes := outcome.AcceptedOutcome? && committed.Success? && committed.value.op.status == Accepted;
    Commit(s, w, committed, if finalizes then Finalizing else Idle)
  }

  /** Identities, counts and stored rows agree with the ledger; otherwise the projection is quarantined. */
  predicate RebuildAgrees(rows: Rows, outcome: Outcome)
    requires outcome.AcceptedOutcome?
  {
    var pairs, ids := PairsOf(rows.lines), ExpectedIds(rows.op.identity, rows.lines);
    && outcome.operationId == rows.op.identity.operationId
    && outcome.mappingVersion == rows.op.identity.mappingVersion
    && outcome.transferCount == |ids|
    && outcome.transferIds == ids
    && forall p | p in rows.transfers ::
         && p < |pairs|
         && rows.transfers[p].debit == pairs[p].debit && rows.transfers[p].credit == pairs[p].credit
         && rows.transfers[p].amount == pairs[p].amount
         && (rows.transfers[p].engineTransferId.Some? ==> rows.transfers[p].engineTransferId.value == outcome.transferIds[p])
  }

  function StartRebuildStep(s: System, w: nat): System
    requires w < |s.workers|
  {
    if s.rows.op.status in {Accepted, Reconciled} && s.rows.op.identity.engine == AUTHORITY && s.rows.op.identity.engineVerified
    then Goto(s, w, RebuildLookingUp) else s
  }

  ghost function RebuildLookupStep(s: System, w: nat, available: bool): System
    requires w < |s.workers|
  {
    var outcome := ReconcileJournal(s.log, s.rows.op.identity, s.rows.lines, available);
    if outcome.AcceptedOutcome? then Goto(s, w, RebuildChecking(outcome))
    else if outcome.UnknownOutcome? then Goto(s, w, Idle)
    else Goto(s, w, Quarantining)
  }

  function RebuildCheckStep(s: System, w: nat, outcome: Outcome): System
    requires w < |s.workers|
  {
    if outcome.AcceptedOutcome? && RebuildAgrees(s.rows, outcome)
    then Goto(s, w, RebuildCommitting(outcome)) else Goto(s, w, Quarantining)
  }

  /** A failed rebuild is quarantined when the outbox holds a different event, and reported otherwise. */
  function RebuildCommitStep(s: System, w: nat, outcome: Outcome, now: Time): System
    requires w < |s.workers|
  {
    if !outcome.AcceptedOutcome? || |outcome.transferIds| != |PairsOf(s.rows.lines)| then Goto(s, w, Quarantining)
    else
      var committed := RebuildAccepted(s.rows, outcome, now);
      if committed == Failure(EventConflict) then Goto(s, w, Quarantining) else Commit(s, w, committed, Idle)
  }

  ghost function SubmissionStep(s: System, w: nat, action: Action): System
    requires w < |s.workers|
  {
    match (s.workers[w], action)
    case (Idle, Start(job)) => if Terminal(s.rows.op.status) then s else Goto(s, w, Loaded(job))
    case (Loaded(job), Authorize(verdict)) => AuthorizeStep(s, w, job, verdict)
    case (Beginning(job), Begin(routing, now)) => BeginStep(s, w, job, routing, now)
    case (Deferring, Defer(now)) => Commit(s, w, DeferBlocked(s.rows, now), Idle)
    case (Provisioning(reconcile, pending), Provision(answer)) => ProvisionStep(s, w, reconcile, pending, answer)
    case (Identifying(reconcile), Identify) => IdentifyStep(s, w, reconcile)
    case (LookingUp, Lookup(available)) => LookupStep(s, w, available)
    case (Posting, Post(delivery, admitted, reason, clock)) => PostStep(s, w, delivery, admitted, reason, clock)
    case (Receipting(outcome, observed), Receipt(now)) => ReceiptStep(s, w, outcome, observed, now)
    case (Finalizing, Finalize(now)) => Commit(s, w, FinalizeAccepted(s.rows, now), Idle)
    case _ => s
  }

  predicate OfRebuild(action: Action) {
    action.StartRebuild? || action.RebuildLookup? || action.RebuildCheck? || action.RebuildCommit? || action.FenceProjection?
  }

  ghost function RebuildStep(s: System, w: nat, action: Action): System
    requires w < |s.workers|
  {
    match (s.workers[w], action)
    case (Idle, StartRebuild) => StartRebuildStep(s, w)
    case (RebuildLookingUp, RebuildLookup(available)) => RebuildLookupStep(s, w, available)
    case (RebuildChecking(outcome), RebuildCheck) => RebuildCheckStep(s, w, outcome)
    case (RebuildCommitting(outcome), RebuildCommit(now)) => RebuildCommitStep(s, w, outcome, now)
    case (Quarantining, FenceProjection) => Commit(s, w, Quarantine(s.rows), Idle)
    case _ => s
  }

  /** One step of worker `w`; an action that does not fit where the worker stands changes nothing. */
  ghost function Step(s: System, w: nat, action: Action): System
    requires w < |s.workers|
  {
    if action == Crash then Goto(s, w, Idle)
    else if OfRebuild(action) then RebuildStep(s, w, action)
    else SubmissionStep(s, w, action)
  }

  ghost function Next(s: System, o: Occurrence): System {
    match o
    case Act(w, action) => if w < |s.workers| then Step(s, w, action) else s
    case OthersPost(transfers) =>
      if forall t | t in transfers :: !Owns(s.rows.op.identity, t.id) then s.(log := s.log + transfers) else s
    case OthersPublish(event) =>
      var appended := AppendEvent(s.rows.outbox, event);
      if event.eventId == s.rows.op.identity.reconciledEventId || SameDedupeKey(event, ReconciledEvent(s.rows.op.identity, 0))
         || appended.Failure?
      then s else s.(rows := s.rows.(outbox := appended.value))
  }

  ghost function Run(s: System, occurrences: seq<Occurrence>): System
    decreases |occurrences|
  {
    if occurrences == [] then s else Run(Next(s, occurrences[0]), occurrences[1..])
  }

  // ----- one uninterrupted submission

  /** How the world answers during one submission. */
  datatype Script = Script(authorization: Authorization, routing: Routing, verdict: string -> AccountVerdict, available: bool,
                           delivery: Delivery, admitted: bool, reason: RejectionReason, now: Time)

  function Opening(w: nat, job: Job, script: Script): seq<Occurrence> {
    [Act(w, Start(job)), Act(w, Authorize(script.authorization)), Act(w, Begin(script.routing, script.now)),
     Act(w, Defer(script.now))]
  }

  function Provisions(w: nat, accounts: seq<string>, script: Script): seq<Occurrence> {
    if accounts == [] then [Act(w, Provision(AccountAccepted))]
    else [Act(w, Provision(script.verdict(accounts[0])))] + Provisions(w, accounts[1..], script)
  }

  function Calls(w: nat, script: Script): seq<Occurrence> {
    [Act(w, Identify), Act(w, Lookup(script.available)), Act(w, Post(script.delivery, script.admitted, script.reason, script.now))]
  }

  function Closing(w: nat, script: Script): seq<Occurrence> {
    [Act(w, Receipt(script.now)), Act(w, Finalize(script.now))]
  }

  /** Every step a submission can take, in order; those that do not apply change nothing. */
  function SubmitScript(s: System, w: nat, job: Job, script: Script): seq<Occurrence> {
    Opening(w, job, script) + (Provisions(w, DistinctAccounts(s.rows.lines), script) + (Calls(w, script) + Closing(w, script)))
  }

  /** A stored intent, idle workers, and a ledger that has seen none of the operation's identities. */
  ghost predicate Initial(s: System) {
    && (exists now :: s.rows == IntentRows(s.rows.op.identity, s.rows.lines, now, s.rows.outbox))
    && WellFormed(s.rows.lines) && NoSelfTransfer(s.rows.lines)
    && (s.rows.op.identity.operationType == JournalReverse <==> s.rows.op.identity.sourceJournalId.Some?)
    && OutboxKeysUnique(s.rows.outbox)
    && (forall t :: Collisions(s.rows.outbox, ReconciledEvent(s.rows.op.identity, t)) == {})
    && (forall t | t in s.log :: !Owns(s.rows.op.identity, t.id))
    && !s.refused && s.refusedAccounts == {}
    && (forall w | w in s.workers :: w == Idle)
  }
}
