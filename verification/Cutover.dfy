/**
 The cutover of a legal entity from the PostgreSQL ledger to TigerBeetle: prepared, approved on verified evidence
 and activated, while operations are created and run.
 */
module Cutover {
  import opened Wrappers
  import opened OperationRecords
  import opened OperationTransactions
  import Ledger = PostgresLedger
  import opened Reversals

  datatype ControlStatus = OnPostgresql | Preparing | VerificationPending | Approved | Activating | OnTigerBeetle

  /** `verified` stands for the four verification flags, the watermark, the hash and the approval record. */
  datatype Control = Control(status: ControlStatus, verified: bool, evidence: Option<string>, activated: bool,
                             lastError: Option<string>)

  /** One legal entity: its configured engine, its cutover control and its operations in order of creation. */
  datatype Entity = Entity(engine: Engine, control: Control, book: seq<Rows>)

  datatype CutoverError =
    | EngineActivated
    | NotPrepared
    | VerificationMismatch
    | ArtifactNotFound
    | ArtifactInvalid
    | UnresolvedOperations
    | LedgerNotConfigured
    | ActivationGatesPending
    | AccountProvisioningFailed
    | TransitionRefused
    | ActivationGateRefused
    | ApprovalCheckFailed

  /** What is found when a verification artifact is checked. */
  datatype Evidence = Evidence(artifactId: string, found: bool, inScope: bool, complete: bool, keyKnown: bool,
                               hashMatches: bool, signatureValid: bool, checkpointMatches: bool)

  type Changed = Result<Entity, CutoverError>

  // ----- the database's rules

  predicate TransitionAllowed(from: ControlStatus, to: ControlStatus) {
    || from == to
    || (from == OnPostgresql && to == Preparing)
    || (from == Preparing && to in {VerificationPending, Approved})
    || (from == VerificationPending && to == Approved)
    || (from == Approved && to == Activating)
    || (from == Activating && to == OnTigerBeetle)
  }

  /** Transition trigger, approval check, activation check and engine-route check of the control row. */
  function UpdateControl(e: Entity, control: Control): Changed {
    if !TransitionAllowed(e.control.status, control.status) then Failure(TransitionRefused)
    else if control.status in {Approved, Activating, OnTigerBeetle} && !control.verified then Failure(ApprovalCheckFailed)
    else if control.status == OnTigerBeetle && (!control.activated || e.engine != TigerBeetle) then Failure(ApprovalCheckFailed)
    else Success(e.(control := control))
  }

  /** No downgrade, and an upgrade only while the control is activating. */
  function UpdateEngine(e: Entity, engine: Engine): Changed {
    if e.engine == TigerBeetle && engine != TigerBeetle then Failure(ActivationGateRefused)
    else if e.engine == Postgresql && engine == TigerBeetle && e.control.status != Activating then Failure(ActivationGateRefused)
    else Success(e.(engine := engine))
  }

  // ----- the commands

  predicate Resolved(status: Status) {
    status == Reconciled || status == Rejected
  }

  predicate HasUnresolved(book: seq<Rows>) {
    exists i | 0 <= i < |book| :: !Resolved(book[i].op.status)
  }

  function Prepare(e: Entity): Changed {
    if e.engine == TigerBeetle || e.control.status == OnTigerBeetle then Failure(EngineActivated)
    else if e.control.status != OnPostgresql then Success(e)
    else UpdateControl(e, e.control.(status := Preparing, lastError := None))
  }

  /** Why an artifact is not good enough, if it is not. */
  function ArtifactError(evidence: Evidence): Option<CutoverError> {
    if !evidence.found then Some(ArtifactNotFound)
    else if !evidence.inScope || !evidence.complete || !evidence.keyKnown || !evidence.hashMatches || !evidence.signatureValid
    then Some(ArtifactInvalid)
    else None
  }

  function Approve(e: Entity, evidence: Evidence): Changed {
    match e.control.status
    case OnTigerBeetle => Success(e)
    case Approved => if e.control.evidence == Some(evidence.artifactId) then Success(e) else Failure(VerificationMismatch)
    case OnPostgresql => Failure(NotPrepared)
    case _ =>
      if e.engine != Postgresql then Failure(VerificationMismatch)
      else if ArtifactError(evidence).Some? then Failure(ArtifactError(evidence).value)
      else if HasUnresolved(e.book) then Failure(UnresolvedOperations)
      else if !evidence.checkpointMatches then Failure(VerificationMismatch)
      else UpdateControl(e, Control(Approved, true, Some(evidence.artifactId), e.control.activated, None))
  }

  function BeginActivation(e: Entity): Changed {
    if e.control.status == OnTigerBeetle then Success(e)
    else if e.control.status != Approved && e.control.status != Activating then Failure(ActivationGatesPending)
    else if e.engine != Postgresql then Failure(VerificationMismatch)
    else UpdateControl(e, e.control.(status := Activating, lastError := None))
  }

  function RecordProvisioningFailure(e: Entity, error: string): Changed {
    UpdateControl(e, e.control.(lastError := Some(error)))
  }

  function CompleteActivation(e: Entity): Changed {
    var routed := UpdateEngine(e, TigerBeetle);
    if routed.Failure? then routed
    else if e.control.status == Activating then
      UpdateControl(routed.value, e.control.(status := OnTigerBeetle, activated := true, lastError := None))
    else if e.control.status == OnTigerBeetle then routed
    else Failure(ActivationGatesPending)
  }

  /** The first account the ledger does not accept. */
  function FirstRefused(accounts: seq<string>, accepted: string -> bool): Option<string> {
    if accounts == [] then None
    else if !accepted(accounts[0]) then Some(accounts[0]) else FirstRefused(accounts[1..], accepted)
  }

  /** The whole activation: a first transaction, the accounts one by one, a second transaction. */
  function Activate(e: Entity, ledgerConfigured: bool, accounts: seq<string>, accepted: string -> bool): (Entity, Option<CutoverError>) {
    if !ledgerConfigured then (e, Some(LedgerNotConfigured))
    else
      var begun := BeginActivation(e);
      if begun.Failure? then (e, Some(begun.error))
      else if begun.value.control.status == OnTigerBeetle then (begun.value, None)
      else if FirstRefused(accounts, accepted).Some? then
        var recorded := RecordProvisioningFailure(begun.value, FirstRefused(accounts, accepted).value);
        (if recorded.Success? then recorded.value else begun.value, Some(AccountProvisioningFailed))
      else
        var completed := CompleteActivation(begun.value);
        if completed.Failure? then (begun.value, Some(completed.error)) else (completed.value, None)
  }

  /** The engine a control names, if it names one. */
  function NamedEngine(status: ControlStatus): Option<Engine> {
    match status
    case OnPostgresql => Some(Postgresql)
    case OnTigerBeetle => Some(TigerBeetle)
    case _ => None
  }

  // ----- runs

  datatype Action =
    | PrepareCutover
    | ApproveCutover(evidence: Evidence)
    | BeginActivating
    | FailProvisioning(error: string)
    | CompleteActivating
    | CreateOperation(environment: Environment, request: IntentRequest, keys: NewKeys, now: Time)
    | WriteOperation(index: nat, after: Rows)

  predicate Reads(e: Entity, environment: Environment) {
    && environment.control == NamedEngine(e.control.status)
    && environment.configuration.Some? && environment.configuration.value.financialEngine == e.engine
  }

  function OrElse(changed: Changed, e: Entity): Entity {
    if changed.Success? then changed.value else e
  }

  /** Every step is one transaction, so activators may stop or overlap anywhere between their two. */
  function Step(e: Entity, action: Action): Entity {
    match action
    case PrepareCutover => OrElse(Prepare(e), e)
    case ApproveCutover(evidence) => OrElse(Approve(e, evidence), e)
    case BeginActivating => OrElse(BeginActivation(e), e)
    case FailProvisioning(error) => OrElse(RecordProvisioningFailure(e, error), e)
    case CompleteActivating => OrElse(CompleteActivation(e), e)
    case CreateOperation(environment, request, keys, now) =>
      if Reads(e, environment) && Admission(environment, request).None?
      then e.(book := e.book + [IntentRows(NewIdentity(request, e.engine, keys), request.lines, now, map[])]) else e
    case WriteOperation(i, after) =>
      if i < |e.book| && OperationUpdateAllowed(e.book[i].op, after.op) then e.(book := e.book[i := after]) else e
  }

  function Run(e: Entity, actions: seq<Action>): Entity {
    if actions == [] then e else Step(Run(e, actions[..|actions| - 1]), actions[|actions| - 1])
  }

  /** A newly configured entity. */
  predicate Initial(e: Entity) {
    e.engine == Postgresql && e.control == Control(OnPostgresql, false, None, false, None) && e.book == []
  }

  // ----- what is kept

  ghost predicate EnginesInOrder(book: seq<Rows>) {
    forall i, j | 0 <= i < j < |book| :: book[i].op.identity.engine == TigerBeetle ==> book[j].op.identity.engine == TigerBeetle
  }

  ghost predicate PostgresqlSettled(book: seq<Rows>) {
    forall i | 0 <= i < |book| && book[i].op.identity.engine == Postgresql :: Terminal(book[i].op.status)
  }

  ghost predicate OnlyPostgresql(book: seq<Rows>) {
    forall i | 0 <= i < |book| :: book[i].op.identity.engine == Postgresql
  }

  ghost predicate Fits(e: Entity) {
    && (e.engine == TigerBeetle <==> e.control.status == OnTigerBeetle)
    && (e.control.status in {Approved, Activating, OnTigerBeetle} ==> e.control.verified && PostgresqlSettled(e.book))
    && (e.engine == Postgresql ==> OnlyPostgresql(e.book))
    && EnginesInOrder(e.book)
  }

  lemma WriteKeeps(e: Entity, i: nat, after: Rows)
    requires Fits(e) && i < |e.book| && OperationUpdateAllowed(e.book[i].op, after.op)
    ensures Fits(e.(book := e.book[i := after]))
  {
    var book := e.book[i := after];
    assert forall k | 0 <= k < |book| :: book[k].op.identity == e.book[k].op.identity;
  }

  lemma CreateKeeps(e: Entity, environment: Environment, request: IntentRequest, keys: NewKeys, now: Time)
    requires Fits(e) && Reads(e, environment) && Admission(environment, request).None?
    ensures Fits(Step(e, CreateOperation(environment, request, keys, now)))
    ensures e.control.status in {OnPostgresql, OnTigerBeetle}
  {
  }

  lemma ControlKeeps(e: Entity, evidence: Evidence, error: string)
    requires Fits(e)
    ensures Fits(OrElse(Prepare(e), e)) && Fits(OrElse(Approve(e, evidence), e)) && Fits(OrElse(BeginActivation(e), e))
    ensures Fits(OrElse(RecordProvisioningFailure(e, error), e)) && Fits(OrElse(CompleteActivation(e), e))
  {
  }

  lemma StepKeeps(e: Entity, action: Action)
    requires Fits(e)
    ensures Fits(Step(e, action))
  {
    match action
    case CreateOperation(environment, request, keys, now) =>
      if Reads(e, environment) && Admission(environment, request).None? { CreateKeeps(e, environment, request, keys, now); }
    case WriteOperation(i, after) =>
      if i < |e.book| && OperationUpdateAllowed(e.book[i].op, after.op) { WriteKeeps(e, i, after); }
    case ApproveCutover(evidence) => ControlKeeps(e, evidence, "");
    case FailProvisioning(error) => ControlKeeps(e, Evidence("", false, false, false, false, false, false, false), error);
    case _ => ControlKeeps(e, Evidence("", false, false, false, false, false, false, false), "");
  }

  lemma {:induction false} RunKeeps(e: Entity, actions: seq<Action>)
    requires Fits(e)
    ensures Fits(Run(e, actions))
    decreases |actions|
  {
    if actions != [] {
      RunKeeps(e, actions[..|actions| - 1]);
      StepKeeps(Run(e, actions[..|actions| - 1]), actions[|actions| - 1]);
    }
  }

  /** The engine never goes back, and turns only when an activating, verified control is completed. */
  lemma EngineTurnsOnlyByActivation(e: Entity, action: Action)
    requires Fits(e)
    ensures e.engine == TigerBeetle ==> Step(e, action).engine == TigerBeetle
    ensures e.engine == Postgresql && Step(e, action).engine == TigerBeetle ==>
      action == CompleteActivating && e.control.status == Activating && e.control.verified && PostgresqlSettled(e.book)
  {
  }

  lemma {:induction false} RunSplit(e: Entity, first: seq<Action>, second: seq<Action>)
    ensures Run(e, first + second) == Run(Run(e, first), second)
    decreases |second|
  {
    if second == [] {
      assert first + second == first;
    } else {
      assert (first + second)[..|first + second| - 1] == first + second[..|second| - 1];
      RunSplit(e, first, second[..|second| - 1]);
    }
  }

  /** The engine flips at most once: from the first state on TigerBeetle every later state is on TigerBeetle. */
  lemma {:induction false} FlipsOnce(e: Entity, first: seq<Action>, second: seq<Action>)
    requires Fits(e) && Run(e, first).engine == TigerBeetle
    ensures Run(e, first + second).engine == TigerBeetle
    decreases |second|
  {
    if second == [] {
      assert first + second == first;
    } else {
      var init := second[..|second| - 1];
      FlipsOnce(e, first, init);
      RunKeeps(e, first + init);
      EngineTurnsOnlyByActivation(Run(e, first + init), second[|second| - 1]);
      assert (first + second)[..|first + second| - 1] == first + init;
    }
  }

  /** Approved and verified, still on PostgreSQL, with every PostgreSQL operation settled. */
  ghost predicate IsApproved(e: Entity) {
    e.control.status == Approved && e.control.verified && e.engine == Postgresql && PostgresqlSettled(e.book)
  }

  // ----- what the database lets through

  /** How far a control has come. */
  function Stage(status: ControlStatus): nat {
    match status
    case OnPostgresql => 0
    case Preparing => 1
    case VerificationPending => 2
    case Approved => 3
    case Activating => 4
    case OnTigerBeetle => 5
  }

  /** A control never goes back, skips neither the approval nor the activation, and is verified from its approval on. */
  lemma ControlGoesForward(e: Entity, control: Control)
    requires UpdateControl(e, control).Success?
    ensures Stage(control.status) >= Stage(e.control.status)
    ensures Stage(e.control.status) < 3 ==> Stage(control.status) <= 3
    ensures Stage(e.control.status) == 0 ==> Stage(control.status) <= 1
    ensures e.control.status == Approved ==> control.status in {Approved, Activating}
    ensures Stage(control.status) >= 3 ==> control.verified
    ensures control.status == OnTigerBeetle ==> control.activated && e.engine == TigerBeetle
    ensures UpdateControl(e, control).value == e.(control := control)
  {
  }

  /** The engine is kept, or turns to TigerBeetle while the control is activating; there is no way back. */
  lemma EngineRouteIff(e: Entity, engine: Engine)
    ensures UpdateEngine(e, engine).Success? <==>
      engine == e.engine || (e.engine == Postgresql && engine == TigerBeetle && e.control.status == Activating)
    ensures UpdateEngine(e, engine).Success? ==> UpdateEngine(e, engine).value == e.(engine := engine)
  {
  }

  // ----- what each command does, and when

  /** Nothing is left open in the entity's book. */
  ghost predicate AllSettled(book: seq<Rows>) {
    forall i | 0 <= i < |book| :: book[i].op.status in {Reconciled, Rejected}
  }

  /** The artifact exists, is in scope, verified and complete, signed by a known key, intact, and matches a fresh checkpoint. */
  predicate Proves(evidence: Evidence) {
    && evidence.found && evidence.inScope && evidence.complete && evidence.keyKnown
    && evidence.hashMatches && evidence.signatureValid && evidence.checkpointMatches
  }

  /** This step approves the cutover: prepared, still on PostgreSQL, everything settled, and every part of the evidence good. */
  ghost predicate ApprovesHere(e: Entity, action: Action) {
    && action.ApproveCutover? && Proves(action.evidence)
    && e.control.status in {Preparing, VerificationPending} && e.engine == Postgresql && AllSettled(e.book)
  }

  /** A control becomes approved by exactly the steps that approve it on good evidence, and then names that evidence. */
  lemma ApprovedIffProven(e: Entity, action: Action)
    requires e.control.status != Approved
    ensures Step(e, action).control.status == Approved <==> ApprovesHere(e, action)
    ensures Step(e, action).control.status == Approved ==>
      Step(e, action) == e.(control := Control(Approved, true, Some(action.evidence.artifactId), e.control.activated, None))
  {
  }

  /** Why an approval fails, in the order in which the reasons are looked for; a failure changes nothing. */
  lemma ApprovalFailures(e: Entity, evidence: Evidence)
    requires e.control.status in {Preparing, VerificationPending}
    ensures Approve(e, evidence).Failure? <==> !ApprovesHere(e, ApproveCutover(evidence))
    ensures Approve(e, evidence).Failure? ==>
      Approve(e, evidence).error ==
        if e.engine != Postgresql then VerificationMismatch
        else if !evidence.found then ArtifactNotFound
        else if !(evidence.inScope && evidence.complete && evidence.keyKnown && evidence.hashMatches && evidence.signatureValid)
        then ArtifactInvalid
        else if !AllSettled(e.book) then UnresolvedOperations
        else VerificationMismatch
    ensures Approve(e, evidence).Failure? ==> Step(e, ApproveCutover(evidence)) == e
  {
  }

  /** An approved control accepts its own evidence again and no other, and changes for neither. */
  lemma ApprovedAgain(e: Entity, evidence: Evidence)
    requires e.control.status == Approved
    ensures Step(e, ApproveCutover(evidence)) == e
    ensures Approve(e, evidence).Success? <==> e.control.evidence == Some(evidence.artifactId)
  {
  }

  /** The control starts preparing exactly from an entity that is on PostgreSQL; every later preparation changes nothing. */
  lemma PreparedIff(e: Entity, action: Action)
    requires e.control.status != Preparing
    ensures Step(e, action).control.status == Preparing <==>
      action == PrepareCutover && e.control.status == OnPostgresql && e.engine != TigerBeetle
    ensures Step(e, action).control.status == Preparing ==>
      Step(e, action) == e.(control := e.control.(status := Preparing, lastError := None))
  {
  }

  /** The control starts activating exactly from a verified approval on PostgreSQL; the engine does not turn yet. */
  lemma ActivatingIff(e: Entity, action: Action)
    requires e.control.status != Activating
    ensures Step(e, action).control.status == Activating <==>
      action == BeginActivating && e.control.status == Approved && e.control.verified && e.engine == Postgresql
    ensures Step(e, action).control.status == Activating ==>
      Step(e, action) == e.(control := e.control.(status := Activating, lastError := None))
  {
  }

  /** The entity turns to TigerBeetle exactly by completing an activation; engine and control turn together. */
  lemma TurnedIff(e: Entity, action: Action)
    requires e.control.status != OnTigerBeetle
    ensures Step(e, action).control.status == OnTigerBeetle <==>
      action == CompleteActivating && e.control.status == Activating && e.control.verified
    ensures Step(e, action).control.status == OnTigerBeetle ==>
      Step(e, action)
        == e.(engine := TigerBeetle, control := e.control.(status := OnTigerBeetle, activated := true, lastError := None))
  {
  }

  /** A failed account is noted and nothing else changes. */
  lemma FailureIsNoted(e: Entity, error: string)
    requires Fits(e) && (e.control.status == OnTigerBeetle ==> e.control.activated)
    ensures Step(e, FailProvisioning(error)) == e.(control := e.control.(lastError := Some(error)))
  {
  }

  /** The first account that is not accepted. */
  ghost predicate FirstRefusedAt(accounts: seq<string>, accepted: string -> bool, k: int) {
    0 <= k < |accounts| && !accepted(accounts[k]) && forall i | 0 <= i < k :: accepted(accounts[i])
  }

  lemma {:induction false} FirstRefusedMeans(accounts: seq<string>, accepted: string -> bool)
    ensures FirstRefused(accounts, accepted).None? <==> forall i | 0 <= i < |accounts| :: accepted(accounts[i])
    ensures FirstRefused(accounts, accepted).Some? ==>
      exists k :: FirstRefusedAt(accounts, accepted, k) && FirstRefused(accounts, accepted).value == accounts[k]
  {
    if accounts != [] {
      if accepted(accounts[0]) {
        FirstRefusedMeans(accounts[1..], accepted);
        assert forall i | 0 <= i < |accounts[1..]| :: accounts[1..][i] == accounts[i + 1];
        if k :| FirstRefusedAt(accounts[1..], accepted, k) && FirstRefused(accounts[1..], accepted) == Some(accounts[1..][k]) {
          assert forall i | 0 < i <= k :: accounts[i] == accounts[1..][i - 1];
          assert FirstRefusedAt(accounts, accepted, k + 1);
        }
      } else {
        assert FirstRefusedAt(accounts, accepted, 0);
      }
    }
  }

  /**
   The whole activation.  It turns the entity exactly when a ledger is configured, the cutover is approved or already
   activating, and every account is accepted; a refused account leaves the entity activating on PostgreSQL.
   */
  lemma ActivationMeans(e: Entity, ledgerConfigured: bool, accounts: seq<string>, accepted: string -> bool)
    requires Fits(e) && e.control.status != OnTigerBeetle
    ensures var (after, error) := Activate(e, ledgerConfigured, accounts, accepted);
      var approved, all := e.control.status in {Approved, Activating}, forall i | 0 <= i < |accounts| :: accepted(accounts[i]);
      && (error == None <==> ledgerConfigured && approved && all)
      && (after.engine == TigerBeetle <==> error == None)
      && (after.control.status == OnTigerBeetle <==> error == None)
      && (!ledgerConfigured ==> after == e && error == Some(LedgerNotConfigured))
      && (ledgerConfigured && !approved ==> after == e && error == Some(ActivationGatesPending))
      && (ledgerConfigured && approved && !all ==>
            && error == Some(AccountProvisioningFailed) && after.control.status == Activating
            && exists k :: FirstRefusedAt(accounts, accepted, k) && after.control.lastError == Some(accounts[k]))
      && after.book == e.book && after.control.evidence == e.control.evidence && after.control.verified == e.control.verified
  {
    FirstRefusedMeans(accounts, accepted);
  }

  // ----- approval precedes activation

  lemma ActivationFollowsApproval(e: Entity, action: Action)
    requires Fits(e) && Step(e, action).control.status in {Activating, OnTigerBeetle}
    ensures e.control.status in {Approved, Activating, OnTigerBeetle}
  {
  }

  /** An approved control was approved by a step of the run, on good evidence and with everything settled. */
  lemma {:induction false} ApprovalIsInTheRun(e: Entity, actions: seq<Action>)
    requires Initial(e) && Run(e, actions).control.status in {Approved, Activating, OnTigerBeetle}
    ensures exists k :: 0 <= k < |actions| && ApprovesHere(Run(e, actions[..k]), actions[k])
    decreases |actions|
  {
    var init := actions[..|actions| - 1];
    var before, last := Run(e, init), actions[|actions| - 1];
    RunKeeps(e, init);
    if before.control.status in {Approved, Activating, OnTigerBeetle} {
      ApprovalIsInTheRun(e, init);
      var k :| 0 <= k < |init| && ApprovesHere(Run(e, init[..k]), init[k]);
      assert actions[..k] == init[..k] && actions[k] == init[k];
    } else {
      ApprovedBeforeActivating(before, last);
      ApprovedIffProven(before, last);
      assert ApprovesHere(Run(e, actions[..|init|]), actions[|init|]);
    }
  }

  lemma ApprovedBeforeActivating(e: Entity, action: Action)
    requires Fits(e) && e.control.status !in {Approved, Activating, OnTigerBeetle}
    requires Step(e, action).control.status in {Approved, Activating, OnTigerBeetle}
    ensures Step(e, action).control.status == Approved
  {
    if Step(e, action).control.status != Approved { ActivationFollowsApproval(e, action); }
  }

  /**
   Whenever an entity is activating or on TigerBeetle, the run contains an approval on evidence that was found, in scope,
   complete, signed by a known key, intact and matching, made while the entity was on PostgreSQL with every operation settled,
   and has passed through the approved control.
   */
  lemma {:induction false} ActivationWasApproved(e: Entity, actions: seq<Action>)
    requires Initial(e) && Run(e, actions).control.status in {Activating, OnTigerBeetle}
    ensures exists k :: 0 <= k < |actions| && IsApproved(Run(e, actions[..k]))
    ensures exists k :: 0 <= k < |actions| && ApprovesHere(Run(e, actions[..k]), actions[k])
    decreases |actions|
  {
    ApprovalIsInTheRun(e, actions);
    var init := actions[..|actions| - 1];
    RunKeeps(e, init);
    ActivationFollowsApproval(Run(e, init), actions[|actions| - 1]);
    if Run(e, init).control.status != Approved {
      ActivationWasApproved(e, init);
      var k :| 0 <= k < |init| && IsApproved(Run(e, init[..k]));
      assert actions[..k] == init[..k];
    }
  }

  /** Operations are created only while the control names the configured engine, and for that engine. */
  lemma CreationFollowsControl(e: Entity, action: Action)
    requires Fits(e)
    ensures |Step(e, action).book| == |e.book| || |Step(e, action).book| == |e.book| + 1
    ensures |Step(e, action).book| == |e.book| + 1 ==>
      NamedEngine(e.control.status) == Some(e.engine) && Step(e, action).book[|e.book|].op.identity.engine == e.engine
  {
  }

  /** Between preparation and activation nothing is created. */
  lemma {:induction false} NothingCreatedDuringCutover(e: Entity, first: seq<Action>, second: seq<Action>)
    requires Fits(e)
    requires forall k | 0 <= k < |second| :: NamedEngine(Run(e, first + second[..k]).control.status).None?
    ensures |Run(e, first + second).book| == |Run(e, first).book|
    decreases |second|
  {
    if second == [] {
      assert first + second == first;
    } else {
      var init := second[..|second| - 1];
      assert forall k | 0 <= k < |init| :: init[..k] == second[..k];
      NothingCreatedDuringCutover(e, first, init);
      RunKeeps(e, first + init);
      assert NamedEngine(Run(e, first + second[..|second| - 1]).control.status).None?;
      CreationFollowsControl(Run(e, first + init), second[|second| - 1]);
      assert (first + second)[..|first + second| - 1] == first + init;
    }
  }

  /** PostgreSQL's operations before the position, TigerBeetle's from it on. */
  ghost predicate SplitAt(book: seq<Rows>, split: int) {
    && 0 <= split <= |book| && OnlyPostgresql(book[..split])
    && forall i | split <= i < |book| :: book[i].op.identity.engine == TigerBeetle
  }

  /** The operations of every reachable state are PostgreSQL's first and TigerBeetle's after them. */
  lemma OperationsAreSplit(e: Entity, actions: seq<Action>)
    requires Initial(e)
    ensures exists split :: SplitAt(Run(e, actions).book, split)
  {
    RunKeeps(e, actions);
    assert EnginesInOrder(Run(e, actions).book);
    SplitPoint(Run(e, actions).book);
  }

  lemma {:induction false} SplitPoint(book: seq<Rows>)
    requires EnginesInOrder(book)
    ensures exists split :: SplitAt(book, split)
  {
    if book == [] || book[|book| - 1].op.identity.engine == Postgresql {
      assert forall i | 0 <= i < |book| :: book[i].op.identity.engine == TigerBeetle ==> book[|book| - 1].op.identity.engine == TigerBeetle;
      assert SplitAt(book, |book|);
    } else {
      var init := book[..|book| - 1];
      SplitPoint(init);
      var split :| SplitAt(init, split);
      assert book[..split] == init[..split];
      assert SplitAt(book, split);
    }
  }

  /**
   A submission goes ahead only on the operation's own engine; a first attempt only when that engine is also the
   configured one; and once the entity is on TigerBeetle no PostgreSQL operation is submitted any more.
   */
  lemma SubmissionsStayOnTheirEngine(e: Entity, actions: seq<Action>, i: nat, reconcile: bool, authority: Engine, routing: Routing, now: Time)
    requires Initial(e) && i < |Run(e, actions).book| && routing.financialEngine == Some(Run(e, actions).engine)
    ensures var s := Run(e, actions);
      var decision := BeginSubmission(s.book[i], reconcile, authority, routing, now).1;
      decision.Proceed? ==>
        && s.book[i].op.identity.engine == authority
        && (!decision.reconcile ==> authority == s.engine)
        && (s.engine == TigerBeetle ==> authority == TigerBeetle)
  {
    RunKeeps(e, actions);
  }

  /**
   A PostgreSQL worker that began before the cutover may still be on its way to its ledger: from the approval on,
   whatever it or anyone else posts there writes nothing, because every PostgreSQL operation is final.
   */
  lemma LateCallsMoveNothing(e: Entity, actions: seq<Action>, accounts: map<string, Ledger.AccountType>, input: Ledger.PostInput, now: Time)
    requires Initial(e) && Run(e, actions).control.status in {Approved, Activating, OnTigerBeetle}
    ensures Ledger.PostJournal(Run(e, actions).book, accounts, input, now).0 == Run(e, actions).book
  {
    RunKeeps(e, actions);
    var book := Run(e, actions).book;
    var found := Ledger.Find(book, input.tenantId, input.operationId);
    assert found.Some? && book[found.value].op.identity.engine == Postgresql ==> Terminal(book[found.value].op.status);
  }

  // ----- the commands in place

  class CutoverTables {
    var engine: Engine
    var control: Control
    var book: seq<Rows>

    function Contents(): Entity
      reads this
    {
      Entity(engine, control, book)
    }

    constructor ()
      ensures Initial(Contents()) && Fits(Contents())
    {
      engine, control, book := Postgresql, Control(OnPostgresql, false, None, false, None), [];
    }

    method SetControl(next: Control) returns (error: Option<CutoverError>)
      modifies this`control
      ensures match UpdateControl(old(Contents()), next)
        case Success(after) => Contents() == after && error == None
        case Failure(why) => Contents() == old(Contents()) && error == Some(why)
    {
      var updated := UpdateControl(Contents(), next);
      if updated.Failure? { return Some(updated.error); }
      control := next;
      return None;
    }

    method PrepareTigerBeetleCutover() returns (error: Option<CutoverError>)
      modifies this`control
      ensures match Prepare(old(Contents()))
        case Success(after) => Contents() == after && error == None
        case Failure(why) => Contents() == old(Contents()) && error == Some(why)
    {
      if engine == TigerBeetle || control.status == OnTigerBeetle { return Some(EngineActivated); }
      if control.status != OnPostgresql { return None; }
      error := SetControl(control.(status := Preparing, lastError := None));
    }

    method FindUnresolved() returns (unresolved: bool)
      ensures unresolved == HasUnresolved(book)
    {
      for i := 0 to |book|
        invariant forall k | 0 <= k < i :: Resolved(book[k].op.status)
      {
        if !Resolved(book[i].op.status) { return true; }
      }
      return false;
    }

    method ApproveTigerBeetleCutover(evidence: Evidence) returns (error: Option<CutoverError>)
      modifies this`control
      ensures match Approve(old(Contents()), evidence)
        case Success(after) => Contents() == after && error == None
        case Failure(why) => Contents() == old(Contents()) && error == Some(why)
    {
      if control.status == OnTigerBeetle { return None; }
      if control.status == Approved {
        return if control.evidence == Some(evidence.artifactId) then None else Some(VerificationMismatch);
      }
      if control.status == OnPostgresql { return Some(NotPrepared); }
      if engine != Postgresql { return Some(VerificationMismatch); }
      var invalid := ArtifactError(evidence);
      if invalid.Some? { return invalid; }
      var unresolved := FindUnresolved();
      if unresolved { return Some(UnresolvedOperations); }
      if !evidence.checkpointMatches { return Some(VerificationMismatch); }
      error := SetControl(Control(Approved, true, Some(evidence.artifactId), control.activated, None));
    }

    method BeginActivating() returns (error: Option<CutoverError>)
      modifies this`control
      ensures match BeginActivation(old(Contents()))
        case Success(after) => Contents() == after && error == None
        case Failure(why) => Contents() == old(Contents()) && error == Some(why)
    {
      if control.status == OnTigerBeetle { return None; }
      if control.status != Approved && control.status != Activating { return Some(ActivationGatesPending); }
      if engine != Postgresql { return Some(VerificationMismatch); }
      error := SetControl(control.(status := Activating, lastError := None));
    }

    /** Route, then control; a refusal of the second undoes the first. */
    method CompleteActivating() returns (error: Option<CutoverError>)
      modifies this`engine, this`control
      ensures match CompleteActivation(old(Contents()))
        case Success(after) => Contents() == after && error == None
        case Failure(why) => Contents() == old(Contents()) && error == Some(why)
    {
      var routed := UpdateEngine(Contents(), TigerBeetle);
      if routed.Failure? { return Some(routed.error); }
      var before := engine;
      engine := TigerBeetle;
      if control.status == Activating {
        error := SetControl(control.(status := OnTigerBeetle, activated := true, lastError := None));
      } else {
        error := if control.status == OnTigerBeetle then None else Some(ActivationGatesPending);
      }
      if error.Some? { engine := before; }
    }

    method ActivateTigerBeetleCutover(ledgerConfigured: bool, accounts: seq<string>, accepted: string -> bool)
      returns (error: Option<CutoverError>)
      modifies this
      ensures (Contents(), error) == Activate(old(Contents()), ledgerConfigured, accounts, accepted)
    {
      if !ledgerConfigured { return Some(LedgerNotConfigured); }
      error := BeginActivating();
      if error.Some? || control.status == OnTigerBeetle { return; }
      for i := 0 to |accounts|
        invariant FirstRefused(accounts, accepted) == FirstRefused(accounts[i..], accepted)
        invariant Success(Contents()) == BeginActivation(old(Contents()))
      {
        if !accepted(accounts[i]) {
          var ignored := SetControl(control.(lastError := Some(accounts[i])));
          return Some(AccountProvisioningFailed);
        }
        assert accounts[i..][1..] == accounts[i + 1..];
      }
      error := CompleteActivating();
    }
  }
}
