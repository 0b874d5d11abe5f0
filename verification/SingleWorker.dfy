/**
 Rejections without a remembering ledger.  With one worker a rejection still means that nothing was posted;
 with two workers it does not.
 */
module SingleWorker {
  import opened Wrappers
  import opened JournalValidation
  import opened OperationRecords
  import opened OperationTransactions
  import opened OperationInvariant
  import opened ExternalLedger
  import opened Protocol
  import opened ProtocolSafety
  import opened ProtocolTheorems
  import opened Recovery

  /** One worker: a rejection, written or about to be written, is a rejection of something never applied. */
  ghost predicate Solo(s: System) {
    && Safe(s) && PendingAreOurs(s) && |s.workers| == 1
    && (s.rows.op.status == Rejected ==> s.workers[0] == Idle && Effect(s) == [])
    && (Rejecting(s.workers[0]) ==> Effect(s) == [])
  }

  lemma RejectedWorkerStays(s: System, action: Action)
    requires Solo(s) && s.rows.op.status == Rejected
    ensures Solo(Step(s, 0, action))
  {
    assert s.workers == [Idle];
    assert Step(s, 0, action) == s;
  }

  /** An account is refused only while it is not provisioned, so before anything was applied. */
  lemma RefusedAccountNotApplied(s: System, pending: seq<string>, verdict: AccountVerdict, reconcile: bool)
    requires Solo(s) && s.workers[0] == Provisioning(reconcile, pending) && pending != []
    requires AccountAnswer(s, pending[0], verdict).AccountRejected?
    ensures Effect(s) == []
  {
    assert pending[0] in s.workers[0].pending;
    assert pending[0] !in s.provisioned;
    assert !AccountsReady(s);
  }

  /** The worker moves on without touching rows or ledger. */
  lemma SoloMoves(s: System, t: System, next: Worker)
    requires Solo(s) && Safe(t) && t.rows == s.rows && t.log == s.log && t.workers == [next]
    requires s.rows.op.status != Rejected && (Rejecting(next) ==> Effect(s) == [])
    requires next.Provisioning? ==> s.workers[0].Provisioning? && forall later | later in next.pending :: later in s.workers[0].pending
    ensures Solo(t)
  {
  }

  lemma ProvisionMoves(s: System, w: nat, reconcile: bool, pending: seq<string>, verdict: AccountVerdict)
    requires w < |s.workers|
    ensures var t := ProvisionStep(s, w, reconcile, pending, verdict);
      && t.rows == s.rows && t.log == s.log && |t.workers| == |s.workers| && t.workers == s.workers[w := t.workers[w]]
      && (Rejecting(t.workers[w]) ==> pending != [] && AccountAnswer(s, pending[0], verdict).AccountRejected?)
      && (t.workers[w].Provisioning? ==> pending != [] && t.workers[w].pending == pending[1..])
  {
  }

  lemma SoloProvision(s: System, reconcile: bool, pending: seq<string>, verdict: AccountVerdict)
    requires Solo(s) && s.workers[0] == Provisioning(reconcile, pending)
    ensures Solo(ProvisionStep(s, 0, reconcile, pending, verdict))
  {
    var t := ProvisionStep(s, 0, reconcile, pending, verdict);
    ProvisionMoves(s, 0, reconcile, pending, verdict);
    var next := t.workers[0];
    assert t.workers == [next];
    if Rejecting(next) { RefusedAccountNotApplied(s, pending, verdict, reconcile); }
    assert Safe(t) by { ProvisionStepKeeps(s, 0, reconcile, pending, verdict); }
    SoloMoves(s, t, next);
  }

  lemma SoloPost(s: System, delivery: Delivery, admitted: bool, reason: RejectionReason, clock: Time)
    requires Solo(s) && s.workers[0] == Posting
    ensures Solo(PostStep(s, 0, delivery, admitted, reason, clock))
  {
    PostStepKeeps(s, 0, delivery, admitted, reason, clock);
    PostIsTruthful(s, delivery, admitted && !(s.remembers && s.refused), reason, clock);
  }

  /** Writing a rejection sends the worker home. */
  lemma RejectionIsWrittenLast(s: System, action: Action)
    requires Solo(s) && Rejecting(s.workers[0])
    ensures Step(s, 0, action).rows.op.status == Rejected && s.rows.op.status != Rejected ==> Step(s, 0, action).workers[0] == Idle
  {
  }

  lemma SoloStep(s: System, action: Action)
    requires Solo(s)
    ensures Solo(Step(s, 0, action))
  {
    if s.rows.op.status == Rejected {
      RejectedWorkerStays(s, action);
    } else if s.workers[0].Provisioning? && action.Provision? {
      ProvisionIsStep(s, 0, action.answer);
      SoloProvision(s, s.workers[0].reconcile, s.workers[0].pending, action.answer);
    } else if s.workers[0] == Posting && action.Post? {
      PostIsOwnStep(s, 0, action);
      SoloPost(s, action.delivery, action.admitted, action.reason, action.clock);
    } else {
      SoloElsewhere(s, action);
    }
  }

  lemma SoloElsewhere(s: System, action: Action)
    requires Solo(s) && s.rows.op.status != Rejected
    requires !(s.workers[0].Provisioning? && action.Provision?) && !(s.workers[0] == Posting && action.Post?)
    ensures Solo(Step(s, 0, action))
  {
    assert Safe(Step(s, 0, action)) by { StepIsSafe(s, 0, action); }
    PlainStep(s, 0, action);
    if Rejecting(s.workers[0]) { RejectionIsWrittenLast(s, action); }
    SoloPlain(s, Step(s, 0, action));
  }

  lemma SoloPlain(s: System, t: System)
    requires Solo(s) && Safe(t) && |t.workers| == 1 && PlainMove(s, t, 0) && s.rows.op.status != Rejected
    requires Rejecting(s.workers[0]) && t.rows.op.status == Rejected ==> t.workers[0] == Idle
    ensures Solo(t)
  {
    assert Effect(t) == Effect(s);
  }

  lemma SoloUntouched(s: System, t: System)
    requires Solo(s) && Safe(t) && SameIntent(s.rows, t.rows) && t.rows.op == s.rows.op
    requires t.workers == s.workers && Effect(t) == Effect(s)
    ensures Solo(t)
  {
  }

  lemma OthersUntouched(s: System, o: Occurrence)
    requires !o.Act?
    ensures var t := Next(s, o);
      SameIntent(s.rows, t.rows) && t.rows.op == s.rows.op && t.workers == s.workers && Effect(t) == Effect(s)
  {
    if o.OthersPost? && forall t | t in o.transfers :: !Owns(s.rows.op.identity, t.id) {
      AppliedConcat(s.log, o.transfers, s.rows.op.identity);
      AppliedNone(o.transfers, s.rows.op.identity);
    }
  }

  lemma SoloOthers(s: System, o: Occurrence)
    requires Solo(s) && !o.Act?
    ensures Solo(Next(s, o))
  {
    OthersUntouched(s, o);
    assert Safe(Next(s, o)) by { NextIsSafe(s, o); }
    SoloUntouched(s, Next(s, o));
  }

  lemma ActIsStep(s: System, o: Occurrence)
    requires o.Act? && |s.workers| == 1
    ensures Next(s, o) == if o.worker == 0 then Step(s, 0, o.action) else s
  {
  }

  lemma SoloNext(s: System, o: Occurrence)
    requires Solo(s)
    ensures Solo(Next(s, o))
  {
    if o.Act? {
      ActIsStep(s, o);
      SoloStep(s, o.action);
    } else {
      SoloOthers(s, o);
    }
  }

  lemma {:induction false} SoloRun(s: System, occurrences: seq<Occurrence>)
    requires Solo(s)
    ensures Solo(Run(s, occurrences))
    decreases |occurrences|
  {
    if occurrences != [] {
      SoloNext(s, occurrences[0]);
      SoloRun(Next(s, occurrences[0]), occurrences[1..]);
    }
  }

  /**
   With one worker, crashing as often as it likes and losing any response, `rejected` implies that none of the
   transfers is in the ledger and `reconciled` that all are: a lost response never becomes a rejection.
   */
  lemma LostResponseIsNeverARejection(s: System, occurrences: seq<Occurrence>)
    requires Initial(s) && |s.workers| == 1
    ensures var t := Run(s, occurrences);
      && (t.rows.op.status == Rejected ==> Applied(t.log, s.rows.op.identity) == [])
      && (t.rows.op.status == Reconciled ==>
            exists clock :: Applied(t.log, s.rows.op.identity) == Batch(s.rows.op.identity, s.rows.lines, clock))
  {
    InitialIsSafe(s);
    assert s.workers[0] in s.workers;
    SoloRun(s, occurrences);
    FinalStatesAbsorb(s, occurrences);
  }

  // ----- two workers

  lemma RunsCompose(s: System, first: seq<Occurrence>, o: Occurrence)
    ensures Run(s, first + [o]) == Next(Run(s, first), o)
  {
    RunConcat(s, first, [o]);
    RunOne(Run(s, first), o);
  }

  /** Worker 0 reaches its post, worker 1 is refused and writes the rejection, then worker 0 posts. */
  ghost function Overtaking(s: System, script: Script): seq<Occurrence> {
    var first := Approach(s, 0, script);
    var second := Approach(Run(s, first), 1, script);
    first + second + [Act(1, Post(Delivered, false, ConstraintViolation, script.now))] + [Act(1, Receipt(script.now))]
      + [Act(0, Post(Delivered, true, ConstraintViolation, script.now))]
  }

  /**
   With two workers and a ledger that may admit what it refused before, every intent has a run that ends with a
   `rejected` row and the journal applied.  The guarantee needs one worker or a ledger that remembers.
   */
  lemma InterleavedRejectionCanBePosted(s: System, script: Script)
    requires Initial(s) && Undisturbed(script) && !s.remembers && |s.workers| >= 2
    requires forall account :: script.verdict(account) == AccountAccepted
    requires s.rows.op.identity.engine == AUTHORITY && s.rows.op.identity.engineVerified
    ensures var t := Run(s, Overtaking(s, script));
      t.rows.op.status == Rejected && Applied(t.log, s.rows.op.identity) != []
  {
    InitialIsSafe(s);
    assert s.workers[0] in s.workers && s.workers[1] in s.workers;
    var first := Approach(s, 0, script);
    ApproachReaches(s, 0, script);
    var s1 := Run(s, first);
    var second := Approach(s1, 1, script);
    assert WorkerFits(s1, s1.workers[0]);
    ReadyAreAccepted(s1, script);
    ApproachReaches(s1, 1, script);
    var s2 := Run(s1, second);
    RunConcat(s, first, second);
    OvertakenFromPosting(s2, script.now);
    var o1, o2, o3 := Act(1, Post(Delivered, false, ConstraintViolation, script.now)), Act(1, Receipt(script.now)),
      Act(0, Post(Delivered, true, ConstraintViolation, script.now));
    RunsCompose(s, first + second, o1);
    RunsCompose(s, first + second + [o1], o2);
    RunsCompose(s, first + second + [o1] + [o2], o3);
  }

  lemma OvertakenFromPosting(s: System, now: Time)
    requires Safe(s) && |s.workers| >= 2 && s.workers[0] == s.workers[1] == Posting && Effect(s) == [] && !s.remembers
    requires s.rows.op.status in {Submitted, Accepted}
    ensures var t := Next(Next(Next(s, Act(1, Post(Delivered, false, ConstraintViolation, now))), Act(1, Receipt(now))),
                          Act(0, Post(Delivered, true, ConstraintViolation, now)));
      && t.rows.op.status == Rejected && Effect(t) != [] && SameIntent(s.rows, t.rows)
  {
    RefusedThenRejected(s, now);
    var u := Next(Next(s, Act(1, Post(Delivered, false, ConstraintViolation, now))), Act(1, Receipt(now)));
    PostIsStep(u, 0, true, ConstraintViolation, now);
    PostReaches(u, 0, true, ConstraintViolation, now);
  }

  lemma RefusedThenRejected(s: System, now: Time)
    requires Safe(s) && |s.workers| >= 2 && s.workers[0] == s.workers[1] == Posting && Effect(s) == [] && !s.remembers
    requires s.rows.op.status in {Submitted, Accepted}
    ensures var u := Next(Next(s, Act(1, Post(Delivered, false, ConstraintViolation, now))), Act(1, Receipt(now)));
      && Safe(u) && u.rows.op.status == Rejected && Effect(u) == [] && SameIntent(s.rows, u.rows) && !u.remembers
      && |u.workers| >= 2 && u.workers[0] == Posting
  {
    PostReaches(s, 1, false, ConstraintViolation, now);
    PostIsStep(s, 1, false, ConstraintViolation, now);
    var t := PostStep(s, 1, Delivered, false, ConstraintViolation, now);
    var outcome := t.workers[1].outcome;
    RejectedReceiptReaches(t, 1, outcome, now);
    ReceiptIsStep(t, 1, outcome, Some(AUTHORITY), now);
    ReceiptIsOrderly(t, 1, outcome, Some(AUTHORITY), now);
  }

  /** The premise is not empty: a balanced two-line journal with two idle workers. */
  function SampleSystem(): System {
    var identity := OperationRecords.Identity("row", "tenant", "entity", "op-1", JournalPost, TigerBeetle, true, "journal",
                                              None, "USD", 1, "event", "actor");
    System(IntentRows(identity, SAMPLE_LINES, 0, map[]), [], {}, {}, false, false, [Idle, Idle])
  }

  lemma SampleIsInitial()
    ensures Initial(SampleSystem()) && !SampleSystem().remembers && |SampleSystem().workers| == 2
    ensures SampleSystem().rows.op.identity.engine == AUTHORITY && SampleSystem().rows.op.identity.engineVerified
  {
    SampleIsWellFormed();
  }
}
