/**
 A run after which a reconciled reversal has cancelled nothing.  A journal and a second one like it are posted under
 two mapping versions; the first is reversed under the version of the second, which the ledger admits because the
 second has put there what the reversal takes away.
 */
module StrayReversal {
  import opened Wrappers
  import opened Pairing
  import opened PairingLaws
  import opened JournalValidation
  import opened OperationRecords
  import opened OperationTransactions
  import opened OperationInvariant
  import opened PostgresLedger
  import Safety = PostgresLedgerSafety
  import opened Reversals
  import opened ReversalBalances

  // ----- the commands

  const KEYS := [NewKeys("row-1", "journal-1", "event-1"), NewKeys("row-2", "journal-2", "event-2"),
                 NewKeys("row-3", "journal-3", "event-3")]

  /** An open PostgreSQL entity that knows the accounts. */
  function OpenEntity(accounts: map<string, AccountType>): Environment {
    Environment(true, Some(Postgresql), Some(Configuration(true, Postgresql, "USD")), Some(Postgresql), true, None, accounts.Keys)
  }

  function PostRequest(operationId: string, version: nat, lines: seq<Line>): IntentRequest {
    IntentRequest("tenant", "entity", operationId, JournalPost, None, "USD", version, lines, "actor")
  }

  function ReverseRequest(version: nat): IntentRequest {
    IntentRequest("tenant", "entity", "op-3", JournalReverse, Some("journal-1"), "USD", version, [], "actor")
  }

  function Request(k: nat, lines: seq<Line>, v: nat, w: nat): IntentRequest
    requires k < 3
  {
    if k == 0 then PostRequest("op-1", v, lines) else if k == 1 then PostRequest("op-2", w, lines) else ReverseRequest(w)
  }

  function LinesAt(k: nat, lines: seq<Line>): seq<Line> {
    if k < 2 then lines else SwapLines(lines)
  }

  function Confirmation(k: nat, lines: seq<Line>, v: nat, w: nat, now: Time): Outcome
    requires k < 3
  {
    var identity, posted := NewIdentity(Request(k, lines, v, w), Postgresql, KEYS[k]), LinesAt(k, lines);
    AcceptedOutcome(identity.operationId, identity.mappingVersion, now, |PairsOf(posted)|, ExpectedIds(identity, posted))
  }

  /** Both journals are posted and the first is reconciled. */
  function Posting(accounts: map<string, AccountType>, lines: seq<Line>, v: nat, w: nat, now: Time): seq<Action> {
    [Create(OpenEntity(accounts), Request(0, lines, v, w), KEYS[0], now),
     Create(OpenEntity(accounts), Request(1, lines, v, w), KEYS[1], now),
     Post(0, accounts, now), Post(1, accounts, now), Write(0, Rebuild(Confirmation(0, lines, v, w, now), now))]
  }

  /** The first is reversed under the other version, and the reversal is posted and reconciled. */
  function Reversing(accounts: map<string, AccountType>, lines: seq<Line>, v: nat, w: nat, now: Time): seq<Action> {
    [Create(OpenEntity(accounts), Request(2, lines, v, w), KEYS[2], now),
     Post(2, accounts, now), Write(2, Rebuild(Confirmation(2, lines, v, w, now), now))]
  }

  // ----- the states

  /** The operation of the k-th command, with a status. */
  ghost predicate Is(entry: Stored, k: nat, lines: seq<Line>, v: nat, w: nat, status: Status)
    requires k < 3
  {
    && entry.rows.op.identity == NewIdentity(Request(k, lines, v, w), Postgresql, KEYS[k])
    && entry.rows.lines == LinesAt(k, lines) && entry.rows.op.status == status && Safety.RecordFits(entry.rows)
  }

  ghost predicate Shelf(entries: seq<Stored>, lines: seq<Line>, v: nat, w: nat, statuses: seq<Status>) {
    && |entries| == |statuses| <= 3
    && forall k | 0 <= k < |entries| :: Is(entries[k], k, lines, v, w, statuses[k])
  }

  lemma ShelfFits(entries: seq<Stored>, lines: seq<Line>, v: nat, w: nat, statuses: seq<Status>)
    requires Shelf(entries, lines, v, w, statuses)
    ensures Safety.BookFits(BookOf(entries))
  {
    forall i, j | 0 <= i < j < |entries| ensures !Safety.SameKey(BookOf(entries)[i].op.identity, BookOf(entries)[j].op.identity) {
      assert Is(entries[i], i, lines, v, w, statuses[i]) && Is(entries[j], j, lines, v, w, statuses[j]);
    }
    forall i | 0 <= i < |entries| ensures Safety.RecordFits(BookOf(entries)[i]) {
      assert Is(entries[i], i, lines, v, w, statuses[i]);
    }
  }

  /** One operation moves on. */
  lemma ShelfUpdate(entries: seq<Stored>, lines: seq<Line>, v: nat, w: nat, statuses: seq<Status>, k: nat, after: Rows)
    requires Shelf(entries, lines, v, w, statuses) && k < |entries|
    requires Safety.RecordFits(after) && SameIntent(entries[k].rows, after)
    ensures Shelf(entries[k := entries[k].(rows := after)], lines, v, w, statuses[k := after.op.status])
  {
    var next := entries[k := entries[k].(rows := after)];
    forall i | 0 <= i < |next| ensures Is(next[i], i, lines, v, w, statuses[k := after.op.status][i]) {
      assert Is(entries[i], i, lines, v, w, statuses[i]);
    }
  }

  // ----- the steps

  lemma {:induction false} CreateOrdinary(entries: seq<Stored>, accounts: map<string, AccountType>, lines: seq<Line>, v: nat, w: nat,
                       statuses: seq<Status>, now: Time)
    requires Shelf(entries, lines, v, w, statuses) && |entries| < 2
    requires WellFormed(lines) && NoSelfTransfer(lines) && forall line | line in lines :: line.account in accounts
    ensures Shelf(Step(entries, Create(OpenEntity(accounts), Request(|entries|, lines, v, w), KEYS[|entries|], now)), lines, v, w,
                  statuses + [Intent])
  {
    var k := |entries|;
    var request, environment := Request(k, lines, v, w), OpenEntity(accounts);
    NotFound(entries, lines, v, w, statuses);
    var identity := NewIdentity(request, Postgresql, KEYS[k]);
    IntentIsConsistent(identity, lines, now, map[]);
    assert Admission(environment, request).None?;
    var added := Stored(request, IntentRows(identity, lines, now, map[]));
    assert Is(added, k, lines, v, w, Intent);
    CreateAppends(entries, environment, request, KEYS[k], now, lines);
    ShelfGrows(entries, lines, v, w, statuses, added);
  }

  /** An admitted command for a new operation appends its rows. */
  lemma CreateAppends(entries: seq<Stored>, environment: Environment, request: IntentRequest, keys: NewKeys, now: Time, lines: seq<Line>)
    requires environment.authorised && environment.configuration.Some? && Admission(environment, request).None?
    requires request.operationType != JournalReverse ==> WellFormed(request.lines) && NoSelfTransfer(request.lines)
    requires FindOperation(entries, request.tenantId, request.operationId).None? && IsFresh(entries, keys)
    requires IntentLines(entries, request, environment.configuration.value.financialEngine) == Success(lines)
    requires forall line | line in lines :: line.account in environment.accounts
    requires request.sourceJournalId.Some? ==> !AlreadyReversed(entries, request.tenantId, request.sourceJournalId.value)
    ensures var identity := NewIdentity(request, environment.configuration.value.financialEngine, keys);
      Step(entries, Create(environment, request, keys, now))
        == entries + [Stored(request, IntentRows(identity, lines, now, map[]))]
  {
  }

  lemma ShelfGrows(entries: seq<Stored>, lines: seq<Line>, v: nat, w: nat, statuses: seq<Status>, added: Stored)
    requires Shelf(entries, lines, v, w, statuses) && |entries| < 3 && Is(added, |entries|, lines, v, w, Intent)
    ensures Shelf(entries + [added], lines, v, w, statuses + [Intent])
  {
  }

  /** The next command is new: operation, journal and generated keys. */
  lemma NotFound(entries: seq<Stored>, lines: seq<Line>, v: nat, w: nat, statuses: seq<Status>)
    requires Shelf(entries, lines, v, w, statuses) && |entries| < 3
    ensures FindOperation(entries, "tenant", Request(|entries|, lines, v, w).operationId).None?
    ensures IsFresh(entries, KEYS[|entries|])
  {
    forall i | 0 <= i < |entries|
      ensures entries[i].rows.op.identity.operationId != Request(|entries|, lines, v, w).operationId
      ensures entries[i].rows.op.identity.journalId != KEYS[|entries|].journalId
    {
      assert Is(entries[i], i, lines, v, w, statuses[i]);
    }
  }

  /** A post of an operation the ledger may post. */
  lemma {:induction false} PostStep(entries: seq<Stored>, accounts: map<string, AccountType>, lines: seq<Line>, v: nat, w: nat,
                 statuses: seq<Status>, k: nat, now: Time)
    requires Shelf(entries, lines, v, w, statuses) && k < |entries| && Safety.MayPost(BookOf(entries), accounts, k)
    ensures var after := Step(entries, Post(k, accounts, now));
      && Shelf(after, lines, v, w, statuses[k := Accepted]) && IsPosted(after[k].rows)
      && after == entries[k := entries[k].(rows := after[k].rows)]
      && Safety.TrueAnswer(after[k].rows, Confirmation(k, lines, v, w, now))
  {
    ShelfFits(entries, lines, v, w, statuses);
    assert Is(entries[k], k, lines, v, w, statuses[k]);
    var posted := PostedRows(entries, accounts, k, now);
    ShelfUpdate(entries, lines, v, w, statuses, k, posted);
  }

  /** What an admitted post writes. */
  lemma PostedRows(entries: seq<Stored>, accounts: map<string, AccountType>, k: nat, now: Time) returns (posted: Rows)
    requires Safety.BookFits(BookOf(entries)) && k < |entries| && Safety.MayPost(BookOf(entries), accounts, k)
    ensures Step(entries, Post(k, accounts, now)) == entries[k := entries[k].(rows := posted)]
    ensures Safety.RecordFits(posted) && SameIntent(entries[k].rows, posted) && IsPosted(posted) && posted.op.status == Accepted
    ensures Safety.TrueAnswer(posted, Acceptance(posted, posted.lines, now))
  {
    var book := BookOf(entries);
    Safety.OwnAcceptance(book, accounts, k, now);
    var after := PostJournal(book, accounts, InputOf(book[k]), now).0;
    posted := after[k];
    WithBookUpdated(entries, k, posted);
  }

  /** A rebuild from the ledger's confirmation. */
  lemma {:induction false} RebuildStep(entries: seq<Stored>, lines: seq<Line>, v: nat, w: nat, statuses: seq<Status>, k: nat, now: Time)
    requires Shelf(entries, lines, v, w, statuses) && k < |entries| && statuses[k] == Accepted
    requires Safety.TrueAnswer(entries[k].rows, Confirmation(k, lines, v, w, now))
    ensures var after := Step(entries, Write(k, Rebuild(Confirmation(k, lines, v, w, now), now)));
      && Shelf(after, lines, v, w, statuses[k := Reconciled]) && IsPosted(after[k].rows)
      && after == entries[k := entries[k].(rows := after[k].rows)]
  {
    assert Is(entries[k], k, lines, v, w, statuses[k]);
    var after := RebuiltRows(entries[k].rows, Confirmation(k, lines, v, w, now), now);
    ShelfUpdate(entries, lines, v, w, statuses, k, after);
  }

  /** What a rebuild writes. */
  lemma RebuiltRows(rows: Rows, outcome: Outcome, now: Time) returns (after: Rows)
    requires Safety.RecordFits(rows) && Safety.Ours(rows) && rows.op.status == Accepted
    requires outcome.AcceptedOutcome? && Safety.TrueAnswer(rows, outcome)
    ensures Written(rows, Rebuild(outcome, now)) == Success(after)
    ensures Safety.RecordFits(after) && SameIntent(rows, after) && IsPosted(after) && after.op.status == Reconciled
  {
    Safety.RebuildReconciles(rows, outcome, now);
    Safety.RebuildIsQuiet(rows, outcome, now);
    after := RebuildAccepted(rows, outcome, now).value;
    Safety.PostedIffAccepted(after);
  }

  /** The reversal of the reconciled first journal is created under the other version. */
  lemma {:induction false} CreateReversal(entries: seq<Stored>, accounts: map<string, AccountType>, lines: seq<Line>, v: nat, w: nat, now: Time)
    requires Shelf(entries, lines, v, w, [Reconciled, Accepted])
    requires WellFormed(lines) && NoSelfTransfer(lines) && forall line | line in lines :: line.account in accounts
    ensures var after := Step(entries, Create(OpenEntity(accounts), Request(2, lines, v, w), KEYS[2], now));
      Shelf(after, lines, v, w, [Reconciled, Accepted, Intent]) && after[..2] == entries
  {
    var request, environment := Request(2, lines, v, w), OpenEntity(accounts);
    NotFound(entries, lines, v, w, [Reconciled, Accepted]);
    ReversedLines(entries, lines, v, w);
    assert Admission(environment, request).None?;
    assert forall line | line in SwapLines(lines) :: line.account in accounts by { SwapKeepsAccounts(lines, accounts.Keys); }
    var added := Stored(request, IntentRows(NewIdentity(request, Postgresql, KEYS[2]), SwapLines(lines), now, map[]));
    ReversalIs(lines, v, w, now);
    assert Step(entries, Create(environment, request, KEYS[2], now)) == entries + [added] by {
      CreateAppends(entries, environment, request, KEYS[2], now, SwapLines(lines));
    }
    ShelfGrows(entries, lines, v, w, [Reconciled, Accepted], added);
    assert [Reconciled, Accepted] + [Intent] == [Reconciled, Accepted, Intent];
  }

  lemma ReversalIs(lines: seq<Line>, v: nat, w: nat, now: Time)
    requires WellFormed(lines) && NoSelfTransfer(lines)
    ensures var request := Request(2, lines, v, w);
      var rows := IntentRows(NewIdentity(request, Postgresql, KEYS[2]), SwapLines(lines), now, map[]);
      Is(Stored(request, rows), 2, lines, v, w, Intent)
  {
    ReversalStaysWellFormed(lines);
    IntentIsConsistent(NewIdentity(Request(2, lines, v, w), Postgresql, KEYS[2]), SwapLines(lines), now, map[]);
  }

  /** The source is ready and has no reversal yet. */
  lemma ReversedLines(entries: seq<Stored>, lines: seq<Line>, v: nat, w: nat)
    requires Shelf(entries, lines, v, w, [Reconciled, Accepted]) && WellFormed(lines) && NoSelfTransfer(lines)
    ensures IntentLines(entries, Request(2, lines, v, w), Postgresql) == Success(SwapLines(lines))
    ensures !AlreadyReversed(entries, "tenant", "journal-1")
  {
    assert Is(entries[0], 0, lines, v, w, Reconciled) && Is(entries[1], 1, lines, v, w, Accepted);
    assert FindJournal(entries, "tenant", "journal-1") == Some(0);
    assert entries[0].rows.journal.status == JournalStatus.Posted;
    ReversalStaysWellFormed(lines);
  }

  lemma SwapKeepsAccounts(lines: seq<Line>, accounts: set<string>)
    requires forall line | line in lines :: line.account in accounts
    ensures forall line | line in SwapLines(lines) :: line.account in accounts
  {
    forall line | line in SwapLines(lines) ensures line.account in accounts {
      var i :| 0 <= i < |lines| && SwapLines(lines)[i] == line;
      assert lines[i] in lines;
    }
  }

  // ----- the posts are admitted

  /** The second journal has put into the other version's scope exactly what the reversal takes out of it. */
  lemma ReversalMayPost(entries: seq<Stored>, accounts: map<string, AccountType>, lines: seq<Line>, v: nat, w: nat)
    requires Shelf(entries, lines, v, w, [Reconciled, Accepted, Intent]) && v != w
    requires forall line | line in lines :: line.account in accounts
    ensures Safety.MayPost(BookOf(entries), accounts, 2)
  {
    var book := BookOf(entries);
    assert Is(entries[0], 0, lines, v, w, Reconciled) && Is(entries[1], 1, lines, v, w, Accepted) && Is(entries[2], 2, lines, v, w, Intent);
    Safety.PostedIffAccepted(book[1]);
    SwapKeepsAccounts(lines, accounts.Keys);
    forall line | line in SwapLines(lines)
      ensures !Violates(accounts[line.account], Add(BalanceOf(book, ScopeOf(book[2]), line.account),
                                                    LinesBalance(line.account, SwapLines(lines))))
    {
      BalanceOfThree(book, ScopeOf(book[2]), line.account);
      SwappedLinesCancel(lines, line.account);
    }
  }

  lemma BalanceOfThree(book: seq<Rows>, scope: Scope, account: string)
    requires |book| == 3
    ensures BalanceOf(book, scope, account)
         == Add(Contribution(book[0], scope, account), Add(Contribution(book[1], scope, account), Contribution(book[2], scope, account)))
  {
    var parts := Contributions(book, scope, account);
    assert parts[1..][1..][1..] == [];
    assert Sum(parts[1..][1..]) == Add(parts[2], Sum([]));
    assert Sum(parts[1..]) == Add(parts[1], Sum(parts[1..][1..]));
  }

  // ----- the run

  lemma RunFirst(entries: seq<Stored>, action: Action, rest: seq<Action>)
    ensures Run(entries, [action] + rest) == Run(Step(entries, action), rest)
  {
    assert ([action] + rest)[1..] == rest;
  }

  /** Both journals stored and unposted. */
  lemma {:induction false} BothStored(accounts: map<string, AccountType>, lines: seq<Line>, v: nat, w: nat, now: Time) returns (entries: seq<Stored>)
    requires WellFormed(lines) && NoSelfTransfer(lines) && Safety.Postable(accounts, lines)
    ensures Shelf(entries, lines, v, w, [Intent, Intent])
    ensures Run([], Posting(accounts, lines, v, w, now)) == Run(entries, Posting(accounts, lines, v, w, now)[2..])
  {
    var actions := Posting(accounts, lines, v, w, now);
    CreateOrdinary([], accounts, lines, v, w, [], now);
    assert [] + [Intent] == [Intent] && [Intent] + [Intent] == [Intent, Intent];
    var first := Step([], actions[0]);
    CreateOrdinary(first, accounts, lines, v, w, [Intent], now);
    entries := Step(first, actions[1]);
    assert actions == [actions[0]] + ([actions[1]] + actions[2..]);
    RunFirst([], actions[0], [actions[1]] + actions[2..]);
    RunFirst(first, actions[1], actions[2..]);
  }

  /** Under different versions both journals are the first of their scope. */
  lemma BothMayPost(entries: seq<Stored>, accounts: map<string, AccountType>, lines: seq<Line>, v: nat, w: nat, statuses: seq<Status>, k: nat)
    requires Shelf(entries, lines, v, w, statuses) && |entries| == 2 && k < 2 && v != w && Safety.Postable(accounts, lines)
    requires statuses[k] == Intent
    ensures Safety.MayPost(BookOf(entries), accounts, k)
  {
    assert Is(entries[0], 0, lines, v, w, statuses[0]) && Is(entries[1], 1, lines, v, w, statuses[1]);
    Safety.PostedIffAccepted(entries[k].rows);
    Safety.MayPostFirst(BookOf(entries), accounts, k);
  }

  lemma {:induction false} PostingRuns(accounts: map<string, AccountType>, lines: seq<Line>, v: nat, w: nat, now: Time)
    requires WellFormed(lines) && NoSelfTransfer(lines) && Safety.Postable(accounts, lines) && v != w
    ensures Shelf(Run([], Posting(accounts, lines, v, w, now)), lines, v, w, [Reconciled, Accepted])
  {
    var actions := Posting(accounts, lines, v, w, now);
    var e2 := BothStored(accounts, lines, v, w, now);
    BothMayPost(e2, accounts, lines, v, w, [Intent, Intent], 0);
    PostStep(e2, accounts, lines, v, w, [Intent, Intent], 0, now);
    var e3 := Step(e2, actions[2]);
    assert [Intent, Intent][0 := Accepted] == [Accepted, Intent];
    BothMayPost(e3, accounts, lines, v, w, [Accepted, Intent], 1);
    PostStep(e3, accounts, lines, v, w, [Accepted, Intent], 1, now);
    var e4 := Step(e3, actions[3]);
    assert [Accepted, Intent][1 := Accepted] == [Accepted, Accepted];
    RebuildStep(e4, lines, v, w, [Accepted, Accepted], 0, now);
    assert [Accepted, Accepted][0 := Reconciled] == [Reconciled, Accepted];
    RunThree(e2, actions[2], actions[3], actions[4]);
    assert actions[2..] == [actions[2], actions[3], actions[4]];
  }

  lemma RunThree(entries: seq<Stored>, a: Action, b: Action, c: Action)
    ensures Run(entries, [a, b, c]) == Step(Step(Step(entries, a), b), c)
  {
    assert [a, b, c] == [a] + ([b] + ([c] + []));
    RunFirst(entries, a, [b] + ([c] + []));
    RunFirst(Step(entries, a), b, [c] + []);
    RunFirst(Step(Step(entries, a), b), c, []);
  }

  lemma {:induction false} ReversingRuns(entries: seq<Stored>, accounts: map<string, AccountType>, lines: seq<Line>, v: nat, w: nat, now: Time)
    requires Shelf(entries, lines, v, w, [Reconciled, Accepted]) && v != w
    requires WellFormed(lines) && NoSelfTransfer(lines) && forall line | line in lines :: line.account in accounts
    ensures Shelf(Run(entries, Reversing(accounts, lines, v, w, now)), lines, v, w, [Reconciled, Accepted, Reconciled])
  {
    var actions := Reversing(accounts, lines, v, w, now);
    CreateReversal(entries, accounts, lines, v, w, now);
    var e1 := Step(entries, actions[0]);
    ReversalMayPost(e1, accounts, lines, v, w);
    PostStep(e1, accounts, lines, v, w, [Reconciled, Accepted, Intent], 2, now);
    var e2 := Step(e1, actions[1]);
    assert [Reconciled, Accepted, Intent][2 := Accepted] == [Reconciled, Accepted, Accepted];
    RebuildStep(e2, lines, v, w, [Reconciled, Accepted, Accepted], 2, now);
    assert [Reconciled, Accepted, Accepted][2 := Reconciled] == [Reconciled, Accepted, Reconciled];
    RunThree(entries, actions[0], actions[1], actions[2]);
  }

  lemma {:induction false} RunConcat(entries: seq<Stored>, first: seq<Action>, second: seq<Action>)
    ensures Run(entries, first + second) == Run(Run(entries, first), second)
    decreases |first|
  {
    if first == [] {
      assert first + second == second;
    } else {
      assert (first + second)[1..] == first[1..] + second;
      RunConcat(Step(entries, first[0]), first[1..], second);
    }
  }

  /** Source and reversal are reconciled and posted, and the source's scope still holds all the source has moved. */
  ghost predicate Stray(entries: seq<Stored>, lines: seq<Line>) {
    && |entries| == 3 && Reverses(entries[0].rows, entries[2].rows)
    && entries[0].rows.op.status == Reconciled && entries[2].rows.op.status == Reconciled
    && IsPosted(entries[0].rows) && IsPosted(entries[2].rows)
    && (forall account :: BalanceOf(BookOf(entries), ScopeOf(entries[0].rows), account) == LinesBalance(account, lines))
    && (SelfCancelling(lines) || !LeavesNothing(BookOf(entries), 0, 2))
  }

  lemma ShelfIsStray(entries: seq<Stored>, lines: seq<Line>, v: nat, w: nat)
    requires Shelf(entries, lines, v, w, [Reconciled, Accepted, Reconciled]) && v != w
    ensures Stray(entries, lines)
  {
    assert Is(entries[0], 0, lines, v, w, Reconciled) && Is(entries[1], 1, lines, v, w, Accepted) && Is(entries[2], 2, lines, v, w, Reconciled);
    Safety.PostedIffAccepted(entries[0].rows);
    Safety.PostedIffAccepted(entries[2].rows);
    forall account ensures BalanceOf(BookOf(entries), ScopeOf(entries[0].rows), account) == LinesBalance(account, lines) {
      SourceStands(BookOf(entries), lines, account);
    }
    assert !CancelsBySource(entries[0].rows, entries[2].rows) || SelfCancelling(lines);
    LeavesNothingIff(BookOf(entries), 0, 2);
  }

  lemma SourceStands(book: seq<Rows>, lines: seq<Line>, account: string)
    requires |book| == 3 && IsPosted(book[0]) && book[0].lines == lines
    requires ScopeOf(book[1]) != ScopeOf(book[0]) && ScopeOf(book[2]) != ScopeOf(book[0])
    ensures BalanceOf(book, ScopeOf(book[0]), account) == LinesBalance(account, lines)
  {
    FirstOnly(Contributions(book, ScopeOf(book[0]), account));
  }

  lemma FirstOnly(parts: seq<Balance>)
    requires |parts| == 3 && parts[1].debits + parts[1].credits + parts[2].debits + parts[2].credits <= 0
    ensures Sum(parts) == parts[0]
  {
    assert Sum(parts[1..]).debits == 0 by { NoDebits(parts[1..]); }
    assert Sum(parts[1..]).credits == 0 by { NoCredits(parts[1..]); }
  }

  /**
   For every journal the ledger takes and any two versions there is a run of eight steps that ends with the
   source and its reversal reconciled and the source's balances untouched.
   */
  lemma ReconciledReversalCancelsNothing(accounts: map<string, AccountType>, lines: seq<Line>, v: nat, w: nat, now: Time)
    requires WellFormed(lines) && NoSelfTransfer(lines) && Safety.Postable(accounts, lines) && v != w
    ensures Stray(Run([], Posting(accounts, lines, v, w, now) + Reversing(accounts, lines, v, w, now)), lines)
  {
    RunConcat([], Posting(accounts, lines, v, w, now), Reversing(accounts, lines, v, w, now));
    PostingRuns(accounts, lines, v, w, now);
    var entries := Run([], Posting(accounts, lines, v, w, now));
    ReversingRuns(entries, accounts, lines, v, w, now);
    ShelfIsStray(Run(entries, Reversing(accounts, lines, v, w, now)), lines, v, w);
  }

  /** One such journal, which moves something. */
  lemma SampleIsStray()
    ensures var entries := Run([], Posting(Safety.SAMPLE_ACCOUNTS, SAMPLE_LINES, 1, 2, 0)
                                     + Reversing(Safety.SAMPLE_ACCOUNTS, SAMPLE_LINES, 1, 2, 0));
      Stray(entries, SAMPLE_LINES) && !LeavesNothing(BookOf(entries), 0, 2)
  {
    SampleIsWellFormed();
    Safety.SampleIsPostable();
    ReconciledReversalCancelsNothing(Safety.SAMPLE_ACCOUNTS, SAMPLE_LINES, 1, 2, 0);
    assert !MovesNothing(SAMPLE_LINES, "cash");
  }
}
