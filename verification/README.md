# Verification of RITSEI's financial core

A Dafny model of the hardest code of the RITSEI ERP and proofs about it: the durable financial-operation protocol,
its two ledgers, reversals, the engine cutover, reconciliation checkpoints, opening balances, inventory, the outbox
and three small algorithms. `dafny verify dfyconfig.toml` checks everything.

## How the model is built

A transaction of the source is one atomic step. Each is written twice: as a function on rows, about which the
properties are proved, and as a method of a class that changes its fields statement by statement and rolls back when a
statement is refused (`OperationStore`, `PostgresLedgerStore`, `Reversals.IntentStore`, `Cutover.CutoverTables`,
`InventoryStore`, `InventoryTestLayer`, `Messaging.EventMaps`), proved to do exactly what the function says. What each
function says is then stated again in the words of rows, statuses and reasons, without its name: `TransactionEffects`,
`LedgerAnswers`, `WorkerSteps`, `PostgresRecovery`, `IntentEffects`, `Cutover` and `StockEffects`. Loops of the source are
loops here. Between transactions a worker can crash, and other workers can run.

The check constraints, unique keys and update triggers of `db/schema` and `db/migrations` are part of the model, because
they decide which updates commit.

| files | what they model |
|---|---|
| Pairing, PairingLaws, JournalValidation | debit/credit pairing and journal validation |
| OperationRecords, OperationTransactions, OperationInvariant, TransferIdentities, TransactionEffects, OperationStore | the rows of one operation, the ten transactions on them, what each leaves behind and the invariant they keep |
| ExternalLedger, LedgerAnswers, Protocol, ProtocolSafety, ProtocolTheorems, WorkerSteps, SingleWorker, Recovery, FirstAttempt, CalmRuns, ProjectionRebuild, SubmitOperation | the submission protocol against an external ledger that loses requests and responses |
| PostgresLedger, PostgresLedgerSafety, PostgresRecovery, PostgresLedgerStore, LedgerViews | the PostgreSQL ledger, what it refuses and how it recovers, and its agreement with a transfer ledger |
| Reversals, IntentEffects, ReversalBalances, StrayReversal | intents and reversals: when they are stored, and when a reversal cancels its source |
| Cutover | prepare, approve and activate |
| FactSnapshots, Checkpoint, OpeningBalances | reconciliation checkpoints and opening-balance verification |
| Inventory, InventoryInvariant, StockEffects, InventoryStore, InventoryTestLayer | the stock machine, what each command does to it, and its in-memory twin |
| Messaging, DependencyCycles, FinancialAmount, MigrationCatalog, StringOrder | outbox consumers, package cycles, amounts, migration history |

## Assumptions

- Transfer identities are injective in mapping version, tenant, entity, operation and index; they are a datatype here and a
  digest or joined string in the source.
- Journal lines are read back in insertion order, since the pairs depend on it.
- The external ledger applies a linked batch completely or not at all, answers equal transfers as existing, and names the
  operation it was asked about. It may lose any request or response. Whether it keeps refusing what it once refused is a
  parameter.
- Generated identifiers are new. Timestamps are numbers.

## What the proofs found

- Database triggers make `rejected` and `manual_recovery` final for any number of workers, although `writeReceipt` itself
  protects only `accepted` and `reconciled` (packages/accounting/src/financial-operations.ts:1041-1046): `unknown`,
  `rejected` and fenced rows do not move to another outcome. `ProtocolTheorems.FinalStatesAbsorb`.
- "Rejected implies not posted" needs one worker or a ledger that keeps refusing. With two workers and a ledger that admits
  what it refused before, every intent has a run that ends rejected and posted. `SingleWorker.InterleavedRejectionCanBePosted`
  is the run, `SingleWorker.LostResponseIsNeverARejection` and `ProtocolTheorems.RejectedMeansNotPosted` are the two
  conditions.
- A reconciled reversal need not cancel its source. Balances are kept per mapping version, the reversal's version is a free
  input (packages/accounting/src/financial-operations.ts:248) and the source check does not compare it (2621-2657). The pair
  cancels if and only if both versions are equal or the source moves nothing by itself: `ReversalBalances.ReversalsCancel`.
  `StrayReversal.ReconciledReversalCancelsNothing` is a run for every journal the PostgreSQL ledger takes.
- Under the PostgreSQL ledger, finalisation never commits. Acceptance posts the journal
  (packages/accounting/src/postgresql-ledger.ts:551-565), finalisation writes the journal again, and posted journals are
  immutable (db/migrations/20260817040919_accounting_balance_immutability/migration.sql:84-100). The operation stays
  accepted until a rebuild reconciles it, and a reversal or a cutover approval has to wait for that rebuild.
  `PostgresLedgerSafety.FinalizationIsRefused` is the run, `PostgresLedgerSafety.AcceptedUntilRebuilt` and
  `PostgresLedgerSafety.RebuildReconciles` say how it goes on; the exact condition for any operation is
  `OperationInvariant.FinalizeCommitsIffDraft`.
- Once one applied migration has no name, an accepted history may have gaps: `MigrationCatalog.UnnamedHistoryMayHaveGaps`. It
  has none exactly when `MigrationCatalog.AcceptedIsPrefixIffFilled` says so; with every name recorded that always holds,
  `MigrationCatalog.AcceptsIffPrefix`.
- The total check of `verifyOpeningBalances` never decides. `OpeningBalances.MatchedTotals`.
- The last guards of stock release and fulfilment are unreachable. `InventoryInvariant.GuardsUnreachable`.

## Model

| member | source | states |
|---|---|---|
| `Pairing.PairTransfers` | packages/accounting/src/financial-operations.ts:773-870 | The two-scalar pairing loop terminates for every line list and numbers exactly the pairs of the greedy specification; the two copies in this file share this shape |
| `Pairing.PairLines` | packages/accounting/src/postgresql-ledger.ts:84-109 | The in-place pairing loop yields the same pairs, in the same order, for every line list |
| `Pairing.CountTransfers` | packages/accounting/src/financial-ledger.ts:191-215 | The counting loop of the test ledger yields as many identities as there are pairs |
| `PairingLaws.PairUpConserves` | packages/kernel/src/tigerbeetle.ts:344-369 | Every amount is positive, the total paired is the smaller of both sides, and there are at most debits + credits - 1 pairs |
| `PairingLaws.PairUpConservesAccounts` | packages/kernel/src/tigerbeetle.ts:344-369 | The side that is not larger is moved completely, account by account |
| `PairingLaws.PairUpIsOverlap` | packages/kernel/src/tigerbeetle.ts:344-369 | Closed form: entries i and j exchange exactly the overlap of the intervals they occupy, so order and partial spending are fixed without reference to the loop |
| `PairingLaws.PairUpIsParametric` | packages/kernel/src/tigerbeetle.ts:344-369 | The loop never looks at accounts: renaming before or after pairing is the same |
| `PairingLaws.JournalPairsAreOverlaps` | packages/kernel/src/tigerbeetle.ts:344-369 | The closed form for journals in which accounts repeat |
| `PairingLaws.BalancedJournalKeepsAccounts` | packages/kernel/src/tigerbeetle.ts:475-511 | In a balanced journal the transfers give each account exactly the debits and credits of its lines |
| `PairingLaws.ReversalFlipsPairs` | packages/accounting/src/financial-operations.ts:2667-2679 | Pairing the swapped lines gives the same pairs with debit and credit exchanged |
| `JournalValidation.ValidateLines` | packages/accounting/src/financial-operations.ts:735-771 | Accepts exactly the balanced, one-sided journals within the ledger limit and names the first offending line |
| `JournalValidation.ValidateJournal` | packages/accounting/src/postgresql-ledger.ts:111-137 | The ledgers' validation loop decides as specified, limit checks included |
| `JournalValidation.ValidationsAgree` | packages/kernel/src/tigerbeetle.ts:310-342 | Intent validation and ledger validation accept the same journals, so a stored intent is never refused as invalid or unbalanced |
| `JournalValidation.VerdictMeans` | packages/kernel/src/tigerbeetle.ts:310-342 | The ledgers' verdict is invalid amount exactly for two or more lines with an unsound one or a total past the limit, and unbalanced exactly for fewer than two lines or unequal totals |
| `JournalValidation.ReversalStaysWellFormed` | packages/accounting/src/financial-operations.ts:2667-2679 | Swapping sides keeps validity and the absence of self-transfers, in both directions |
| `OperationRecords.AppendEventKeepsKeys` | packages/messaging/src/service.ts:224-274 | An append keeps both unique keys of the outbox, keeps every stored event, and repeating it changes nothing |
| `OperationRecords.AppendedIff` | packages/messaging/src/service.ts:224-274 | An event is taken if and only if nothing else is stored under its id or under its type and idempotency key |
| `OperationRecords.TriggersHoldFast` | db/migrations/20260819014358_allow_financial_transfer_quarantine/migration.sql:6-40 | What no writer gets past the update triggers: final statuses, and a row's accounts, amount, identity and settled status |
| `OperationInvariant.IntentIsConsistent` | packages/accounting/src/financial-operations.ts:2695-2757 | A stored intent satisfies the record invariant |
| `OperationInvariant.BeginSubmissionKeeps` | packages/accounting/src/financial-operations.ts:2128-2253 | The submission transaction keeps the invariant and proceeds only with a submitted or accepted operation; when it proceeds is stated by `TransactionEffects.FirstAttemptIsGated` and `TransactionEffects.RetryIsNotGated` |
| `OperationInvariant.DeferBlockedKeeps` | packages/accounting/src/financial-operations.ts:2266-2283 | Putting a blocked submission off keeps the invariant |
| `OperationInvariant.PersistIdentitiesKeeps` | packages/accounting/src/financial-operations.ts:2353-2400 | Writing identities keeps the invariant and the operation row, whatever list is written |
| `OperationInvariant.FenceKeeps` | packages/accounting/src/financial-operations.ts:1320-1353 | Fencing an operation for manual recovery keeps the invariant and commits exactly when it was not rejected and its metadata fit |
| `OperationInvariant.WriteReceiptKeeps` | packages/accounting/src/financial-operations.ts:1000-1203 | Whatever outcome is receipted, status, metadata, rows, journal and event stay consistent; what each outcome records is stated by the receipt lemmas of `TransactionEffects` |
| `OperationInvariant.FinalizeAcceptedKeeps` | packages/accounting/src/financial-operations.ts:923-998 | Finalisation keeps the invariant: a reconciled operation has a posted journal, accepted rows and its own event |
| `OperationInvariant.FinalizeCommitsIffDraft` | packages/accounting/src/financial-operations.ts:923-998 | Finalisation of an accepted operation commits exactly when its journal is still a draft |
| `OperationInvariant.QuarantineKeeps` | packages/accounting/src/financial-operations.ts:1318-1353 | Quarantine keeps the invariant and commits exactly when the operation is not rejected |
| `OperationInvariant.RebuildAcceptedKeeps` | packages/accounting/src/financial-operations.ts:1205-1316 | Rebuilding keeps the invariant for any accepted answer of the right length |
| `OperationInvariant.AcceptInPostgresqlKeeps` | packages/accounting/src/postgresql-ledger.ts:517-585 | The accepting transaction of the PostgreSQL ledger keeps the invariant and posts the journal |
| `TransactionEffects.FirstAttemptIsGated` | packages/accounting/src/financial-operations.ts:2196-2253 | An intent on its own verified engine becomes submitted if and only if posting is enabled, the period is open and the configured engine is the operation's; otherwise nothing is written, and it is put off exactly when the engine is right and a gate is shut |
| `TransactionEffects.RetryIsNotGated` | packages/accounting/src/financial-operations.ts:2149-2181 | A later attempt or a reconcile job goes on to a lookup whatever is configured, and marks an intent or unknown operation submitted once more |
| `TransactionEffects.OthersAreTurnedAway` | packages/accounting/src/financial-operations.ts:2112-2148 | A final operation is left alone and another ledger's is turned away, with nothing written |
| `TransactionEffects.PutOffMeans` | packages/accounting/src/financial-operations.ts:2266-2283 | Putting off reschedules by five seconds, says why, and changes nothing else |
| `TransactionEffects.IdentifyingMeans` | packages/accounting/src/financial-operations.ts:2353-2400 | Identities are stored on every row exactly when the list has one per pair and contradicts none that is stored; otherwise nothing is written |
| `TransactionEffects.UnknownReceiptMeans` | packages/accounting/src/financial-operations.ts:1147-1195 | A lost response leaves the operation unknown, without reasons, its rows unresolved, to be tried again five seconds later |
| `TransactionEffects.RejectedReceiptMeans` | packages/accounting/src/financial-operations.ts:1147-1185 | A refusal leaves operation and rows rejected, with the ledger's own reason and no other |
| `TransactionEffects.ManualReceiptMeans` | packages/accounting/src/financial-operations.ts:1147-1185 | An outcome for the operators fences operation and rows, with its own reason and no other |
| `TransactionEffects.AcceptedReceiptMeans` | packages/accounting/src/financial-operations.ts:1109-1145 | An acceptance under the expected identities is recorded with the ledger's time, and every row gets the identity of its position |
| `TransactionEffects.ContradictingReceiptMeans` | packages/accounting/src/financial-operations.ts:1048-1108 | An acceptance of another version, count or identity than stored, or with a repeated identity, fences operation and rows as a mapping mismatch |
| `TransactionEffects.ForeignReceiptMeans` | packages/accounting/src/financial-operations.ts:1010-1040 | An outcome that names another operation fences this one, unless it was rejected |
| `TransactionEffects.FinalizingMeans` | packages/accounting/src/financial-operations.ts:923-998 | Finalising an accepted draft: reconciled, posted, all rows accepted at the ledger's time and exactly its event published, all as of now |
| `TransactionEffects.RebuildingMeans` | packages/accounting/src/financial-operations.ts:1205-1316 | Rebuilding an accepted operation: reconciled as of now, under the times and identities the ledger gave, with its event published |
| `TransactionEffects.RebuildingOthersMeans` | packages/accounting/src/financial-operations.ts:1990-2030 | A rebuild that finds the operation no longer accepted only puts its lost rows back, unresolved |
| `TransactionEffects.ConflictingEventStops` | packages/accounting/src/financial-operations.ts:2024-2040 | With another event under its keys neither finalisation nor rebuild writes anything |
| `TransactionEffects.QuarantiningMeans` | packages/accounting/src/financial-operations.ts:1318-1353 | Quarantine fences operation and rows with their reason and leaves journal and outbox as they are |
| `TransactionEffects.AcceptingMeans` | packages/accounting/src/postgresql-ledger.ts:517-585 | Acceptance by the PostgreSQL ledger leaves the operation accepted, the journal posted and every row accepted under its identity, all as of now |
| `TransferIdentities.PersistedIds` | packages/accounting/src/financial-operations.ts:2353-2400 | Expected identities are always accepted and afterwards stored on every row |
| `TransferIdentities.ReceiptKeepsIds` | packages/accounting/src/financial-operations.ts:1000-1203 | A receipt never changes stored identities, and records acceptance only from submitted or accepted; the other outcomes are stated by `TransactionEffects.UnknownReceiptMeans`, `RejectedReceiptMeans` and `ManualReceiptMeans` |
| `OperationStore.OperationTables.constructor` | packages/accounting/src/financial-operations.ts:2695-2757 | The inserts of an intent give the specified rows |
| `OperationStore.OperationTables.BeginSubmission` | packages/accounting/src/financial-operations.ts:2128-2253 | The transaction in place commits exactly the function that `TransactionEffects.FirstAttemptIsGated` ties to the three gates, or changes nothing; keeps the record invariant |
| `OperationStore.OperationTables.DeferBlocked` | packages/accounting/src/financial-operations.ts:2266-2283 | The statement in place commits exactly its specification; keeps the record invariant |
| `OperationStore.OperationTables.PersistIdentities` | packages/accounting/src/financial-operations.ts:2353-2400 | The row-by-row loop commits exactly its specification or changes nothing; keeps the record invariant |
| `OperationStore.OperationTables.Fence` | packages/accounting/src/financial-operations.ts:1318-1353 | Operation and rows are fenced together or not at all |
| `OperationStore.OperationTables.WriteReceipt` | packages/accounting/src/financial-operations.ts:1000-1203 | The branches of the receipt transaction commit exactly the function whose outcomes `TransactionEffects` states one by one, or change nothing; keeps the record invariant |
| `OperationStore.OperationTables.FinalizeAccepted` | packages/accounting/src/financial-operations.ts:923-998 | Status, journal, rows and event commit together or not at all; keeps the record invariant |
| `OperationStore.OperationTables.RebuildProjection` | packages/accounting/src/financial-operations.ts:1205-1316 | The rebuild transaction commits exactly its specification or changes nothing |
| `OperationStore.OperationTables.RebuildAccepted` | packages/accounting/src/financial-operations.ts:1990-2030 | Inserting lost rows and rebuilding commit together or not at all; keeps the record invariant |
| `OperationStore.OperationTables.Quarantine` | packages/accounting/src/financial-operations.ts:1318-1353 | The quarantine transaction commits exactly its specification or changes nothing; keeps the record invariant |
| `ExternalLedger.LookupFindsApplied` | packages/kernel/src/tigerbeetle.ts:551-658 | A lookup by identities finds exactly what was applied of the operation |
| `LedgerAnswers.StatusesMean` | packages/kernel/src/tigerbeetle.ts:512-549 | A missing or short answer is unknown, a transfer with other contents is a conflicting replay, otherwise the first refusal decides, and none means accepted under exactly the expected identities and no earlier than any of them |
| `LedgerAnswers.UnsoundIsNotSent` | packages/kernel/src/tigerbeetle.ts:462-474 | An unsound journal is refused without being sent, and by a lookup in the same words |
| `LedgerAnswers.ContradictionIsManual` | packages/kernel/src/tigerbeetle.ts:604-645 | A journal the ledger knows with other contents: the post appends nothing and is a conflicting replay, the lookup is a mapping mismatch |
| `LedgerAnswers.NewJournalIsAppended` | packages/kernel/src/tigerbeetle.ts:475-549 | A journal the ledger knows nothing of is not found; it is appended whole, transfer by transfer, when admitted, and refused with the ledger's reason otherwise |
| `LedgerAnswers.SilenceIsUnknown` | packages/kernel/src/tigerbeetle.ts:512-522 | A lost request reaches nothing, a lost response changes nothing about what was applied, and neither they nor an unavailable ledger is ever a refusal |
| `ProtocolSafety.LookupIsTruthful` | packages/kernel/src/tigerbeetle.ts:551-658 | In a safe state a lookup answers accepted, with the expected identities, exactly when the journal was applied, and not found otherwise |
| `ProtocolSafety.PostIsTruthful` | packages/kernel/src/tigerbeetle.ts:453-549 | In a safe state a post applies the journal at most once and an acceptance is true; a lost response is answered unknown |
| `ProtocolSafety.TrueAcceptanceMatches` | packages/accounting/src/financial-operations.ts:1048-1108 | A true acceptance passes the receipt's mapping check, so the mapping_mismatch branches are never taken |
| `ProtocolSafety.StepIsSafe` | packages/accounting/src/financial-operations.ts:2073-2435 | Every step of a worker, crash included, keeps the safety invariant of record, ledger and workers |
| `WorkerSteps.ProvisioningMeans` | packages/accounting/src/financial-operations.ts:2302-2333 | What each account answer makes of the attempt: passed over, unknown, rejected with its reason, or left to the operators with theirs |
| `WorkerSteps.IdentifyStepMeans` | packages/accounting/src/financial-operations.ts:2353-2409 | A lookup or a post is next exactly when the identities contradict nothing stored; otherwise the attempt ends as a mapping mismatch |
| `WorkerSteps.LookupStepMeans` | packages/accounting/src/financial-operations.ts:2411-2417 | Only a journal the ledger does not know is posted: an unreachable ledger ends the attempt as unknown, a contradicting one as a mismatch |
| `WorkerSteps.PostStepMeans` | packages/accounting/src/financial-operations.ts:2411-2417 | A lost response ends the attempt as unknown, a contradiction as a conflicting replay, with nothing appended |
| `WorkerSteps.ClaimedAcceptance` | packages/accounting/src/financial-operations.ts:2418-2430 | An acceptance is passed on exactly when it names the expected identities |
| `WorkerSteps.RebuildStartsIff` | packages/accounting/src/financial-operations.ts:1914-1924 | A rebuild takes up exactly the accepted and reconciled operations of the ledger at hand |
| `WorkerSteps.RebuildLookupMeans` | packages/accounting/src/financial-operations.ts:2044-2062 | A ledger that is unreachable or does not know the journal leaves the projection, one that contradicts it quarantines it |
| `WorkerSteps.RebuildCheckMeans` | packages/accounting/src/financial-operations.ts:1953-2007 | The ledger's answer is used exactly when it names the expected identities and every row left is part of the expected projection; otherwise the projection is quarantined |
| `WorkerSteps.ConflictQuarantines` | packages/accounting/src/financial-operations.ts:2034-2042 | A rebuild that meets another event is quarantined with nothing written |
| `WorkerSteps.FencingMeans` | packages/accounting/src/financial-operations.ts:1318-1353 | A quarantined projection is fenced and the ledger keeps what it has |
| `ProtocolSafety.RunIsSafe` | packages/accounting/src/financial-operations.ts:2073-2435 | Every interleaving of workers, crashes, lost responses, rebuilds and foreign traffic is safe |
| `ProtocolTheorems.FinalStatesAbsorb` | db/migrations/20260819012700_protect_financial_reconciled_event_identity/migration.sql:1-50 | Rejected and fenced operations keep their status for ever and a reconciled one can only be fenced, for any number of workers |
| `ProtocolTheorems.EffectIsLinesOnce` | packages/kernel/src/tigerbeetle.ts:475-511 | The ledger effect of an operation is nothing or, account by account, exactly its journal lines once |
| `ProtocolTheorems.PostedAtMostOnce` | packages/accounting/src/financial-operations.ts:2073-2435 | Over every interleaving the effect is nothing or the journal exactly once, and accepted or reconciled implies applied |
| `ProtocolTheorems.RejectedMeansNotPosted` | packages/accounting/src/financial-operations.ts:2073-2435 | With a ledger that keeps refusing what it refused, rejected implies not applied, for any number of workers |
| `SingleWorker.LostResponseIsNeverARejection` | packages/accounting/src/financial-operations.ts:2073-2435 | With one worker and any crashes, rejected implies nothing applied and reconciled implies everything applied |
| `SingleWorker.InterleavedRejectionCanBePosted` | packages/accounting/src/financial-operations.ts:2073-2435 | With two workers and a ledger that may admit what it refused, every intent has a run ending rejected and applied |
| `SingleWorker.SampleIsInitial` | packages/accounting/src/financial-operations.ts:2695-2757 | A concrete two-worker state satisfies the premises of that counterexample |
| `Recovery.RecoverySettles` | packages/accounting/src/financial-operations.ts:2149-2434 | From every reachable non-final state, also after a refused account, one undisturbed reconcile run ends reconciled exactly when the ledger had applied the journal or now accepts all its accounts and the batch, and rejected otherwise; what was applied stays, with the expected identities, and manual recovery is never entered |
| `FirstAttempt.ShutGatePutsOff` | packages/accounting/src/financial-operations.ts:2215-2283 | With posting disabled or the period closed the whole command only reschedules the operation; ledger, rows and journal are untouched |
| `FirstAttempt.ChangedRoutingFences` | packages/accounting/src/financial-operations.ts:2203-2264 | When the configuration names another engine the command fences the operation, and nothing reaches the ledger |
| `FirstAttempt.DenialFences` | packages/accounting/src/financial-operations.ts:2086-2108 | A denied authorisation fences any unposted operation before anything else is read, and nothing reaches the ledger |
| `FirstAttempt.UndecidedLeaves` | packages/accounting/src/financial-operations.ts:2097-2108 | An authorisation that could not be decided leaves everything as it was |
| `FirstAttempt.OpenGatesSettle` | packages/accounting/src/financial-operations.ts:2073-2435 | With open gates and nothing disturbed a first attempt ends reconciled and applied exactly when the ledger takes its accounts and its batch, and rejected and not applied otherwise |
| `CalmRuns.NothingLosesAnOperation` | packages/accounting/src/financial-operations.ts:2073-2435 | In every run without a refusal, however many requests and responses are lost, gates shut, workers crash or rebuild, the operation is open or reconciled and carries no reason |
| `CalmRuns.LostResponsesAreRecovered` | packages/accounting/src/financial-operations.ts:2149-2434 | After any such run one undisturbed reconcile run reconciles the operation, and the ledger holds its transfers exactly once |
| `ProjectionRebuild.RebuildAgreesWithFinalization` | packages/accounting/src/financial-operations.ts:1903-2071 | A rebuild reaches exactly the record that finalisation reaches, even when transfer rows have been lost |
| `ProjectionRebuild.FinalizationCompletes` | packages/accounting/src/financial-operations.ts:923-998 | Finalising an accepted operation of an honest external ledger commits and leaves the projection complete |
| `ProjectionRebuild.RebuildSettles` | packages/accounting/src/financial-operations.ts:1205-1316 | A further rebuild changes nothing and quarantines nothing, and restores exactly the rows lost since |
| `SubmitOperation.LedgerPort.PostJournal` | packages/kernel/src/tigerbeetle.ts:453-549 | The posting loop and its decisions change the log as specified |
| `SubmitOperation.LedgerPort.ReconcileJournal` | packages/kernel/src/tigerbeetle.ts:551-658 | The lookup comparison decides as specified |
| `SubmitOperation.LedgerPort.CreateExecutionAccount` | packages/kernel/src/tigerbeetle.ts:380-451 | Account provisioning answers as specified and remembers accepted accounts |
| `SubmitOperation.Submit` | packages/accounting/src/financial-operations.ts:2073-2435 | The whole command is the uninterrupted run of one worker.  On a fresh intent of this ledger a shut gate leaves the ledger log alone and the operation an intent put off by five seconds; a changed engine or a denial fences it and leaves the log alone; with open gates and nothing disturbed it ends reconciled with its transfers in the log, or rejected with none |
| `SubmitOperation.Reconcile` | packages/accounting/src/financial-operations.ts:2073-2435 | Run undisturbed from any recoverable state, the command ends the operation as the recovery theorem says, refused accounts included |
| `PostgresLedger.LinesBalanceIgnoresOrder` | packages/accounting/src/postgresql-ledger.ts:251-278 | Journals that match up to order move the same amounts on every account |
| `PostgresLedgerSafety.AcceptedPost` | packages/accounting/src/postgresql-ledger.ts:402-594 | A post that passes the checks always commits, so unknown answers come only from database faults |
| `PostgresLedgerSafety.PostJournalKeeps` | packages/accounting/src/postgresql-ledger.ts:402-594 | A post of any journal by anyone keeps records, answers and balance constraints |
| `PostgresLedgerSafety.LedgerIsSafe` | packages/accounting/src/postgresql-ledger.ts:481-515 | In every reachable state no account of any scope stands on its forbidden side and debits equal credits |
| `PostgresLedgerSafety.ReplayChangesNothing` | packages/accounting/src/postgresql-ledger.ts:447-449 | Posting an accepted operation again changes no row and repeats the first answer |
| `PostgresLedgerSafety.OwnLookup` | packages/accounting/src/postgresql-ledger.ts:602-683 | A lookup of an accepted operation is accepted exactly when all its rows are |
| `PostgresLedgerSafety.OwnLookupUnsettled` | packages/accounting/src/postgresql-ledger.ts:615-643 | The lookup of an own operation is not found if and only if it is an intent, submitted or unknown, and rejected if and only if it is stored as rejected, with the stored reason |
| `PostgresLedgerSafety.ForeignLookup` | packages/accounting/src/postgresql-ledger.ts:615-622 | Another engine's operation is never found here: the lookup is a mapping mismatch |
| `PostgresLedgerSafety.FinalizationNeverCommits` | packages/accounting/src/financial-operations.ts:923-998 | After acceptance by the PostgreSQL ledger finalisation always fails, because the posted journal is immutable |
| `PostgresLedgerSafety.FinalizationIsRefused` | packages/accounting/src/financial-operations.ts:923-998 | Every journal the ledger takes has a run of create, begin, identify and post to an accepted operation that finalisation cannot move |
| `PostgresLedgerSafety.AcceptedUntilRebuilt` | packages/accounting/src/financial-operations.ts:1041-1203 | Over every run an accepted operation of this ledger stays accepted until it is rebuilt, whatever is posted, receipted, denied or finalised |
| `PostgresLedgerSafety.SampleIsPostable` | packages/accounting/src/financial-operations.ts:2695-2757 | A concrete journal satisfies the premises of that run |
| `PostgresLedgerSafety.RebuildReconciles` | packages/accounting/src/financial-operations.ts:1205-1316 | A rebuild from the ledger's own acceptance reconciles such an operation |
| `PostgresRecovery.OwnDecisionReasons` | packages/accounting/src/postgresql-ledger.ts:447-515 | What a post decides about an own journal: by the stored status, then unknown accounts as invalid account, then an account left on its forbidden side as constraint violation, then accepted |
| `PostgresRecovery.UnknownOperationIsRefused` | packages/accounting/src/postgresql-ledger.ts:419-426 | A journal nobody stored is a mapping mismatch to a post and not found to a lookup |
| `PostgresRecovery.MismatchIsManual` | packages/accounting/src/postgresql-ledger.ts:419-426 | An input that differs in engine, entity, journal, currency or version from what is stored is a mapping mismatch to post and lookup |
| `PostgresRecovery.OtherLinesConflict` | packages/accounting/src/postgresql-ledger.ts:427-438 | The stored operation asked for with other lines is a conflicting replay |
| `PostgresRecovery.ReorderedLinesConflict` | packages/accounting/src/postgresql-ledger.ts:427-449 | The same lines in another order are taken for the stored journal exactly when they pair into the same transfers |
| `PostgresRecovery.DraftIsNotConfirmed` | packages/accounting/src/postgresql-ledger.ts:664-682 | An operation called accepted whose journal is still a draft is not confirmed |
| `PostgresRecovery.ContributionMeans` | packages/accounting/src/postgresql-ledger.ts:280-317 | An operation contributes exactly its lines when it is this ledger's, accepted or reconciled, posted, and of the scope's entity, currency and version |
| `PostgresRecovery.BalanceGrows` | packages/accounting/src/postgresql-ledger.ts:319-335 | A balance starts at nothing and every operation adds what it contributes |
| `PostgresRecovery.FoundRefusalsAreStored` | packages/accounting/src/postgresql-ledger.ts:623-632 | Over every run a lookup reports a refusal only of an operation that is stored as rejected from then on, with a draft journal and no part in any balance |
| `PostgresRecovery.RecoverySettles` | packages/accounting/src/postgresql-ledger.ts:402-683 | From intent, submitted or unknown: the lookup answers not found, and post and receipt leave the operation accepted and posted exactly when its accounts are known and none would be overdrawn, and otherwise rejected with the reason |
| `PostgresRecovery.RebuildFinds` | packages/accounting/src/financial-operations.ts:1903-2071 | An accepted operation with intact rows is confirmed by its lookup and its rebuild reconciles it, touching no other |
| `LedgerViews.LogSplits` | packages/kernel/src/tigerbeetle.ts:475-511 | A scope's balance in a transfer log is the sum of what its operations have been applied with, however their transfers interleave |
| `LedgerViews.LedgerViewsAgree` | packages/accounting/src/postgresql-ledger.ts:319-335 | For a log that holds the posted operations of a scope once each in any order and interleaving, transfer-derived and line-derived balances are equal account by account |
| `LedgerViews.PostedTogether` | packages/accounting/src/postgresql-ledger.ts:517-585 | Posting an operation in the book and applying its batch to a transfer log keeps the two ledgers in step, so the premise of the agreement is kept post by post |
| `PostgresLedgerStore.BalancesFrom` | packages/accounting/src/postgresql-ledger.ts:319-335 | The fold gives each account the sum of its lines |
| `PostgresLedgerStore.PostedLinesBalance` | packages/accounting/src/postgresql-ledger.ts:280-317 | Folding the selected posted lines gives the balance over the posted operations of the scope |
| `PostgresLedgerStore.OverdrawsByAccount` | packages/accounting/src/postgresql-ledger.ts:498-515 | Checking each distinct account once decides whether any line's account is overdrawn |
| `PostgresLedgerStore.AcceptOperation` | packages/accounting/src/postgresql-ledger.ts:517-585 | The updates of the accepting transaction commit exactly their specification or fail with the first refusal |
| `PostgresLedgerStore.PostgresqlFinancialLedger.PostJournal` | packages/accounting/src/postgresql-ledger.ts:402-594 | The posting method changes the book and answers exactly as specified |
| `PostgresLedgerStore.PostgresqlFinancialLedger.ReconcileJournal` | packages/accounting/src/postgresql-ledger.ts:602-683 | The lookup method answers exactly the function that `PostgresLedgerSafety.OwnLookup` and `OwnLookupUnsettled` tie to the stored status |
| `PostgresLedgerStore.PostgresqlFinancialLedger.GetBalance` | packages/accounting/src/postgresql-ledger.ts:690-726 | Reports the balance of a known account and nothing for an unknown one |
| `Reversals.CheckLines` | packages/accounting/src/financial-operations.ts:2450-2458 | Line validation and the search for self-transfers accept exactly the storable journals |
| `Reversals.IntentStore.CreateJournalIntent` | packages/accounting/src/financial-operations.ts:2437-2829 | The intent command stores exactly the specified operation, returns a repeated one, or refuses with the specified error |
| `Reversals.ReversalHasSource` | packages/accounting/src/financial-operations.ts:2586-2679 | In every reachable state a reversal has a source that is no reversal and is its only reversal, and its pairs are the source's turned round |
| `Reversals.MappingVersionIsFree` | packages/accounting/src/financial-operations.ts:2621-2657 | A command for a new operation that is accepted is accepted under every mapping version: nothing compares a reversal's version with its source's |
| `Reversals.WritersEvolve` | packages/accounting/src/financial-operations.ts:923-1353 | Every transaction on a stored operation keeps its intent and the record invariant |
| `ReversalBalances.LeavesNothingIff` | packages/accounting/src/postgresql-ledger.ts:280-317 | Posting source and reversal leaves every account's net balance in every scope where it was if and only if the mapping versions are equal or the source nets to zero on every account by itself |
| `ReversalBalances.LogPairCancelsIff` | packages/kernel/src/tigerbeetle.ts:475-511 | The same condition, both ways, for what a transfer ledger has applied of the two |
| `ReversalBalances.ReversalsCancel` | packages/accounting/src/financial-operations.ts:2586-2679 | In every reachable state a stored reversal has a sole ordinary source, and the pair cancels in the PostgreSQL book and in any transfer log exactly under that condition |
| `StrayReversal.ReconciledReversalCancelsNothing` | packages/accounting/src/financial-operations.ts:2621-2657 | For every journal the ledger takes and any two versions there is a run that ends with source and reversal reconciled and the source's balances untouched |
| `StrayReversal.SampleIsStray` | packages/accounting/src/financial-operations.ts:2621-2657 | One concrete run of this kind, with a journal that moves something |
| `Reversals.SecondReversalRefused` | packages/accounting/src/financial-operations.ts:2813-2825 | A second reversal of a journal and a reversal of a reversal are refused |
| `Reversals.ReadySourceCanBeReversed` | packages/accounting/src/financial-operations.ts:2597-2679 | The reversal of an ordinary journal is refused only when the source is not posted or not ready |
| `IntentEffects.OrdinaryIntentStoredIff` | packages/accounting/src/financial-operations.ts:2437-2693 | A new intent without a source is stored if and only if it is authorised, sound, activated, in the base currency, within open gates, of the right shape and on known accounts |
| `IntentEffects.ReversalStoredIff` | packages/accounting/src/financial-operations.ts:2586-2693 | A new reversal is stored if and only if, besides that, its source is a reconciled operation with a posted journal of the same tenant, entity, currency and verified engine, and nothing reverses it yet |
| `IntentEffects.StoredMeans` | packages/accounting/src/financial-operations.ts:2695-2829 | What is stored: exactly one operation, the request's, for the configured engine, with its own lines or a reconciled and posted source's turned round, one unresolved row per pair and a draft journal |
| `IntentEffects.RunKeepsKeys` | packages/accounting/src/financial-operations.ts:2470-2490 | Over every run a tenant's operation key names one operation |
| `IntentEffects.RepeatedIntentMeans` | packages/accounting/src/financial-operations.ts:2480-2490 | A command repeated unchanged returns what is stored, with another content it conflicts, and neither changes anything |
| `IntentEffects.RefusalReasons` | packages/accounting/src/financial-operations.ts:2450-2596 | Which reason a new intent is refused for, in the order in which the reasons are looked for |
| `IntentEffects.ReversalRefusals` | packages/accounting/src/financial-operations.ts:2610-2693 | Which reason an admissible reversal is refused for |
| `Cutover.StepKeeps` | packages/accounting/src/service.ts:931-1408 | Every command, activation half-step and operation write keeps the cutover invariant |
| `Cutover.ControlGoesForward` | db/migrations/20260817121245_tigerbeetle_controlled_activation/migration.sql:91-134 | A control never goes back, skips neither approval nor activation, and is verified from its approval on |
| `Cutover.EngineRouteIff` | db/migrations/20260817121245_tigerbeetle_controlled_activation/migration.sql:136-164 | The configured engine changes exactly from PostgreSQL to TigerBeetle while the control is activating |
| `Cutover.ApprovedIffProven` | packages/accounting/src/service.ts:1021-1225 | A control becomes approved if and only if the step approves it from preparation, on PostgreSQL, with every operation settled and all seven parts of the evidence good; it then names that evidence |
| `Cutover.ApprovalFailures` | packages/accounting/src/service.ts:1053-1201 | An approval fails exactly when one of these is missing, with the first missing one as its reason, and then changes nothing |
| `Cutover.ApprovedAgain` | packages/accounting/src/service.ts:1021-1039 | An approved control accepts its own evidence again, no other, and changes for neither |
| `Cutover.PreparedIff` | packages/accounting/src/service.ts:931-997 | A control starts preparing exactly by preparation from PostgreSQL |
| `Cutover.ActivatingIff` | packages/accounting/src/service.ts:1244-1300 | A control starts activating exactly from a verified approval on PostgreSQL, and the engine does not turn yet |
| `Cutover.TurnedIff` | packages/accounting/src/service.ts:1360-1408 | An entity turns to TigerBeetle exactly by completing a verified activation; engine and control turn together |
| `Cutover.ActivationMeans` | packages/accounting/src/service.ts:1244-1408 | The whole activation succeeds if and only if a ledger is configured, the cutover is approved or activating and every account is accepted; the first refused account is noted and leaves the entity on PostgreSQL |
| `Cutover.EngineTurnsOnlyByActivation` | packages/accounting/src/service.ts:1366-1394 | The engine never turns back and turns only when an activating, verified control is completed |
| `Cutover.FlipsOnce` | db/migrations/20260817091912_clever_tony_stark/migration.sql:88-106 | From the first state on TigerBeetle every later state is on TigerBeetle |
| `Cutover.ActivationWasApproved` | packages/accounting/src/service.ts:998-1243 | Every run that reaches activation or TigerBeetle contains an approval on evidence that is found, in scope, complete, under a known key, intact, signed and matching, made on PostgreSQL with every operation settled, and passes through the approved control |
| `Cutover.CreationFollowsControl` | packages/accounting/src/financial-operations.ts:2493-2545 | Operations are created only while the control names the configured engine, and for that engine |
| `Cutover.NothingCreatedDuringCutover` | packages/accounting/src/financial-operations.ts:2533-2545 | Between preparation and activation no operation is created, over any run |
| `Cutover.OperationsAreSplit` | packages/accounting/src/financial-operations.ts:2722-2729 | In every reachable state the operations are PostgreSQL's first and TigerBeetle's after them |
| `Cutover.SubmissionsStayOnTheirEngine` | packages/accounting/src/financial-operations.ts:2139-2148 | The submission transaction lets an operation proceed only on its own engine, and never a PostgreSQL operation after the cutover |
| `Cutover.LateCallsMoveNothing` | packages/accounting/src/postgresql-ledger.ts:402-480 | A PostgreSQL ledger call that arrives after the approval, from a worker that began before it or from anyone, writes nothing |
| `Cutover.CutoverTables.PrepareTigerBeetleCutover` | packages/accounting/src/service.ts:931-997 | Commits exactly its specification or changes nothing |
| `Cutover.CutoverTables.ApproveTigerBeetleCutover` | packages/accounting/src/service.ts:998-1243 | Commits exactly the function that `Cutover.ApprovedIffProven` and `Cutover.ApprovalFailures` tie to the seven parts of the evidence, or changes nothing |
| `Cutover.CutoverTables.ActivateTigerBeetleCutover` | packages/accounting/src/service.ts:1244-1408 | Both transactions and the provisioning loop between them behave as specified, failures included |
| `InventoryInvariant.ExecuteKeeps` | packages/inventory/src/service.ts:562-1573 | Every command keeps bounds, reserved sums, on-hand sums and transfer sanity |
| `InventoryInvariant.BalancesAlwaysFit` | packages/inventory/src/service.ts:562-1573 | In every reachable state 0 <= reserved <= on hand, reserved is what active reservations hold, and on hand is what receipts and issues left |
| `InventoryInvariant.GuardsUnreachable` | packages/inventory/src/service.ts:1060-1081 | The last guards of release and fulfilment never fire |
| `StockEffects.ReceivingMeans` | packages/inventory/src/service.ts:562-647 | When a receipt is refused and for which reason; otherwise exactly its quantity is added to that key on hand, and nothing else changes |
| `StockEffects.CorrectingMeans` | packages/inventory/src/service.ts:648-880 | When a new correction is refused and for which reason; otherwise it moves that key by exactly its adjustment |
| `StockEffects.RepeatedCorrectionMeans` | packages/inventory/src/service.ts:648-880 | A key used before answers the first correction when it is the same and conflicts otherwise; neither changes anything |
| `StockEffects.ReservingMeans` | packages/inventory/src/service.ts:881-1031 | A new reservation has the requested key and quantity, its balance gains exactly that quantity reserved and no other changes; it is unavailable if and only if there is no balance or too little on hand beyond what is reserved |
| `StockEffects.RepeatedReservationMeans` | packages/inventory/src/service.ts:881-1031 | A key used before answers the first reservation for the same key and quantity and conflicts otherwise; neither changes anything |
| `StockEffects.ReservationAnswersRepeats` | packages/inventory/src/service.ts:881-1031 | After any further commands the same request still answers that reservation |
| `StockEffects.CorrectionAnswersRepeats` | packages/inventory/src/service.ts:648-880 | After any further commands the same correction still answers the first |
| `StockEffects.ReleasingMeans` | packages/inventory/src/service.ts:1032-1127 | An active reservation becomes released and gives exactly its quantity back; a released one is answered again, a fulfilled one is refused |
| `StockEffects.FulfillingMeans` | packages/inventory/src/service.ts:1128-1225 | An active reservation becomes fulfilled and takes exactly its quantity from reserved and on hand; a fulfilled one is answered again, a released one is refused |
| `StockEffects.CreatingTransferMeans` | packages/inventory/src/service.ts:1226-1349 | Which transfers are refused, for which reason and in which order; otherwise exactly the requested draft is added |
| `StockEffects.ConfirmingMeans` | packages/inventory/src/service.ts:1350-1475 | A draft whose lines are all available becomes confirmed and leaves its source line by line; it is refused exactly when some line is short |
| `StockEffects.CompletingMeans` | packages/inventory/src/service.ts:1476-1573 | A confirmed transfer becomes completed and arrives at its destination line by line; a draft is refused, a completed one answered again |
| `StockEffects.TransfersAreRecorded` | packages/inventory/src/service.ts:1350-1573 | Confirmation records one issue per line at the source, completion one receipt per line at the destination, in order |
| `InventoryInvariant.StockIsConserved` | packages/inventory/src/service.ts:1350-1573 | Per item, stock in all warehouses plus stock in transit changes only by receipts, adjustments and fulfilments, and by exactly their quantities |
| `InventoryInvariant.RunConserves` | packages/inventory/src/service.ts:1350-1573 | Over every run the item total is the sum of those flows |
| `InventoryStore.InventoryTables.ReceiveStock` | packages/inventory/src/service.ts:562-647 | The transaction in place does exactly what is specified; keeps the stock invariant |
| `InventoryStore.InventoryTables.AdjustStock` | packages/inventory/src/service.ts:648-880 | The transaction in place does exactly what is specified, replays included; keeps the stock invariant |
| `InventoryStore.InventoryTables.ReserveStock` | packages/inventory/src/service.ts:881-1031 | The transaction in place does exactly what `StockEffects.ReservingMeans` and `RepeatedReservationMeans` are about; keeps the stock invariant |
| `InventoryStore.InventoryTables.ReleaseReservation` | packages/inventory/src/service.ts:1032-1127 | The transaction in place does exactly what is specified; keeps the stock invariant |
| `InventoryStore.InventoryTables.FulfillReservation` | packages/inventory/src/service.ts:1128-1225 | The transaction in place does exactly what is specified; keeps the stock invariant |
| `InventoryStore.InventoryTables.CreateTransfer` | packages/inventory/src/service.ts:1226-1349 | The transaction in place does exactly what is specified, with the checks in their order; keeps the stock invariant |
| `InventoryStore.InventoryTables.ConfirmTransfer` | packages/inventory/src/service.ts:1350-1475 | The loops over lines move exactly the specified quantities, or nothing; keeps the stock invariant |
| `InventoryStore.InventoryTables.CompleteTransfer` | packages/inventory/src/service.ts:1476-1573 | The loops over lines move exactly the specified quantities, or nothing; keeps the stock invariant |
| `InventoryTestLayer.InventoryMaps.AdjustStock` | packages/inventory/src/service.ts:1689-1783 | The in-memory method answers as the table transaction does and its index agrees with a search of the movements |
| `InventoryTestLayer.InventoryMaps.ReserveStock` | packages/inventory/src/service.ts:1784-1856 | The in-memory method answers as the table transaction, so as `StockEffects.ReservingMeans` says, and its index agrees with a search of the reservations |
| `InventoryTestLayer.InventoryMaps.FulfillReservation` | packages/inventory/src/service.ts:1893-1930 | Without the guard the in-memory method still answers as the table transaction does |
| `InventoryTestLayer.InventoryMaps.CallAll` | packages/inventory/src/service.ts:1577-2110 | Over any sequence of calls the in-memory layer gives the same answers, up to the order of transfer lines and the item a refusal names, and ends with the same balances |
| `FactSnapshots.CompareFinancialFactSnapshots` | packages/accounting/src/financial-readiness.ts:457-542 | The mismatch count is zero exactly when the keyed facts of both snapshots are equal |
| `FactSnapshots.TransferKeysJoinInjectively` | packages/accounting/src/financial-readiness.ts:454-483 | The joined transfer key stands for one operation and position, whatever the operation is called |
| `FactSnapshots.BalanceKeysJoinInjectively` | packages/accounting/src/financial-readiness.ts:498-507 | The joined balance key stands for one account, currency and mapping version |
| `Checkpoint.VerifiedIffEverythingAgrees` | packages/accounting/src/financial-operations.ts:1511-1821 | Verified exactly when every operation is accepted or reconciled and confirmed, its rows and journal are what the ledger reports, balances are equal and no transfer is an orphan |
| `Checkpoint.OrphanMeans` | packages/accounting/src/financial-operations.ts:1700-1730 | An orphan is exactly an identity the ledger names and the operation does not expect |
| `Checkpoint.VerifiedMeansPosted` | packages/accounting/src/financial-operations.ts:1655-1730 | Under a verified checkpoint every stored transfer is accepted under the ledger's identity, which is the expected one of its position when the record's identities agree with their positions, and the journal has its expected status |
| `Checkpoint.TransferLedgerBookVerifies` | packages/accounting/src/financial-operations.ts:1511-1821 | A book of reconciled operations verifies against the lookups and summed balances of a transfer ledger that has applied each of them once, in any interleaving, and nothing else in the scope |
| `Checkpoint.PostgresqlBookVerifies` | packages/accounting/src/financial-operations.ts:1743-1759 | A book of reconciled operations verifies against the PostgreSQL ledger's own answers and balances |
| `OpeningBalances.NoMismatchIffMatched` | packages/accounting/src/financial-readiness.ts:635-689 | For any key that respects the fields, injective or not, no mismatch is exactly a one-to-one match of valid entries |
| `OpeningBalances.MatchedTotals` | packages/accounting/src/financial-readiness.ts:380-381 | Matched sides have equal totals, so the total check never decides |
| `OpeningBalances.MismatchMeans` | packages/accounting/src/financial-readiness.ts:635-689 | What each kind of mismatch names: a key twice on a side, a side without it, an amount that is none, or a field that differs |
| `OpeningBalances.VerifyOpeningBalances` | packages/accounting/src/financial-readiness.ts:635-706 | Names exactly the mismatched keys with their kind and is ok exactly for a one-to-one match |
| `DependencyCycles.RotationsShareKey` | tooling/dependency-graph/check.ts:22-26 | All rotations of a cycle have the same key |
| `DependencyCycles.SharedKeyMeansRotation` | tooling/dependency-graph/check.ts:22-26 | Cycles of names without spaces that share a key are rotations of one another |
| `DependencyCycles.Analysis.Visit` | tooling/dependency-graph/check.ts:88-100 | The visit terminates, finishes the package, restores the stack and keeps the finishing order |
| `DependencyCycles.Analysis.Analyze` | tooling/dependency-graph/check.ts:102-104 | Everything reported is a cycle under its own key, something is reported exactly when the graph is cyclic, and with names without spaces every cycle of the graph takes an edge of a reported one, so a reported cycle lies in its strongly connected component |
| `FinancialAmount.ConversionIsExact` | packages/kernel/src/financial-amount.ts:41-59 | For every string and exponent: a decimal converts exactly when it denotes a whole number of minor units within range, and then to that number; too precise, overflow, invalid format and invalid exponent each occur exactly for what they name |
| `FinancialAmount.MinorRoundTrip` | packages/kernel/src/financial-amount.ts:69-86 | Converting any minor amount up to 2^128-1 to a decimal and back gives it again, for exponents 0 to 38 |
| `FinancialAmount.MinorIsWrittenExactly` | packages/kernel/src/financial-amount.ts:69-86 | For every string and exponent: a canonical amount within range is written with exactly the exponent's places and no superfluous zero, and each failure occurs exactly for what it names |
| `FinancialAmount.MajorAmountsConvert` | packages/kernel/src/financial-amount.ts:14-16 | No amount of the ERP contract makes the exact conversion throw at its scale |
| `MigrationCatalog.AcceptsIffPrefix` | packages/kernel/src/migrations.ts:77-114 | With every applied name recorded, the catalog is accepted exactly when it is well formed and history is a prefix of it |
| `MigrationCatalog.AcceptedIsPrefixIffFilled` | packages/kernel/src/migrations.ts:77-114 | For every history, unnamed entries included: the catalog is well formed with history as its prefix, as far as names tell, exactly when it is accepted and between named entries history has as many unnamed ones as the catalog has entries |
| `MigrationCatalog.UnnamedHistoryMayHaveGaps` | packages/kernel/src/migrations.ts:105-113 | Accepted with a gap: of three or more migrations, one unnamed and the last are enough, although the last stands behind at least two others |
| `MigrationCatalog.CheckCatalog` | packages/kernel/src/migrations.ts:43-75 | The catalog loop accepts exactly the well-formed, strictly ordered catalogs without repeated versions, and otherwise names what is wrong with the first migration at fault |
| `MigrationCatalog.ValidateMigrationCatalog` | packages/kernel/src/migrations.ts:32-114 | The loops accept exactly the catalogs and histories that fit, and otherwise name the first offence of the catalog, of the history, or the first migration inserted before the last applied one |
| `Messaging.EffectsHappenOnce` | packages/messaging/src/service.ts:289-337 | However consumers interleave, fail or stop, an effect commits at most once per consumer and event, exactly with its receipt, and repeats are duplicates |
| `Messaging.UndisturbedConsumption` | packages/messaging/src/service.ts:289-337 | A consumer left to start and commit does the effect exactly when the event is there and has no receipt; an abort leaves no trace |
| `Messaging.LookupMeans` | packages/messaging/src/service.ts:296-320 | A receipt answers as a duplicate only for the event it was written for |
| `Messaging.EventMaps.Append` | packages/messaging/src/service.ts:360-378 | The two in-memory indexes decide an append as the table's two unique keys do |
| `Messaging.EventMaps.ConsumeOnce` | packages/messaging/src/service.ts:384-440 | Done if and only if the event is there without a receipt, the effect succeeds and the outbox takes every publication; then the events and the receipt stay, otherwise every map is put back |

## Left out

- SQL text, Effect plumbing, HTTP, handlers, authorization policy, environment configuration: wiring; an authorisation is an
  input of the modelled commands.
- SHA-256, Ed25519 and the TigerBeetle client: foreign code; signature and hash checks are booleans, identities a datatype.
- Tenants: one tenant is modelled wherever a table is; operation keys still carry it.
- Job queue, failpoints, correlation data and `updatedAt` columns: they decide nothing here.
- Journal references and their unique key, and the request fingerprint: a repeated command is compared by its request.
- The one currency the external ledger is configured for: a journal in another one ends at its first account, as the input
  `AccountManual(MappingMismatch)` of a provisioning step; the same check before a post or a lookup is not modelled.
- Database faults of the PostgreSQL ledger, answered with operation id "unknown": the resulting fence is
  covered by `OperationInvariant.WriteReceiptKeeps`, and kept out of the ledger runs.
- PostgresRecovery.RecoverySettles: begins at the submission transaction; that the command looks the accounts up itself before
  it calls the ledger, and ends as a mapping mismatch when one is missing, is not among this ledger's steps.
- PostgresLedgerSafety.LedgerIsSafe: quarantine is not among its steps, because fencing an accepted operation takes its lines
  out of the balances.
- Recovery.RecoverySettles: the run is undisturbed, authorised and routed to this ledger, and the ledger either accepts or
  refuses an account; an account it cannot map leads to manual recovery.
- Account types are fixed during a run of the PostgreSQL ledger; the balance arithmetic of the in-memory test ledger is not a
  reference and is not modelled.
- Checkpoint.VerifiedIffEverythingAgrees: the snapshots are functions of rows and answers; scope errors, evidence hashes and
  the stored checkpoint row are not part of this model, and the ledger is assumed to name the operation it was asked about.
- Cutover.ActivationWasApproved: the checks of one verification artifact are booleans, and the verification flags one boolean;
  entities that a migration found already on TigerBeetle are not initial states.
- InventoryTestLayer.InventoryMaps.CallAll: answers do not name the item that made a transfer unavailable and list lines in
  the order they were given, since the tables order them by item.
- The outbox is kept per operation in the PostgreSQL, reversal and cutover runs: events of other operations have other keys.
- Warehouse and item creation, revenue profiles, accounting periods: easy lookups.
- Legacy `postRevenueForOrder` and `reverseRevenueForOrder`: they do not share the uniqueness rule of reversals.
- Graph building from module specifiers: text matching; the model starts from the sorted adjacency lists.
- UTC rendering of a migration timestamp: a parameter of the catalog check.
- 64-bit overflow in the database, string trimming and locale collation.
