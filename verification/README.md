# RelayPay: verified models

Dafny models of the parts of RelayPay whose correctness is hardest to see from the code, and proofs
about every input, every run or every reachable state of them. `dafny verify dfyconfig.toml` checks the
whole project. There are five groups.

**Ledger and payment evidence** (`Basics`, `Rows`, `Sums`, `Queries`, `Sql`, `Database`, `Acceptance`,
`LedgerBalance`, `RefundReservations`, `RefundExactness`, `ResourceWrites`, `LedgerEntries`,
`AuthorizedCaptures`, `RefundStory`, `PaymentServices`, `ServiceOutcomes`, `PaymentStatuses`,
`PayoutCoverage`, `PayoutReach`, `CommitRace`, `CoverageRows`, `AttemptEvidence`, `OpeningMigration`,
`ScopeMigration`). The database is a transition system, with the schema as of migration 0023. A transaction
is any list of inserts, updates and deletes; each statement is checked against the immediate constraints and
row triggers, deferred constraint triggers and deferred keys are evaluated at commit on the final tables,
and the transaction commits as a whole or not at all. PL/pgSQL's three-valued logic is explicit: a
comparison with NULL does not raise. `Acceptance` says exactly which single writes get past the immediate
constraints; the results named `...CommitsExactly` say which transactions commit column by column, over the
rows of the tables and without naming a guard of the model. Runs are serial except in `CommitRace`, which
interleaves the snapshots, locks, checks and commits of any number of transactions; `CoverageRows` projects
the tables onto its rows. The two data migrations are modelled statement by statement, with every INSERT ...
SELECT as the joins it is made of.

**Canonical JSON, fingerprints and cursors** (`Json`, `JsonText`, `Utf8`, `Fingerprint`, `Base64Url`,
`Cursor`). The printer, a reader for the same language (RFC 8259), UTF-8 (RFC 3629) and the URL-safe base64
of section 5 of RFC 4648 with its padding stripped and restored are written out; sha256, HMAC,
`str.upper` and the datetime text forms are parameters. Where a result needs it, the digest being
injective, or `fromisoformat` undoing `isoformat`, is an explicit `requires`.

**Bounded body readers** (`Chunks`, `DoublingReader`, `BodyLimit`). The doubling buffer of the two
TypeScript readers and the sealed blocks, replay queue and middleware of the Python one.

**Chaos harness** (`ChaosSchedule`, `ScheduleJson`, `ChaosDriver`). The generator runs on arbitrary random
draws, so its results hold for every seed. The driver's books are a function of the events written under
its lock, in any order.

**Edge worker** (`Coordinator`, `WebhookPipeline`). The coordinator's storage against the log of admissions,
and the archive, queue and forward protocol under every interleaving and every death of a request or a
delivery.

## Findings

Some statements that the code or its documentation makes are not true of it as they stand. Each has a
concrete run and the condition under which it holds.

- The refund guards look only at the refund rows a transaction wrote, and since migration 0022 the
  capture-command guard only bounds a capture by its authorization. So lowering or reverting a captured
  amount, a refund that names another payment's capture or is moved to another payment, and postings added
  later to a booked journal can all commit. `RefundExactness` and `ResourceWrites` say, for all tables and
  rows, exactly which inserts, updates and deletes of a capture or a refund and which added postings
  commit, and exactly which of those keep the property; `RefundStory` runs these failures from the empty
  database, for every amount. The capture, refund, finalize and review commands of the services never make such a
  write, so the properties hold over all their runs (`PaymentServices`).
- Migration 0020 says that, reservations never being negative, it forbids a negative AVAILABLE balance. It
  forbids AVAILABLE below what is reserved, and that the reserved total stays at zero or above is not
  enforced by the database: AVAILABLE is safe exactly at the reserved totals that are not negative
  (`AvailableNeverNegativeExactly`, `OverReleaseIsNotCaught`). A merchant can be left with exactly the
  pairs in which AVAILABLE covers the reserved total (`ReachableExactly`).
- Migration 0020 alone does not stop two concurrent commits from overdrawing a merchant; with the lock of
  migration 0030 every interleaving is serial (`NeverOverdrawsExactly`).
- `apps/edge/wrangler.jsonc` sets three retries and no dead-letter queue, so a webhook answered 202 is lost
  when the origin refuses four deliveries (`LimitLoses`, `NeverLostExactly`).
- The coordinator reads a stored time of zero as absent, so a replay at second zero of the epoch is admitted
  again (`ReplayAtSecondZero`, `ReplayDetectedExactly`).
- Migration 0006 fails when some row names an organisation that does not exist, which ledger_accounts, for
  one, has no key to prevent (`ScopeMigration.Upgrade`).
- The generator's create inside its REPLAY branch can never run (`SomethingReplayable`).

## Model

| member | source | states |
|---|---|---|
| `Database.RunStatements` | migrations/relaypay/versions/0001_foundation_identity_ledger.py:258-270 | statements run in order against the immediate constraints and row triggers, and stop at the first error |
| `Database.FireDeferred` | migrations/relaypay/versions/0001_foundation_identity_ledger.py:307-313 | a transaction is accepted exactly when no queued deferred trigger raises on the final tables |
| `Database.Store.Transact` | migrations/relaypay/versions/0001_foundation_identity_ledger.py:258-313 | a transaction either commits all of its effects or leaves the tables as they were |
| `Database.RunValid` | migrations/relaypay/versions/0001_foundation_identity_ledger.py:196-249 | every committed state of every run meets the keys, CHECKs and foreign keys |
| `LedgerBalance.CommitKeepsBalance` | migrations/relaypay/versions/0001_foundation_identity_ledger.py:272-313 | a commit accepted by the deferred balance trigger keeps every journal balanced, touched or not |
| `LedgerBalance.EveryJournalBalances` | migrations/relaypay/versions/0001_foundation_identity_ledger.py:272-313 | in every committed state of every run, every journal has two postings or more, equal debits and credits, and no posting in another currency than the journal's |
| `LedgerBalance.EveryPostingMatchesItsJournal` | migrations/relaypay/versions/0001_foundation_identity_ledger.py:223-249 | every posting has its journal's currency, organisation and environment |
| `LedgerBalance.LedgerEquation` | migrations/relaypay/versions/0001_foundation_identity_ledger.py:241-313 | after any run, all debits equal all credits, in the whole ledger and in every organisation and environment |
| `LedgerBalance.HistoryIsKept` | migrations/relaypay/versions/0001_foundation_identity_ledger.py:258-270 | committed journals and postings are a prefix of every later committed state |
| `RefundReservations.AcceptedRefundIsCovered` | migrations/relaypay/versions/0002_payments_payment_operations_and_idempotency.py:499-526 | a refund image the reservation trigger accepts belongs to a payment whose live refunds are within the captured amount |
| `RefundReservations.CommitKeepsCover` | migrations/relaypay/versions/0002_payments_payment_operations_and_idempotency.py:499-526 | a commit keeps every payment covered when succeeded captures stand and refunds name their own payment's capture |
| `RefundReservations.LiveRefundsNeverExceedCapture` | migrations/relaypay/versions/0002_payments_payment_operations_and_idempotency.py:499-526 | over every run with that discipline, live refunds never exceed the captured amount of any payment |
| `RefundReservations.CommitKeepsBooks` | migrations/relaypay/versions/0002_payments_payment_operations_and_idempotency.py:561-599 | a commit keeps every CAPTURE and REFUND journal equal to the resource it books |
| `RefundReservations.EveryJournalBooksItsResource` | migrations/relaypay/versions/0002_payments_payment_operations_and_idempotency.py:561-599 | over every finalizer run, each CAPTURE or REFUND journal totals its settled resource |
| `RefundReservations.RefundJournalsNeverExceedCaptureJournal` | migrations/relaypay/versions/0002_payments_payment_operations_and_idempotency.py:347-599 | over every finalizer run, a payment's REFUND journals never total more than its CAPTURE journal |
| `RefundExactness.RewriteCommitsExactly` | migrations/relaypay/versions/0023_authorization_expiry.py:87-122 | an update of a capture commits exactly when the new row, column by column, has a positive amount, a journal exactly if SUCCEEDED, a payment and an operation of its scope, no clash with another capture, its refunds in scope, and a SUCCEEDED authorization of its organisation for at least its amount |
| `RefundExactness.RewriteKeepsCoverExactly` | migrations/relaypay/versions/0002_payments_payment_operations_and_idempotency.py:499-526 | an update of a capture that commits keeps live refunds within captures exactly when its payment's live refunds fit the new row and none stay with a payment it leaves |
| `RefundExactness.RefundCommitsExactly` | migrations/relaypay/versions/0002_payments_payment_operations_and_idempotency.py:428-526 | a new refund with its operation commits exactly when, column by column, both rows are new and in scope and the capture it names, of whatever payment, is SUCCEEDED and covers all refunds of the payment that have not failed |
| `RefundExactness.RefundKeepsCoverExactly` | migrations/relaypay/versions/0002_payments_payment_operations_and_idempotency.py:499-526 | a refund that commits keeps live refunds within captures exactly when its own payment captured enough for it |
| `RefundExactness.OwnCaptureKeepsCover` | migrations/relaypay/versions/0002_payments_payment_operations_and_idempotency.py:503-521 | a refund that commits and names its own payment's capture always keeps them |
| `RefundExactness.PostingsCommitExactly` | migrations/relaypay/versions/0001_foundation_identity_ledger.py:272-313 | postings added to existing journals commit exactly when, column by column, each is new, positive, in INR and in scope, debits equal credits in every journal they touch, and no debit takes AVAILABLE below the reserved total |
| `RefundExactness.PostingsKeepBooksExactly` | migrations/relaypay/versions/0002_payments_payment_operations_and_idempotency.py:561-599 | added postings that commit keep every journal equal to its resource exactly when none goes to a CAPTURE or REFUND journal |
| `LedgerEntries.EntryCommitsExactly` | migrations/relaypay/versions/0002_payments_payment_operations_and_idempotency.py:561-599 | a new journal with its postings commits exactly when, column by column, it is new, in INR and in scope, has two postings or more with equal debits and credits, each new, positive and in scope, the operation it names has its kind and reference and its debits are the amount of its capture or refund (unless it is a COMPENSATION), and AVAILABLE stays covered |
| `LedgerEntries.BindingAsks` | migrations/relaypay/versions/0002_payments_payment_operations_and_idempotency.py:561-599 | what the trigger asks of a journal by the rows it finds: kind, resource and organisation of its operation, and the amount of its capture or refund; a row that is not there is not asked about |
| `LedgerEntries.PaymentMovesExactly` | migrations/relaypay/versions/0019_payment_state_machine.py:64-140 | an update of a payment commits exactly when its status stays or makes one of the sixteen allowed moves and what names it is in its scope |
| `ResourceWrites.RefundRewriteCommitsExactly` | migrations/relaypay/versions/0002_payments_payment_operations_and_idempotency.py:499-526 | an update of a refund commits exactly when, column by column, the new row is positive and in scope, clashes with no other refund, and names a SUCCEEDED capture that covers all refunds of its payment that have not failed |
| `ResourceWrites.RefundRewriteKeepsCoverExactly` | migrations/relaypay/versions/0002_payments_payment_operations_and_idempotency.py:499-526 | an update of a refund that commits keeps live refunds within captures exactly when the payment it now names captured enough |
| `ResourceWrites.RefundDeleteKeepsCover` | migrations/relaypay/versions/0002_payments_payment_operations_and_idempotency.py:499-526 | deleting a refund always commits and keeps live refunds within captures |
| `ResourceWrites.CaptureCommitsExactly` | migrations/relaypay/versions/0023_authorization_expiry.py:87-122 | a new capture with its operation commits exactly when, column by column, both rows are new and in scope, the payment is there and not CANCELLED, EXPIRED or FAILED, and the authorization it names is SUCCEEDED and for at least its amount |
| `ResourceWrites.CaptureKeepsCover` | migrations/relaypay/versions/0002_payments_payment_operations_and_idempotency.py:228-280 | a new capture that commits is all its payment has captured and keeps live refunds within captures |
| `ResourceWrites.CaptureDeleteCommitsExactly` | migrations/relaypay/versions/0002_payments_payment_operations_and_idempotency.py:347-357 | a capture can be deleted exactly while no refund names it |
| `ResourceWrites.CaptureDeleteKeepsCoverExactly` | migrations/relaypay/versions/0002_payments_payment_operations_and_idempotency.py:499-526 | deleting a capture keeps live refunds within captures exactly when its payment has none, on whatever capture |
| `AuthorizedCaptures.WrittenWithinAuthorization` | migrations/relaypay/versions/0022_partial_capture.py:29-50 | a capture row that a commit wrote, inserted or updated, is within an authorization of its scope that has succeeded |
| `AuthorizedCaptures.EveryCaptureWasAuthorized` | migrations/relaypay/versions/0023_authorization_expiry.py:87-122 | over every run, whatever the writers, each capture row that stands was written within its authorization, succeeded by then |
| `AuthorizedCaptures.CapturesStayAuthorized` | migrations/relaypay/versions/0022_partial_capture.py:29-50 | while authorizations keep their amounts, every capture is within its authorization in every state of every run |
| `RefundStory.StoryReaches` | migrations/relaypay/versions/0002_payments_payment_operations_and_idempotency.py:428-526 | for every amount, the run that authorizes, captures and refunds it from the empty database commits step by step and ends in the stated tables |
| `RefundStory.ReachedIsSound` | migrations/relaypay/versions/0002_payments_payment_operations_and_idempotency.py:499-599 | after that run every constraint holds, the payment is covered, and every journal balances and books its resource |
| `RefundStory.RewriteUncovers` | migrations/relaypay/versions/0022_partial_capture.py:29-50 | from there, every lower amount and every reverted status of the capture commits and leaves live refunds above it |
| `RefundStory.BorrowUncovers` | migrations/relaypay/versions/0002_payments_payment_operations_and_idempotency.py:503-521 | from there, a refund of a payment that captured nothing commits on the other payment's capture |
| `RefundStory.MoveUncovers` | migrations/relaypay/versions/0002_payments_payment_operations_and_idempotency.py:499-526 | from there, moving the refund to a payment that captured nothing commits |
| `RefundStory.LatePostingsUnbook` | migrations/relaypay/versions/0002_payments_payment_operations_and_idempotency.py:561-599 | from there, any further balanced pair of postings to the CAPTURE journal commits and takes it past its capture |
| `PaymentServices.CommandIsDisciplined` | packages/relaypay/provider_operations/finalizer.py:129-334 | whatever a capture, refund, finalize or review command writes in any database, if it commits it leaves succeeded captures and refunds standing, adds postings only with their journal and keeps resources bound to their operations |
| `PaymentServices.ServicesAreDisciplined` | packages/relaypay/payments/service.py:471-884 | every run of these commands, with any other writer that leaves captures, refunds and their journals alone, is a run of the discipline that the refund results ask for |
| `PaymentServices.ServicesKeepCover` | packages/relaypay/payments/service.py:779-884 | after every such run no payment has more live refunds than it captured |
| `PaymentServices.ServicesKeepJournals` | packages/relaypay/ledger/service.py:89-137 | after every such run each CAPTURE and REFUND journal totals its resource, and every payment's REFUND journals stay within its CAPTURE journal |
| `ServiceOutcomes.WritesExactly` | packages/relaypay/provider_operations/finalizer.py:129-334 | a finalization or review writes exactly when its operation is PROCESSING or in review, its resource is there and, for a finalization, the payment stands where it can still make the move |
| `ServiceOutcomes.FinishedIsLeftAlone` | packages/relaypay/provider_operations/finalizer.py:138-140 | no evidence writes anything for an operation that has SUCCEEDED or FAILED, or is unknown |
| `ServiceOutcomes.FinalizedOperation` | packages/relaypay/provider_operations/finalizer.py:154-298 | a committed finalization leaves its operation SUCCEEDED or FAILED as the provider said and every other as it was |
| `ServiceOutcomes.FinalizedResource` | packages/relaypay/provider_operations/finalizer.py:161-229 | the capture, refund or authorization ends as its operation does, naming the journal exactly when it succeeded; every other row is as it was |
| `ServiceOutcomes.FinalizedJournal` | packages/relaypay/provider_operations/finalizer.py:174-225 | a capture or refund that succeeds posts one journal of its kind, for its resource, with exactly the given entries; nothing else posts any |
| `ServiceOutcomes.FinalizedPayment` | packages/relaypay/provider_operations/finalizer.py:98-240 | where the payment stands afterwards; after a refund it is REFUNDED exactly when settled refunds total the captured amount in the tables as committed |
| `ServiceOutcomes.ReviewedExactly` | packages/relaypay/provider_operations/finalizer.py:301-333 | a committed review puts the operation and its resource in review and leaves every other operation and resource as it was |
| `ServiceOutcomes.CaptureStartsExactly` | packages/relaypay/payments/service.py:471-645 | a capture command commits exactly when the payment is live, its authorization succeeded and covers a positive amount, it has no capture yet and the ids are new; it adds one PROCESSING capture |
| `ServiceOutcomes.RefundStartsExactly` | packages/relaypay/payments/service.py:779-884 | a refund command commits exactly when the payment has a succeeded capture that covers a positive amount on top of its live refunds and the ids are new; it adds one PROCESSING refund |
| `ServiceOutcomes.CommandKeepsFinished` | packages/relaypay/provider_operations/finalizer.py:129-333 | no command changes an operation that has SUCCEEDED or FAILED, or the resource bound to it, if writers outside the services leave an authorization's rows alone |
| `ServiceOutcomes.FinishedNeverChanges` | packages/relaypay/provider_operations/finalizer.py:129-333 | over every run of the services, under the same condition on authorizations only, a finished operation and its resource never change again |
| `PaymentStatuses.StatusIsDerived` | migrations/relaypay/versions/0019_payment_state_machine.py:83-107 | after every run of the services, with payment creation, authorization and expiry, the stored status of every payment is the one the backfill derives from its authorization, capture and refunds, or EXPIRED where the backfill says authorised and nothing was captured |
| `PaymentStatuses.VerdictAlwaysApplies` | packages/relaypay/payments/transitions.py:109-143 | over every such run the finalizer can apply any verdict to any operation that has not finished: its transition is never refused as illegal |
| `PaymentStatuses.OpenRefundLeavesRoom` | packages/relaypay/provider_operations/finalizer.py:98-115 | while a refund is open and refunds are covered, the payment is not yet fully refunded |
| `PayoutCoverage.CommitKeepsCoverageOf` | migrations/relaypay/versions/0020_payout_overdraft_guard.py:37-91 | a commit keeps each merchant's reservations within its AVAILABLE balance, whichever rows it wrote |
| `PayoutCoverage.ReservationsAlwaysCovered` | migrations/relaypay/versions/0020_payout_overdraft_guard.py:37-91 | in every committed state of every serial run, reservations are covered by AVAILABLE |
| `PayoutCoverage.AvailableNeverNegativeExactly` | migrations/relaypay/versions/0020_payout_overdraft_guard.py:7-22 | for every reserved total: all runs that end with it have AVAILABLE at zero or above if and only if that total is not negative |
| `PayoutCoverage.OverReleaseIsNotCaught` | migrations/relaypay/versions/0020_payout_overdraft_guard.py:37-91 | for every k, a run from the empty database releases k that was never reserved and leaves AVAILABLE at -k |
| `PayoutCoverage.ReservationCommitsExactly` | migrations/relaypay/versions/0020_payout_overdraft_guard.py:37-91 | a single reservation row commits exactly when, column by column, it has a positive sequence, moves something, is new and in scope, and the new reserved total is within AVAILABLE |
| `PayoutReach.ReachableExactly` | migrations/relaypay/versions/0020_payout_overdraft_guard.py:7-91 | some serial run leaves a merchant with a given reserved total and AVAILABLE balance if and only if the balance covers the total |
| `CommitRace.SerialRunsAreCovered` | migrations/relaypay/versions/0020_payout_overdraft_guard.py:37-91 | transactions the trigger accepts one after the other never overdraw a merchant |
| `CommitRace.LockedCommitsAreSerial` | migrations/relaypay/versions/0030_coverage_check_lock.py:25-77 | with the advisory lock, every interleaving of commits equals a serial run the trigger accepts |
| `CommitRace.LockedCommitsNeverOverdraw` | migrations/relaypay/versions/0030_coverage_check_lock.py:25-77 | with the lock, no interleaving of any number of transactions overdraws any merchant |
| `CommitRace.LockedLogsExactly` | migrations/relaypay/versions/0030_coverage_check_lock.py:25-77 | the sequences of transactions that commit under some interleaving with the lock are exactly those the trigger accepts one after the other: the lock refuses nothing else and is always given back |
| `CommitRace.UnlockedRaceOverdraws` | migrations/relaypay/versions/0020_payout_overdraft_guard.py:37-91 | without the lock, two concurrent commits each reserve an amount that the credit covers once, for every credit and amount, and leave the credit less twice the amount |
| `CommitRace.NeverOverdrawsExactly` | migrations/relaypay/versions/0030_coverage_check_lock.py:25-77 | no interleaving overdraws any merchant if and only if commits take the lock |
| `CoverageRows.SlackIsCoverage` | migrations/relaypay/versions/0020_payout_overdraft_guard.py:37-84 | the slack of the projected rows is the merchant's AVAILABLE balance less its reservations |
| `CoverageRows.GuardIsTheTrigger` | migrations/relaypay/versions/0020_payout_overdraft_guard.py:37-91 | the guard on projected rows accepts a commit exactly when the trigger accepts each new reservation and posting on the new tables |
| `CoverageRows.RunsAreSerialRuns` | migrations/relaypay/versions/0020_payout_overdraft_guard.py:37-91 | every serial run of the tables projects to a serial run of the racing rows with the same slack for every merchant |
| `AttemptEvidence.ClearIsValid` | migrations/relaypay/versions/0002_payments_payment_operations_and_idempotency.py:207-226 | comparing only the row image a write leaves with the other rows decides as checking CHECK and indexes on the whole table |
| `AttemptEvidence.InsertAcceptedExactly` | migrations/relaypay/versions/0002_payments_payment_operations_and_idempotency.py:207-226 | an attempt can be added exactly when, column by column, its sequence is positive, its id and its place in the operation are new, and it is no second MUTATION and no recorded webhook payload |
| `AttemptEvidence.UpdateAcceptedExactly` | migrations/relaypay/versions/0002_payments_payment_operations_and_idempotency.py:399-423 | an attempt can be updated exactly when its six identifying columns stay, it is SENT and open, and the new row is completed and clashes with no other |
| `AttemptEvidence.DeleteRefusedExactly` | migrations/relaypay/versions/0002_payments_payment_operations_and_idempotency.py:414-423 | a delete is refused exactly when the attempt is there |
| `AttemptEvidence.AttemptTable.Execute` | migrations/relaypay/versions/0002_payments_payment_operations_and_idempotency.py:399-423 | which inserts, updates and deletes are accepted, column by column; the table stays valid, no row loses its identity, no settled row changes, and a refused write or a delete changes nothing |
| `AttemptEvidence.RunIsValid` | migrations/relaypay/versions/0002_payments_payment_operations_and_idempotency.py:207-226 | every reachable table meets the state CHECKs and the unique indexes |
| `AttemptEvidence.OneMutationPerOperation` | migrations/relaypay/versions/0002_payments_payment_operations_and_idempotency.py:220-226 | no operation ever has two MUTATION attempts |
| `AttemptEvidence.OnePayloadPerOperation` | migrations/relaypay/versions/0027_webhook_evidence.py:40-46 | no operation records the same non-null webhook digest twice |
| `AttemptEvidence.EvidenceIsKept` | migrations/relaypay/versions/0002_payments_payment_operations_and_idempotency.py:399-423 | whatever follows, no attempt disappears and identity columns stay; only a completion may be added |
| `AttemptEvidence.UpdatedAtMostOnce` | migrations/relaypay/versions/0002_payments_payment_operations_and_idempotency.py:399-417 | each attempt row is updated at most once, from SENT to a completed state |
| `AttemptEvidence.CompletionIsOneUpdate` | migrations/relaypay/versions/0002_payments_payment_operations_and_idempotency.py:399-417 | a row inserted as SENT is completed exactly when one accepted update reached it |
| `OpeningMigration.TemplatesExact` | migrations/relaypay/versions/0009_merchant_balances.py:112-128 | the cross join gives exactly the four template accounts of each default merchant |
| `OpeningMigration.TemplateCount` | migrations/relaypay/versions/0009_merchant_balances.py:112-128 | four accounts are inserted for each default merchant |
| `OpeningMigration.UpgradedExactly` | migrations/relaypay/versions/0009_merchant_balances.py:313-352 | grouping, the join of positions to merchants and the joins to the legacy and pending accounts each match once: the statement adds one journal and one debit and credit pair for each scope with a positive legacy position and nothing else |
| `OpeningMigration.UpgradedValid` | migrations/relaypay/versions/0009_merchant_balances.py:54-352 | the migrated tables meet every key, unique index, CHECK and foreign key |
| `OpeningMigration.Upgrade` | migrations/relaypay/versions/0009_merchant_balances.py:54-370 | the statements in order give valid tables with one merchant per environment, cleared legacy positions, one opening per positive scope, of all scopes when every account's scope is an environment, balance transactions that match the pending accounts, conserved liabilities, and a downgrade that restores the start |
| `OpeningMigration.LegacyPositionsAreCleared` | migrations/relaypay/versions/0009_merchant_balances.py:313-352 | every scope that opened has a zero legacy position afterwards; the others keep theirs |
| `OpeningMigration.OpeningJournalBalances` | migrations/relaypay/versions/0009_merchant_balances.py:322-352 | each opening journal has exactly two postings in the migrated ledger, debits and credits both equal to the legacy position |
| `OpeningMigration.OpeningsExactly` | migrations/relaypay/versions/0009_merchant_balances.py:313-334 | an OPENING journal stands in the migrated ledger exactly for the scopes with a positive legacy position |
| `OpeningMigration.OpeningCount` | migrations/relaypay/versions/0009_merchant_balances.py:313-334 | each scope has one opening journal or none, according to its legacy position |
| `OpeningMigration.EveryScopeIsSettled` | migrations/relaypay/versions/0009_merchant_balances.py:313-334 | with every account's scope an environment, as migration 0006 demands: in every scope a positive legacy position is cleared by one opening journal, and any other stands without one |
| `OpeningMigration.PendingHolds` | migrations/relaypay/versions/0009_merchant_balances.py:337-352 | each merchant's pending account holds exactly the legacy position that was moved to it, or nothing |
| `OpeningMigration.BalancesExactly` | migrations/relaypay/versions/0009_merchant_balances.py:354-370 | the joins of journals, credits and pending accounts match once: exactly one balance transaction per opening |
| `OpeningMigration.DeltasMatchPending` | migrations/relaypay/versions/0009_merchant_balances.py:354-370 | every balance transaction names an existing merchant and journal, and its pending delta is the balance of that merchant's pending account in the migrated ledger |
| `OpeningMigration.LiabilityIsConserved` | migrations/relaypay/versions/0009_merchant_balances.py:313-370 | the merchant liability of every scope is the same before and after |
| `OpeningMigration.TriggersAcceptOpenings` | migrations/relaypay/versions/0002_payments_payment_operations_and_idempotency.py:561-599 | the deferred triggers accept every journal and posting the migration adds, the binding check through NULL comparisons |
| `OpeningMigration.DowngradeRestores` | migrations/relaypay/versions/0009_merchant_balances.py:389-433 | an immediate downgrade restores the original tables row for row |
| `ScopeMigration.BackfillTable` | migrations/relaypay/versions/0006_identity_environments.py:263-283 | one table's rows get their organisation's TEST environment; NOT NULL succeeds exactly when none is left NULL |
| `ScopeMigration.BackfillAll` | migrations/relaypay/versions/0006_identity_environments.py:263-283 | all tables succeed exactly when every row's organisation has a TEST environment |
| `ScopeMigration.AddScopedKeys` | migrations/relaypay/versions/0006_identity_environments.py:360-374 | the composite keys are added exactly when no existing reference dangles within its scope |
| `ScopeMigration.Upgrade` | migrations/relaypay/versions/0006_identity_environments.py:117-374 | the migration succeeds exactly when every row's organisation exists, and then every composite key holds |
| `ScopeMigration.BackfillScopesKeys` | migrations/relaypay/versions/0006_identity_environments.py:360-374 | the backfill turns every organisation-scoped key into an (organisation, environment, id) key |
| `ScopeMigration.ChainsStayInScope` | migrations/relaypay/versions/0006_identity_environments.py:59-88 | with the composite keys, a chain of references of any length stays in one organisation and environment |
| `ScopeMigration.MigratedChainsStayInScope` | migrations/relaypay/versions/0006_identity_environments.py:263-374 | in the migrated database every chain stays in its organisation's TEST environment |
| `Json.CanonSame` | packages/relaypay/idempotency.py:18-25 | two values have the same sorted form exactly when they are the same JSON, with objects unordered at every depth |
| `Json.SortedUnique` | packages/relaypay/idempotency.py:18-25 | a key-sorted object is determined by its bindings |
| `Json.CanonAscends` | packages/relaypay/idempotency.py:18-25 | in the sorted form the keys of every object, at every depth, ascend strictly by code points |
| `Json.BeforeAscends` | packages/relaypay/idempotency.py:18-25 | the order used for sorting is the one by code points: a proper prefix, or the smaller character where two keys first differ |
| `JsonText.ReadsPrinted` | packages/relaypay/idempotency.py:18-25 | a printed value, followed by anything that may follow it, reads back to itself |
| `JsonText.LoadsDumps` | packages/relaypay/idempotency.py:18-25 | loading dumped text gives the value with sorted keys, for every value |
| `JsonText.DumpsInjective` | packages/relaypay/idempotency.py:18-25 | canonical text agrees exactly for values that are the same JSON |
| `JsonText.DumpsSorts` | packages/relaypay/idempotency.py:18-25 | `sort_keys`: dumped text is that of the same JSON with every object's keys ascending by code points |
| `JsonText.DumpsIsCompact` | packages/relaypay/idempotency.py:18-25 | `separators`: dumped text has no white space outside its strings |
| `JsonText.EscapesExactly` | packages/relaypay/idempotency.py:18-25 | `ensure_ascii`: every character stands for itself except quotes, backslashes and control characters, each with the escape that reads back |
| `Utf8.DecodeEncode` | packages/relaypay/idempotency.py:25-25 | decoding UTF-8 undoes encoding for every string |
| `Utf8.DecodedExactly` | packages/relaypay/idempotency.py:25-25 | bytes decode to a string exactly when they are its encoding: overlong forms, surrogates and stray bytes are refused |
| `Fingerprint.CanonicalBytesAgree` | packages/relaypay/idempotency.py:18-25 | canonical bytes agree exactly for values that are the same JSON, in any key order |
| `Fingerprint.CanonicalForm` | packages/relaypay/idempotency.py:18-25 | canonical bytes are UTF-8 of a compact text of the same JSON whose keys ascend by code points at every depth |
| `Fingerprint.FingerprintsAgree` | packages/relaypay/idempotency.py:28-48 | fingerprint bytes agree exactly when API version, upper-cased method, route, path parameters and body agree |
| `Fingerprint.FingerprintText` | packages/relaypay/idempotency.py:28-48 | the text that is digested: the five fields under their names, in key order |
| `Fingerprint.VersionsNeverShareBytes` | apps/api/routes/payments_v2.py:46-53 | no v1 command ever shares bytes with a v2 command |
| `Base64Url.EncodeAlphabet` | packages/relaypay/pagination.py:36-37 | encoded text never holds a dot, a pad or a non-ASCII character |
| `Base64Url.DecodeEncode` | packages/relaypay/pagination.py:36-41 | every byte string survives stripping and restoring its padding, for every length |
| `Cursor.SplitsAtItsDot` | packages/relaypay/pagination.py:77-79 | the first dot of a cursor is the one between its parts |
| `Cursor.DecodeEncoded` | packages/relaypay/pagination.py:52-99 | what any reader makes of any encoded cursor: the position under an equal MAC and filter digest, otherwise an error |
| `Cursor.DecodedExactly` | packages/relaypay/pagination.py:70-99 | which tokens are accepted and as what position, for every token: first dot, payload, MAC, version, filter digest, time and identifier |
| `Cursor.CursorRoundTrip` | packages/relaypay/pagination.py:52-99 | every cursor decodes to its position under the same filters and secret |
| `Cursor.CursorBoundToFilters` | packages/relaypay/pagination.py:32-99 | with an injective digest, a cursor is accepted exactly under filters that are the same JSON |
| `DoublingReader.SetBytes` | apps/edge/src/bounded-body.ts:33-36 | copying into the buffer replaces exactly the bytes from the offset on |
| `DoublingReader.Append` | apps/edge/src/bounded-body.ts:28-37 | a chunk that fits goes after the bytes held, in a buffer doubled up to the cap when needed |
| `DoublingReader.DoublingsBounded` | apps/edge/src/bounded-body.ts:28-35 | a capacity within the cap, reached by doubling, took at most ceil(log2 cap) + 1 reallocations |
| `DoublingReader.ReadStream` | apps/edge/src/bounded-body.ts:18-39 | the bytes exactly when they fit the cap and null otherwise; capacity within the cap, at most ceil(log2 cap) + 1 reallocations, at most twice the cap copied |
| `DoublingReader.ReadBoundedBody` | apps/console/lib/bounded-body.ts:6-40 | null exactly when an all-digit declared length or the stream itself exceeds the cap; otherwise the bytes, with a missing stream as an empty body |
| `BodyLimit.EarlyRefusalExact` | packages/relaypay/body_limit.py:68-105 | the early refusal fires exactly when the cap is below 10^18 and a single all-digit Content-Length exceeds it, at any length and with any leading zeros |
| `BodyLimit.SaturationKeepsOrder` | packages/relaypay/body_limit.py:102-105 | the saturated value is the numeral's value, or 10^18 when that is reached |
| `BodyLimit.Collect` | packages/relaypay/body_limit.py:110-126 | the loop's verdict on every message sequence, and sealed and pending bytes that are exactly those received |
| `BodyLimit.Extend` | packages/relaypay/body_limit.py:120-124 | a chunk joins the pending bytes, which become a block at 64 KiB, and no byte is lost |
| `BodyLimit.Finish` | packages/relaypay/body_limit.py:127-129 | the pending bytes become a last block, within cap/65536 + 1 blocks and at least one |
| `BodyLimit.ReadBounded` | packages/relaypay/body_limit.py:108-129 | the verdict on every message sequence, and on a complete body the bytes received, in between one and cap/65536 + 1 blocks none larger than the block size plus one chunk |
| `BodyLimit.Replay.Next` | packages/relaypay/body_limit.py:136-140 | each call serves the next block and says whether more follow |
| `BodyLimit.Replay.Drain` | packages/relaypay/body_limit.py:132-142 | draining the replay serves every block once, in order, and only the last without more |
| `BodyLimit.ReplayReadsBack` | packages/relaypay/body_limit.py:108-142 | replayed messages are again a complete body of the same blocks, within any cap they fit |
| `BodyLimit.NormalVerdict` | packages/relaypay/body_limit.py:108-129 | on a stream that ends normally the verdict is complete or overflow by its total alone |
| `BodyLimit.VerdictExactly` | packages/relaypay/body_limit.py:108-129 | complete, overflow, disconnected or still waiting, each by the message that decides it |
| `BodyLimit.Handle` | packages/relaypay/body_limit.py:64-84 | what the application sees: a refusal exactly when the one all-digit Content-Length exceeds the cap or the bytes do, or the received bytes within the cap, ending normally, in a bounded number of messages |
| `BodyLimit.ReadersAgree` | packages/relaypay/body_limit.py:108-129 | on a stream that ends normally and declares no length, the two readers accept exactly the bodies within the cap, and the Python reader's blocks join to the bytes of the other |
| `ChaosSchedule.WeightedEntry` | scripts/chaos/faults.py:57-64 | every draw below the total falls inside exactly the entry returned; the unreachable error is unreachable |
| `ChaosSchedule.PickSlot` | scripts/chaos/ops.py:118-130 | a valid pick is in the wanted stage, and a missing payment is invalid |
| `ChaosSchedule.RefundStep` | scripts/chaos/ops.py:146-164 | one more refund keeps the refunds within the amount, with two to ten of them to use it up |
| `ChaosSchedule.SlotAdvances` | scripts/chaos/ops.py:141-164 | a valid command moves its payment's slot to what the longer schedule implies and no other slot |
| `ChaosSchedule.Generator.CommandOp` | scripts/chaos/ops.py:141-174 | the operation appended agrees with the slots and fits the schedule |
| `ChaosSchedule.Generator.Step` | scripts/chaos/ops.py:192-253 | one turn of the loop keeps slots, replayable list and schedule consistent |
| `ChaosSchedule.SomethingReplayable` | scripts/chaos/ops.py:192-207 | the REPLAY branch always has something to replay, so its fallback create is unreachable |
| `ChaosSchedule.CandidatesExactly` | scripts/chaos/ops.py:205-209 | an operation is a candidate for REPLAY exactly when it is a CREATE, a single command or a payout with fewer than thirty of these since |
| `ChaosSchedule.ReplaysPointToCommands` | scripts/chaos/ops.py:201-213 | every REPLAY of every schedule points to one of the last thirty CREATEs, commands and payouts before it, never to another REPLAY |
| `ChaosSchedule.GenerateSchedule` | scripts/chaos/ops.py:177-253 | every schedule is self-contained; each payment's valid commands come after its CREATE in the order AUTHORIZE, CAPTURE, REFUND*, with refunds within its amount and two to ten to exhaust it; slots hold what the trace implies |
| `ScheduleJson.DictRoundTrip` | scripts/chaos/ops.py:94-103 | from_dict(to_dict(op)) gives back every operation |
| `ScheduleJson.ScheduleRoundTrip` | scripts/chaos/ops.py:256-262 | every schedule survives its JSON text |
| `ChaosDriver.BooksAreExact` | scripts/chaos/driver.py:362-381 | after every run of events, a key is answered exactly when acknowledged, and owed exactly when never acknowledged and crashed without a later rejection |
| `ChaosDriver.BooksOfSchedule` | scripts/chaos/driver.py:653-750 | the books of every schedule, by its operations and how they end: answered and owed, each if and only if |
| `ChaosDriver.NeverBoth` | scripts/chaos/driver.py:362-381 | no key is both answered and owed an answer |
| `ChaosDriver.NoPayoutOwed` | scripts/chaos/driver.py:695-703 | no payout is ever owed an answer |
| `ChaosDriver.SeedContext.RecordAck` | scripts/chaos/driver.py:362-381 | an answer is recorded and its key is owed nothing |
| `ChaosDriver.SeedContext.ExecuteCommand` | scripts/chaos/driver.py:384-445 | only an answered command that is not a payout is recorded |
| `ChaosDriver.SeedContext.RunDuplicates` | scripts/chaos/driver.py:653-685 | all duplicate threads' answers, then the crashes among them, in the books |
| `ChaosDriver.SeedContext.DispatchOp` | scripts/chaos/driver.py:723-750 | which command an operation runs and what it writes in the books |
| `ChaosDriver.SeedContext.RunOp` | scripts/chaos/driver.py:688-714 | the events that an operation adds to the books, and that a failure is reported exactly when the operation or a thread of it failed |
| `ChaosDriver.SeedContext.RetryUnanswered` | scripts/chaos/driver.py:777-785 | after the retry loop exactly the keys whose retry failed are still owed, those answered are recorded, and a failure is reported exactly when one failed |
| `ChaosDriver.DriveSeed` | scripts/chaos/driver.py:688-785 | over every schedule and environment, from the operations and their ends alone: who is answered and who is still owed an answer before the retries and after them, that no payout ever is, and when a failure is reported |
| `Coordinator.TenantCoordinator.Fetch` | apps/edge/src/index.ts:66-77 | the decision and the new storage for each request; a refusal changes nothing |
| `Coordinator.RunRefines` | apps/edge/src/index.ts:66-77 | storage always refines the log: replay keys are exactly the admitted ones and each counter is its minute's count |
| `Coordinator.DecidedExactly` | apps/edge/src/index.ts:66-77 | each of the four decisions on any request after any run, if and only if, by its window and the admissions so far |
| `Coordinator.ReplayAdmittedOnce` | apps/edge/src/index.ts:70-75 | over every run a key is admitted at most once, unless an earlier admission was at second zero |
| `Coordinator.ReplayDetectedExactly` | apps/edge/src/index.ts:70-71 | an admitted key is detected as a replay exactly when its last admission was not at second zero |
| `Coordinator.ReplayAtSecondZero` | apps/edge/src/index.ts:71-71 | any request in its window that is sent twice at second zero is admitted twice exactly when the limit is two or more, since the stored time is falsy |
| `Coordinator.BucketLimited` | apps/edge/src/index.ts:72-75 | no minute admits more than the limit |
| `Coordinator.AnyMinuteLimited` | apps/edge/src/index.ts:72-75 | any sixty consecutive seconds admit at most twice the limit |
| `WebhookPipeline.StepKeeps` | apps/edge/src/index.ts:108-129 | every step of a request, a delivery or a death keeps the pipeline invariant |
| `WebhookPipeline.ArchiveIsSound` | apps/edge/src/index.ts:114-126 | in every reachable state objects match their keys, queued references resolve, and no integrity branch was taken |
| `WebhookPipeline.AnsweredIsTracked` | apps/edge/src/index.ts:108-142 | a webhook answered 202 is queued, accepted with its digest, or given up after exactly the retry limit plus one deliveries |
| `WebhookPipeline.NeverLostWithoutLimit` | apps/edge/src/index.ts:140-142 | with retries that never stop, nothing answered 202 is lost |
| `WebhookPipeline.LimitLoses` | apps/edge/wrangler.jsonc:16-16 | with any retry limit, an origin that refuses one delivery more loses a 202 |
| `WebhookPipeline.NeverLostExactly` | apps/edge/src/index.ts:108-142 | a 202 is never lost exactly when the queue's retries never stop |
| `WebhookPipeline.AcceptedBytesAreTheBody` | apps/edge/src/index.ts:123-129 | with an injective digest, what the origin accepted for a request is that request's body |
| `WebhookPipeline.Worker.Webhook` | apps/edge/src/index.ts:108-121 | a request alone has the effect of its steps, answers 202 and leaves its reference queued |
| `WebhookPipeline.Worker.ConsumeBatch` | apps/edge/src/index.ts:140-142 | each message of a batch is forwarded once; exactly the refused ones with a retry left stay queued |

## Left out

- Updates that change a primary key, and updates or deletes of merchants and accounts: the model's tables name a row by its primary key, and these two tables only grow.
- The idempotency-target trigger of migration 0002: it guards idempotency_records, a table that no modelled guard reads.
- Tables beside the modelled ones (customers, beneficiaries, settlement runs, events, reconciliation, agents, disputes and the like): results that a transaction commits leave out foreign keys to and from them, such as a payment's customer or a settlement item that still names a deleted capture.
- Columns that no modelled guard reads (timestamps, authorization expiry, provider references, failure codes, fees): results that a transaction commits take them to hold values that their CHECKs allow. 64-bit overflow of amounts and sums is not modelled.
- Voids (migration 0024) and fees (migration 0025): their operation kind, accounts and columns come after the modelled schema.
- PostgreSQL isolation beyond what `CommitRace` needs: one READ COMMITTED snapshot per check, taken after the lock is held, and commits that are atomic.
- The remaining migrations: they add tables, indexes and single-column constraints that no result here depends on, so they have no counterpart.
- PaymentServices.ServicesAreDisciplined: the ids, the accounts and split of a journal entry, and the provider's verdict are inputs of a command; idempotency records, events, row locks and retries around a command are not modelled, and neither is the expiry time of an authorization.
- PaymentStatuses.StatusIsDerived: the expiry worker's batch is one transaction per payment, and voids, which come after the modelled schema, are not among the writers.
- ScopeMigration.Upgrade: takes the md5-derived environment ids as given and does not model a collision between two of them, or the api_keys rewrite of the same migration.
- OpeningMigration.Upgrade: takes the md5-derived ids as given and distinct from existing ids, and models neither the settlement tables it creates nor the new columns of payment_intents. It starts from any valid tables without merchants, of which those before the migration are some.
- JsonText.LoadsDumps: does not model floating-point numbers, surrogate escapes, the runtime's limit on the digits of an integer, or the detection of UTF-16 and UTF-32 input.
- Utf8.DecodeEncode: does not model Python strings that hold a lone surrogate, which `encode` refuses.
- Cursor.DecodeEncoded: takes the datetime text forms as parameters, and takes a document with `"v": 1.0` as outside the JSON of the model.
- ScheduleJson.DictRoundTrip: values of the wrong type in a dictionary are refused, where the runtime would keep them.
- DoublingReader.ReadBoundedBody: `Number()` is exact here; in the worker it rounds above 2^53, which changes no comparison with a cap below that.
- BodyLimit.Handle: does not model scopes other than HTTP, the response bytes of a refusal, or the request identifier.
- ChaosSchedule.GenerateSchedule: draws are arbitrary within their ranges; the weights and rates only make some of them more likely.
- ChaosDriver.SeedContext.RetryUnanswered: the commands are retried in any order, of which the order by operation index is one.
- ChaosDriver.DriveSeed: how a command ends is an input; the services behind it, the recovery poller, settlement and the rest of quiescence are not modelled.
- Coordinator.TenantCoordinator.Fetch: one request is one atomic step, as a durable object's input gate makes it; a limit that is not a number is not modelled.
- WebhookPipeline.StepKeeps: header validation, admission and the size limit come before its first step and are not repeated, and the signature headers towards the origin are not modelled.
- The payout, settlement, recovery and reconciliation services: their money rules are taken at the database guards that every writer meets, and the order in which they call the provider is not modelled.
- The HTTP routes, simulators, console, SDK and the other scripts: they format requests and responses around the code modelled here and keep no state of their own that a result above rests on.
