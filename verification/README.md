# Tontine engine: verified model

A Dafny model of the tontine (rotating savings) engine, with proofs, in five parts. The first three share one database.

**Settlement kernel** (`Database`, `Settlement`, `SettlementInvariant`, `SettlementRuns`, `SettlementTheorems`,
`SerialCallbacks`, `Transactions`, `Services`, `Answers`). Contribution callbacks, payouts, confirmations, failures, resilience
decisions and late repayments. Each is a read of the tables, kept by a worker for any length of time, and an atomic commit that
only the database guards: unique keys, CHECKs, foreign keys and the two triggers. `Settlement.Run` interleaves
reads and commits of any number of workers with steps from outside. `Transactions` and `Services` are the same operations as
objects updated in place, one SQL statement after the other, with early returns and rollback; each service method is
proved equal to plan-then-commit, for reads of any age. What a plan and its commit come to is stated a second time in
`Answers`, on the tables before and after: the answer to each request, and every row it adds or changes, column by column.

**Hash-chained ledger** (`Ledger`, `LedgerTheorems`, `LedgerTable`). Entries, the hashed text, both verifiers, and the
BIGSERIAL counter that a rollback does not rewind. SHA-256 (section 6.2 of FIPS 180-4) in hex is a parameter; results say
"or here are two different texts with one digest", and nothing is assumed of it but its width.

**Working capital and debts** (`WorkingCapitals`, `Debts`, `FundConservation`, `FundTheorems`, `RepaymentTheorems`,
`Counterexamples`). The policy, the fund with its reservations, the debts behind full advances, the repayment waterfall, and
runs from the empty database that reach what the kernel does not promise.

**Outbox worker** (`Backoff`, `OutboxWorker`, `OutboxTheorems`, `OutboxService`). Any number of workers, which may die, claim,
dispatch, retry and bury rows; the two back-off formulas in their 64-bit and 16-bit widths.

**Governance** (`Voting`, `Configs`, `ConfigStore`, `GovernanceTheorems`, `GovernanceService`, `GovernanceAnswers`,
`GovernanceCounterexamples`). Quorum, early decision, patches and diffs, and the versioned configuration store whose "one
committed configuration per group" index is checked after each statement.

`Wrappers`, `Ids`, `Text`, `Sums` and `Keys` hold what the parts share.

## What the proofs show against the code's own comments

- An append "never leaves a gap" (`pg_ledger_repo.rs:27-31`): it does, whenever a transaction that drew a number rolls back, and
  the ledger then fails its own verification for good. `LedgerTable.VerifiesIffNothingBurned` says exactly when. Two workers
  with one callback are enough (`Counterexamples.TwoWorkersLoseANumber`), and so is one worker that evaluates a pro-rata
  payout twice (`Counterexamples.SerialRunLosesANumber`).
- A late repayment is to pay the oldest debts first, up to what is owed. It does so only if no debt it touches has been repaid
  this very amount before, since the key is made of debt and amount (`resilience_service.rs:349`) and keys are unique:
  `RepaymentTheorems.RepaymentIsTheWaterfall` has the exact condition. Two equal instalments on one debt are enough, one after
  the other: `RepaymentTheorems.EqualInstalmentIsRefused`, `Counterexamples.EqualInstalmentsOccur`.
- Two repayments planned from the same read credit the fund twice: `RepaymentTheorems.RacingRepaymentsUnbalance`,
  `Counterexamples.RacingRepaymentsOccur`. `FundTheorems.BooksOfEveryRun` says by how much the books of any run are off.
- The pro-rata percentage is the floor of the share only up to a hundredth of the 64-bit range, because the product
  `collected_minor * 100` (`working_capital.rs:171`) wraps: `WorkingCapitals.ProRataIsFloor`. 93 million billion of 100
  million billion are recorded as 165 percent: `Counterexamples.AWrongPercentageIsRecorded`.
- The hybrid advance passes a fresh id to a column that references the ledger (`resilience_service.rs:303-305`), so it never
  commits: `FundTheorems.NoHybridEverCommits`. `Settlement` takes the reference as a parameter to describe both choices.
- The services reserve in memory only; without a reservation made by somebody else no advance ever commits:
  `FundTheorems.WithoutAReservationNothingIsLent`.
- The worker's back-off is "capped at 24 h" (`worker.go:106`) only up to 28 attempts; after that the product wraps and the
  delay is not positive, ten lucky counts apart: `Backoff.CappedAsPromisedIff`.
- Votes are counted against the members of the moment (`service.go:378-398`). A founder who is not a member, or members who
  leave after voting, use up votes that others still have, so a rejection can come too early: `Voting.RejectionExactly`,
  `GovernanceTheorems.ResolutionExactly`, `GovernanceCounterexamples.LeaversAreCounted`.
- The other proposal store (`repository_pg.go:305-323`) commits before it supersedes and can never pass the index:
  `GovernanceTheorems.CommitBeforeSupersedeNeverPasses`.

## Assumptions

- Reading the ledger head and inserting the next row is one step, and commits are atomic and serial, as the repository intends.
- The reads of one request see one state of the tables.
- A fund is reserved by outside steps (`Reserve`, `CancelReservation`) before an advance is confirmed, as the domain type
  demands. Admitting cycles, opening them to contributions, opening funds and depositing are outside steps too.
- Times, fresh identifiers, wallet bindings and the answers of dispatchers are parameters.

## Model

| member | source | states |
|---|---|---|
| Ledger.CanonicalReadsBack | kernel/src/domain/ledger.rs:37-58 | the canonical names are read back to their event types, so they are pairwise different, and none holds a colon |
| Ledger.ChainInputInjective | kernel/src/domain/ledger.rs:146-153 | the colon-joined text determines number, type, payload hash and predecessor, GENESIS included, for stored hash widths |
| Ledger.AmbiguousWithoutWidths | kernel/src/domain/ledger.rs:146-153 | without the fixed widths two different entries are hashed from the same text, in two ways |
| Ledger.VerifyChain | kernel/src/domain/ledger.rs:208-276 | of the entries alone: a gap, a broken link or a wrong hash is reported under a number iff an entry of that number has that fault, each fault once, by position and then gap, link, hash; valid iff every position is sound |
| Ledger.VerifyLedgerIntegrity | social/audit/service.go:280-304 | reported are exactly the positions whose hash is not that of their own text and the hash before them, in order; accepted iff there is none |
| LedgerTheorems.TamperEvidence | kernel/src/domain/ledger.rs:208-276 | two accepted ledgers starting at 1 or later and ending in one hash agree in length and at every position, or a collision is exhibited |
| LedgerTheorems.StartBelowOneIsNotCovered | kernel/src/domain/ledger.rs:229-240 | behind a number 0 the entry numbered 1 links to nothing: two different accepted ledgers end in one hash |
| LedgerTheorems.VerifiersAgree | social/audit/service.go:280-304 | kernel acceptance is audit acceptance plus contiguous numbers plus matching link fields |
| LedgerTheorems.KernelAcceptsOnlyPrefixes | kernel/src/domain/ledger.rs:208-276 | a subsequence of an accepted ledger from 1 is accepted by the kernel iff it is a prefix |
| LedgerTheorems.AuditAcceptsOnlyPrefixes | social/audit/service.go:207-304 | a group's slice of an accepted ledger passes the audit iff it is a prefix, or a collision is exhibited |
| LedgerTheorems.AggregateVerification | kernel/src/infrastructure/pg_ledger_repo.rs:102-125 | verifying one aggregate alone succeeds iff it owns every entry up to its last one |
| LedgerTable.VerifiesIffGapless | kernel/src/infrastructure/pg_ledger_repo.rs:32-100 | a ledger written by appends verifies iff its numbers have no gap, or a collision is exhibited |
| LedgerTable.OnlyRowsAfterGapsFail | kernel/src/infrastructure/pg_ledger_repo.rs:32-100 | a row written by appends is at fault iff a number was lost right before it, or a collision is exhibited: behind a gap the ledger is sound again |
| LedgerTable.VerifiesIffNothingBurned | kernel/src/infrastructure/pg_ledger_repo.rs:32-100 | over every run of append transactions: the stored ledger verifies iff no number was burned before a committed append, or a collision is exhibited |
| Keys.Families | kernel/src/application/contribution_service.rs:111 | every idempotency key names its family, so keys of different families never clash |
| Keys.PayoutKeyInjective | kernel/src/domain/cycle.rs:108 | payout keys of different cycles differ |
| Keys.ReferenceKeysInjective | kernel/src/application/payout_service.rs:196-197 | keys built from different references differ, in each family keyed by a reference |
| Keys.RepayKeyInjective | kernel/src/application/resilience_service.rs:349 | repayment keys tell debt and amount apart, and nothing else |
| Keys.AmountKeysInjective | kernel/src/application/resilience_service.rs:151-413 | advance, pro-rata and hybrid keys tell cycle and amount apart, debt keys the debt |
| Settlement.NumberLength | kernel/src/domain/identity.rs:71-85 | a plus and digits is a valid number iff there are seven to fifteen of them; without the plus nothing is |
| Cycles.ViewAndAutomatonAgree | migrations/003_cycles.sql:56-74 | the SQL view shows a cycle iff the automaton finds it eligible and its beneficiary has an active primary wallet; decided is what was collected, for the beneficiary, under the cycle's key; when and why a full cycle is blocked; none is due for payout and resilience at once |
| Cycles.CycleAggregate.MarkPayoutTriggered | kernel/src/domain/cycle.rs:121-132 | succeeds iff committed and not sent, writes both states and the key, and keeps the states coupled |
| Cycles.CycleAggregate.MarkPayoutConfirmed | kernel/src/domain/cycle.rs:135-144 | succeeds iff pending or sent, closes the cycle, and keeps the states coupled |
| Cycles.CycleAggregate.MarkPayoutFailed | kernel/src/domain/cycle.rs:147-151 | never refused: disputed and failed, coupled whatever came before |
| WorkingCapitals.AdvanceIsLargest | kernel/src/domain/working_capital.rs:60-84 | the advance is the largest amount within gap and availability, and covers fully iff the fund does |
| WorkingCapitals.ProRataIsFloor | kernel/src/domain/working_capital.rs:164-178 | below the threshold the percentage is the floor of the collected share iff the collected amount is at most a hundredth of the 64-bit range; distributed and missing amounts always add up to the threshold |
| WorkingCapitals.NinetyThreePercentReadsAs165 | kernel/src/domain/working_capital.rs:164-178 | two legal amounts whose share of 93 percent comes out as 165 |
| WorkingCapitals.HybridPolicyPaysTheMost | kernel/src/application/resilience_service.rs:94-122 | every branch of the hybrid policy pays min(threshold, collected + available), and it blocks iff that is not positive |
| WorkingCapitals.PolicyExactly | kernel/src/application/resilience_service.rs:94-122 | for every policy the exact decision and what can be paid: waiting pays nothing, the fund alone the threshold or nothing, pro rata exactly what was collected and never a loan, both together the minimum of threshold and what is there |
| WorkingCapitals.NoPolicyOverpays | kernel/src/application/resilience_service.rs:94-122 | no policy pays more than the threshold or than what is there |
| WorkingCapitals.WorkingCapital.ReserveAdvance | kernel/src/domain/working_capital.rs:88-103 | reserves iff the amount is positive and available, and keeps 0 <= reserved <= balance |
| WorkingCapitals.WorkingCapital.ConfirmAdvance | kernel/src/domain/working_capital.rs:106-115 | debits iff reserved; what is available does not move |
| WorkingCapitals.WorkingCapital.CancelAdvanceReservation | kernel/src/domain/working_capital.rs:118-120 | releases at most what is reserved |
| WorkingCapitals.WorkingCapital.ReceiveRepayment | kernel/src/domain/working_capital.rs:123-125 | what is available grows by the amount, and a sound fund stays sound iff the amount does not take back more than was available |
| WorkingCapitals.WorkingCapital.Deposit | kernel/src/domain/working_capital.rs:128-130 | what is available grows by the amount, and a sound fund stays sound iff the amount does not take back more than was available |
| WorkingCapitals.WorkingCapital.ReserveThenConfirm | kernel/src/domain/working_capital.rs:227-238 | reserving and confirming debits once and leaves earlier reservations alone |
| WorkingCapitals.WorkingCapital.AdvanceAndGetBack | kernel/src/domain/working_capital.rs:88-125 | an advance that is repaid in full leaves balance and reservations as they were, and can be made again |
| Debts.Debt.ApplyRepayment | kernel/src/domain/debt.rs:89-101 | repays the smaller of offer and rest, is repaid iff the offer covers the rest |
| Debts.Debt.WriteOff | kernel/src/domain/debt.rs:104-107 | owes nothing and is no longer active |
| Debts.WaterfallIsOldestFirst | kernel/src/application/resilience_service.rs:332-375 | a prefix of the debts is cleared and dated, at most the next is reduced, all later ones and all other columns are untouched |
| Debts.WaterfallRepays | kernel/src/application/resilience_service.rs:332-375 | exactly min(amount, total owed) is repaid |
| Transactions.Store.constructor | migrations/004_ledger.sql:30 | an empty database whose counter starts at 1 |
| Transactions.Transaction.Begin | kernel/src/application/payout_service.rs:107-111 | a transaction starts from the committed tables |
| Transactions.Transaction.Commit | kernel/src/application/payout_service.rs:154-156 | the pending tables replace the committed ones |
| Transactions.Transaction.Append | kernel/src/infrastructure/pg_ledger_repo.rs:32-100 | a free key is appended under the counter's number with the head's hash; a used key is a unique violation; the counter moves either way |
| Transactions.Transaction.EnsurePaymentInstrument | kernel/src/infrastructure/pg_identity_repo.rs:151-177 | an unknown provider is refused; otherwise the instrument is upserted and a known owner is kept |
| Transactions.Transaction.InsertContribution | kernel/src/infrastructure/pg_contribution_repo.rs:140-183 | refused by trigger or CHECK, a unique violation on a used reference, else appended |
| Transactions.Transaction.InsertReconciled | kernel/src/infrastructure/pg_contribution_repo.rs:82-138 | the row and the counter together, unless the counter would leave 64 bits |
| Transactions.Transaction.InsertOutbox | kernel/src/infrastructure/pg_outbox_repo.rs:30-74 | the event, unless its key is there already |
| Transactions.Transaction.UpdatePayoutState | kernel/src/infrastructure/pg_cycle_repo.rs:59-99 | both state columns, and the key if given, iff trigger and unique key allow it |
| Transactions.Transaction.InsertDebt | kernel/src/infrastructure/pg_debt_repo.rs:67-93 | inserted iff the id is new and the amounts pass the CHECKs |
| Transactions.Transaction.UpdateDebt | kernel/src/infrastructure/pg_debt_repo.rs:95-114 | the debt's columns overwrite its row iff the CHECK on the row holds |
| Transactions.Transaction.ConfirmAdvance | kernel/src/infrastructure/pg_working_capital_repo.rs:70-103 | debit, release and journal row, iff the CHECKs and the journal's foreign keys hold |
| Transactions.Transaction.ReceiveRepayment | kernel/src/infrastructure/pg_working_capital_repo.rs:105-135 | credit and journal row, iff the CHECKs and the journal's foreign keys hold |
| Services.ContributionService.HandleCallback | kernel/src/application/contribution_service.rs:55-102 | checks in order, then exactly the planned commit, with reads of any age |
| Services.ContributionService.ReconcileContribution | kernel/src/application/contribution_service.rs:104-202 | statement by statement the same state and outcome as the atomic reconciliation, refusals included |
| Services.ContributionService.QuarantineContribution | kernel/src/application/contribution_service.rs:204-295 | statement by statement the same state and outcome as the atomic quarantine, refusals included |
| Services.PayoutService.RunPayoutEvaluation | kernel/src/application/payout_service.rs:43-62 | one pass over the rows of the view, each cycle read afresh, failures skipped |
| Services.PayoutService.ProcessEligibleCycle | kernel/src/application/payout_service.rs:64-94 | an invalid number is refused first; otherwise initiates iff the automaton finds the cycle read eligible |
| Services.PayoutService.InitiatePayout | kernel/src/application/payout_service.rs:98-168 | ledger, outbox and cycle row as the atomic initiation, or nothing but a lost number |
| Services.PayoutService.ConfirmPayout | kernel/src/application/payout_service.rs:173-256 | idempotent outcomes before the transaction, and exactly the atomic confirmation |
| Services.PayoutService.FailPayout | kernel/src/application/payout_service.rs:260-359 | ignored once confirmed or failed, else exactly the atomic failure |
| Services.ResilienceService.EvaluateResilience | kernel/src/application/resilience_service.rs:57-123 | every blocked, met, full, pro-rata and hybrid branch as planned and committed |
| Services.ResilienceService.TryFullAdvance | kernel/src/application/resilience_service.rs:127-199 | issues the advance iff it covers the whole gap |
| Services.ResilienceService.IssueFullAdvance | kernel/src/application/resilience_service.rs:139-190 | advance entry, debt, debt entry and debit as one commit, or one or two lost numbers |
| Services.ResilienceService.CreateDebtRecordsInTx | kernel/src/application/resilience_service.rs:382-430 | one debt for the whole advance and its ledger entry |
| Services.ResilienceService.ApplyProRata | kernel/src/application/resilience_service.rs:202-263 | dispatches what was collected, once per amount |
| Services.ResilienceService.ApplyHybrid | kernel/src/application/resilience_service.rs:266-313 | the hybrid commit with the fresh id the code passes |
| Services.ResilienceService.ProcessLateRepayment | kernel/src/application/resilience_service.rs:317-380 | the loop over debt objects is the atomic repayment, all statements or none |
| Services.ResilienceService.RepayDebt | kernel/src/application/resilience_service.rs:332-375 | one turn: entry, credit if there is a fund, debt row |
| Services.FinishIsACommitStep | kernel/src/application/payout_service.rs:173-256 | a service whose reads are old is a read step and, after anything others did, a commit step of the interleaved system |
| SettlementRuns.ReachableIsOk | kernel/src/application/payout_service.rs:98-359 | the invariant (ledger, keys, outbox, money, references, payouts, states, order) holds in every state of every interleaving |
| Answers.CallbackAnswers | kernel/src/application/contribution_service.rs:55-295 | every callback, in every reachable state: taken in iff new and acceptable, with its contribution (cycle's beneficiary, payer iff bound), credit, notification, total and instrument; processed iff its reference is known, ignored iff its cycle is not committed; otherwise no table moves |
| Answers.PayoutAnswers | kernel/src/application/payout_service.rs:64-168 | every evaluation, in every reachable state: the command goes to the gateway iff the row is payable, for all that was collected, with debit and both states; otherwise nothing changes |
| Answers.ConfirmationAnswers | kernel/src/application/payout_service.rs:173-256 | every confirmation, in every reachable state: recorded iff the payout waits and the reference is new, with entry, notification and both states; known iff confirmed or the reference was used; otherwise refused |
| Answers.FailureAnswers | kernel/src/application/payout_service.rs:260-359 | every failure, in every reachable state: recorded iff neither confirmed nor failed and the reference is new; ignored iff confirmed; known iff failed or the reference was used |
| Answers.WaitingChangesNothing | kernel/src/application/resilience_service.rs:94-97 | on any tables, a request under the waiting policy leaves tables and counter as they are and is never answered with a payment |
| Answers.ResilienceAnswers | kernel/src/application/resilience_service.rs:57-313 | every evaluation, in every reachable state: answered as state, threshold and policy say, and entries, debt, fund and journal hold exactly the amounts answered |
| Answers.RepaymentIsBooked | kernel/src/application/resilience_service.rs:332-375 | a recorded repayment credits in the ledger what each debt has fallen by, oldest first, and touches no cycle, contribution or event |
| Answers.ProcessedForever | kernel/src/application/contribution_service.rs:58-71 | however the run goes on, a callback taken in once is answered as processed and changes nothing |
| Answers.SettledForever | kernel/src/application/payout_service.rs:173-280 | however the run goes on, a closed cycle answers confirmations as known and ignores failures |
| Answers.OwnersAreNeverForgotten | kernel/src/infrastructure/pg_identity_repo.rs:151-177 | in every interleaving an instrument out of quarantine has an owner, one that ever had an owner has one, and only the four providers occur |
| SettlementTheorems.AtMostOnePayout | kernel/src/application/payout_service.rs:64-168 | in every interleaving at most one initiation per cycle, for between the threshold and the collected total |
| SettlementTheorems.FrozenAndClosedForGood | migrations/007_contribution_cycle_guards.sql:26-30 | a cycle that stopped collecting keeps its total for good, and a closed cycle stays closed and confirmed |
| SettlementTheorems.CoupledInEveryRun | kernel/src/infrastructure/pg_cycle_repo.rs:59-99 | closed iff confirmed, disputed iff failed, triggered iff pending or sent, stale commits included |
| SettlementTheorems.ClosedWasInitiatedThenConfirmed | kernel/src/application/payout_service.rs:173-256 | a closed cycle has an initiation in the ledger and a confirmation after it |
| SettlementTheorems.MoneyIsExact | kernel/src/infrastructure/pg_contribution_repo.rs:82-138 | collected amount, reconciled contributions and ledger credits are one number in every interleaving, no reference counts twice, quarantined money never counts |
| SettlementTheorems.OutboxMirrorsLedger | kernel/src/domain/events.rs:57-80 | in every reachable state the k-th event is that of the k-th published row: same key and cycle, the event name of its type, the gateway iff it is a payout and else the notifications; no key twice |
| SettlementTheorems.ContributionsMirrorLedger | kernel/src/application/contribution_service.rs:104-295 | in every reachable state the contributions are those of the ledger, in order: cycle, reference and amount, reconciled iff received, for the cycle's beneficiary, with a payer iff reconciled |
| SettlementTheorems.MoneyGoesOneWay | kernel/src/application/resilience_service.rs:139-430 | in every reachable state contributions and repayments are credits, payouts, advances, debts and dispatches debits, and confirmations and failures carry no amount; there are no other rows |
| SettlementTheorems.ConflictBranchNeverTaken | kernel/src/infrastructure/pg_outbox_repo.rs:30-74 | an event whose ledger key is free is really inserted, so DO NOTHING never happens |
| SettlementTheorems.DuePayoutCommitsInFull | kernel/src/application/payout_service.rs:64-168 | a payout found due on fresh reads commits, for exactly what its cycle will ever have collected, whatever other workers hold and commit later |
| SettlementTheorems.OneEvaluation | kernel/src/application/payout_service.rs:64-94 | one evaluation pays its cycle iff it is due and its number valid, and touches no other cycle |
| SettlementTheorems.OnePassPaysEveryDueCycle | kernel/src/application/payout_service.rs:43-62 | one pass leaves every due cycle that has a row with a valid number triggered and paid in full, and every other cycle as it was |
| SettlementTheorems.SchedulerPaysTheView | migrations/003_cycles.sql:56-74 | in every reachable state, a pass over the view pays exactly the due cycles whose beneficiary has an active primary wallet with a valid number, each in full |
| SettlementTheorems.LedgerOfARunVerifies | kernel/src/domain/ledger.rs:208-276 | the ledger of any run verifies iff its numbers have no gap, or a collision is exhibited |
| SettlementTheorems.ALostNumberIsForever | migrations/004_ledger.sql:30 | once a number is lost, every longer ledger of every continuation fails verification, or a collision is exhibited |
| SettlementTheorems.ARefusedDuplicateLosesANumber | kernel/src/application/contribution_service.rs:144-152 | the refused commit of an already reconciled callback leaves the rows and moves the counter |
| Counterexamples.TwoWorkersLoseANumber | kernel/src/application/contribution_service.rs:55-152 | a reachable state whose counter is ahead of its only row: two workers read one callback before either commits |
| Counterexamples.SecondEvaluationLosesANumber | kernel/src/application/resilience_service.rs:202-263 | a pro-rata evaluation repeated on an unchanged cycle is refused, changes no table and takes a number with it |
| Counterexamples.SerialRunLosesANumber | kernel/src/application/resilience_service.rs:202-263 | a serial run after which that happens |
| Counterexamples.AWrongPercentageIsRecorded | kernel/src/domain/working_capital.rs:164-178 | a serial run after which the ledger records 165 percent for a share of 93 |
| SerialCallbacks.OrderAndRepetitionDoNotMatter | kernel/src/application/contribution_service.rs:55-102 | callbacks in any order and repetition leave each cycle with what it had plus the distinct new resolvable references |
| SerialCallbacks.FirstReplyWins | kernel/src/application/payout_service.rs:173-359 | after any confirmations and failures a triggered payout is settled as its first reply said, with one outcome entry |
| FundTheorems.FundIsItsJournal | kernel/src/infrastructure/pg_working_capital_repo.rs:70-135 | in every interleaving 0 <= reserved <= balance, and the fund row is the replay of its journal |
| FundTheorems.BooksOfEveryRun | kernel/src/application/resilience_service.rs:317-380 | in every interleaving the books are off by exactly the drifts of the committed repayments, so they balance iff these add up to zero |
| FundTheorems.BooksBalance | kernel/src/application/resilience_service.rs:127-199 | in every run with fresh repayments, advanced minus repaid is what debts still owe plus the hybrid advances |
| FundTheorems.SerialRunsAreFresh | kernel/src/application/resilience_service.rs:317-380 | serial runs have fresh repayments, so their books balance |
| FundTheorems.RepaymentBalancesIffNoDrift | kernel/src/application/resilience_service.rs:317-380 | a committed repayment keeps the books balanced iff what it read of the debts it touches is what they still owe, fund by fund |
| FundTheorems.NoHybridEverCommits | kernel/src/application/resilience_service.rs:303-305 | in every interleaving of the service as it is, no hybrid advance is in the ledger and every one a worker holds is refused |
| FundTheorems.BooksAsShipped | kernel/src/application/resilience_service.rs:266-313 | so in every run of the service as it is, advanced minus repaid is what debts still owe, less the drifts of stale repayments |
| FundTheorems.FullAdvanceCommitsIffReserved | migrations/009_resilience.sql:37-55 | a full advance commits iff its keys and debt id are new and its amount is already reserved in the database |
| FundTheorems.WithoutAReservationNothingIsLent | kernel/src/application/resilience_service.rs:127-199 | if nobody else reserves, no fund ever lends in any run |
| RepaymentTheorems.LoopIsTheWaterfall | kernel/src/application/resilience_service.rs:332-375 | the repayment loop leaves the rows of the waterfall, every other row alone, and credits each fund with what was repaid to it |
| RepaymentTheorems.LoopGoesThroughIff | kernel/src/application/resilience_service.rs:332-375 | the loop commits iff two conditions on the tables before it hold: the key of every instalment is new, and every fund takes its credit |
| RepaymentTheorems.RepaymentIsTheWaterfall | kernel/src/application/resilience_service.rs:317-380 | a repayment is recorded iff there is an active debt, every instalment's key is new and every credit fits; then it pays the active debts oldest first, min(amount, owed) in all, in the table and in the funds, and otherwise it changes nothing |
| RepaymentTheorems.EqualInstalmentIsRefused | kernel/src/application/resilience_service.rs:340-349 | a second instalment of the same amount on the same debt is always refused |
| Counterexamples.EqualInstalmentsOccur | kernel/src/application/resilience_service.rs:340-349 | a serial run to a debt on which that happens, for every amount up to half the debt |
| RepaymentTheorems.RacingRepaymentsUnbalance | kernel/src/application/resilience_service.rs:317-380 | two different repayments of one debt planned from one read both commit if their keys are free and the fund takes both, and the books are off by the first |
| Counterexamples.RacingRepaymentsOccur | kernel/src/application/resilience_service.rs:317-380 | a reachable state whose books are off by the first of two such repayments |
| RepaymentTheorems.OneFundIsCreditedInFull | kernel/src/infrastructure/pg_working_capital_repo.rs:105-135 | a single fund is credited with exactly min(amount, owed) |
| Backoff.DelaysInUse | internal/outboxworker/worker.go:107-113 | retries 1 to 9 wait exactly 30 * 2^k seconds, unwrapped, uncapped, and as long as the kernel's formula says |
| Backoff.CappedAsPromisedIff | internal/outboxworker/worker.go:106-113 | the delay is the capped exponential iff attempts are at most 28 or one of ten lucky counts, and otherwise not positive |
| Backoff.FormulasAgreeIff | kernel/src/infrastructure/pg_outbox_repo.rs:127-131 | worker and kernel repository agree on the delay iff attempts are at most ten |
| OutboxTheorems.HeldByAtMostOneWorker | internal/outboxworker/worker.go:115-148 | in every run, dying workers included, a row is held at most once and only while in processing |
| OutboxTheorems.AtMostTenDispatches | internal/outboxworker/worker.go:81-95 | at most ten dispatches and one success per row; delivered means one success, dead letter ten failures, unhandled none at all |
| OutboxTheorems.EndedForever | internal/outboxworker/worker.go:115-148 | delivered and dead rows never change again |
| OutboxTheorems.SuccessIsLast | internal/outboxworker/worker.go:81-95 | a row is only ever dispatched if no earlier dispatch succeeded and fewer than ten failed |
| OutboxTheorems.ProcessingIffHeld | internal/outboxworker/worker.go:115-148 | if no worker dies, a row is in processing iff somebody holds it |
| OutboxTheorems.CallsDecide | internal/outboxworker/worker.go:81-95 | if no worker dies, a handled row at rest is delivered iff one call succeeded, dead iff ten failed, else waiting with as many attempts as failures |
| OutboxTheorems.ServiceMakesProgress | internal/outboxworker/worker.go:81-171 | one service ends the row or uses up one attempt, with the exact retry time |
| OutboxTheorems.UnhandledRowIsDueAtOnce | internal/outboxworker/worker.go:81-113 | from its 29th retry on, a row without dispatcher is due again at once, lucky counts apart |
| OutboxTheorems.NewRowIsDueAtOnce | migrations/005_outbox.sql:18 | a new row can be claimed from the moment it is inserted, with all its attempts |
| OutboxService.DueIsAValidClaim | internal/outboxworker/worker.go:115-131 | a batch takes due rows by their times, each once, at most fifty, fewer only if no other is due, none passed over for a later one |
| OutboxService.Worker.FindDispatcher | internal/outboxworker/worker.go:97-104 | the first dispatcher that can handle the target, if any |
| OutboxService.Worker.ClaimPending | internal/outboxworker/worker.go:115-148 | the batch is put in processing and handed out as copies; no other row moves |
| OutboxService.Worker.ProcessOne | internal/outboxworker/worker.go:81-95 | the row is retried, delivered or buried as dispatcher and attempts decide, after at most one call |
| OutboxService.Worker.ScheduleRetry | internal/outboxworker/worker.go:159-171 | failed, one attempt more in 16 bits, due after the back-off |
| OutboxService.Worker.MarkDelivered | internal/outboxworker/worker.go:150-157 | only the status of this row changes |
| OutboxService.Worker.MarkDeadLetter | internal/outboxworker/worker.go:173-177 | only the status of this row changes; attempts stay |
| OutboxService.Worker.ProcessBatch | internal/outboxworker/worker.go:65-79 | a whole batch is a run of the protocol: one claim, then each row dispatched and settled in turn, at its own time |
| Voting.RequiredIsTheLeastQuorum | social/governance/service.go:400-408 | the required count is the least that reaches the quorum; for legal quorums a strict majority and at most the membership |
| Voting.ComputeResolutionStats | social/governance/service.go:378-398 | the loop's counters are the tallies, and pending never goes below zero |
| Voting.EarlyDecisionIsSound | social/governance/service.go:233-272 | with member voters only: rejected iff no completion could approve, approval and rejection survive further votes, decided once all have voted |
| Voting.RejectionExactly | social/governance/service.go:378-398 | for any voters beside the members counted: what cannot pass is always rejected, and what can is rejected iff the members counted as pending are too few while all who may still vote are enough |
| Voting.OutsideFounderExactly | social/governance/service.go:267-272 | with an outside founder the early rejection is right iff approvals and votes to come do not add up to exactly the required number |
| Voting.LeaversRejectTooEarly | social/governance/service.go:378-398 | two members who reject and leave make the rule reject what the two who stay could still approve |
| Voting.OutsideFounderRejectsTooEarly | social/governance/service.go:267-272 | a concrete vote of an outside founder that rejects what the members could still approve |
| Voting.NobodyToAsk | social/governance/service.go:400-403 | without active members every proposal passes unvoted |
| Configs.ValidateMemberOrder | social/governance/service.go:335-348 | accepts iff all trimmed identities are non-blank and pairwise different |
| Configs.TrimTakesSpaceOffBothEnds | social/governance/service.go:335-348 | what is compared is the text without the white space at its ends, all of it and nothing else |
| Configs.LowersTo | social/governance/service.go:303-309 | a text is taken for a period name iff each letter is that letter, small or capital |
| Configs.BuildProposedConfig | social/governance/service.go:274-333 | refuses empty, illegal and ineffective patches, else the base with the patched fields as next version in review; `GovernanceAnswers.PatchDecides` says which and how |
| GovernanceAnswers.PatchDecides | social/governance/service.go:274-333 | for every base and patch: built iff the present fields are legal and one differs, then field by field the patch's value or the base's, in review; each refusal with its error |
| Configs.DiffFields | social/governance/service.go:350-376 | a field is in the diff iff it changed, with both its values, and nothing else is |
| Configs.DiffIsAFaithfulPatch | social/governance/service.go:350-376 | the diff applied forward gives the proposal, backward the base, and is empty iff the five fields agree |
| ConfigStore.NextVersionIsUnique | social/governance/repository.go:140-153 | the version query has one answer |
| GovernanceTheorems.ExactlyOneCommitted | migrations/002_groups_configs.sql:45-47 | in every run a group's active configuration is committed and is its only committed one |
| GovernanceTheorems.ApprovalCommitsIffBaseIsActive | social/governance/repository.go:318-376 | every statement of an approval passes the index iff the base is still active |
| GovernanceTheorems.StaleIsNeverApproved | social/governance/repository.go:318-376 | a proposal whose base lost its place is never approved, however the run goes on |
| GovernanceTheorems.ResolvedForever | social/governance/service.go:219-224 | a resolved proposal never changes again |
| GovernanceTheorems.ResolutionIsSound | social/governance/service.go:190-265 | in every run, resolving rejects iff no completion can pass, approves iff the number is reached on an active base, and is not pending once all voted |
| GovernanceTheorems.ResolutionExactly | social/governance/service.go:190-265 | in every run and for any voters: what cannot pass is rejected, what can is rejected iff the members counted as pending are too few while all who may still vote are enough, and approval needs the number on an active base |
| GovernanceCounterexamples.LeaversAreCounted | social/governance/service.go:190-265 | a reachable proposal that could still pass and is rejected, after two of four members voted and left |
| GovernanceTheorems.CommitBeforeSupersedeNeverPasses | social/governance/repository_pg.go:305-323 | the other store's order violates the index for every open proposal of every run |
| GovernanceTheorems.StoredDiffsAreFaithful | social/governance/repository.go:155-231 | every stored diff patches base into proposal and back, and is not empty |
| GovernanceAnswers.ProposalAnswers | social/governance/service.go:64-138 | in every reachable store: made iff a governor brings a legal patch that says something new, and then exactly these two rows, whose diff has exactly the patch's new values; each refusal with its error, and nothing changes |
| GovernanceAnswers.VoteAnswers | social/governance/service.go:140-188 | in every reachable store: taken iff a governor votes for the first time on an open proposal, and then appended; each refusal with its error, and nothing changes |
| GovernanceAnswers.ResolutionAnswers | social/governance/service.go:190-265 | in every reachable store: an approval or rejection has exactly its effects on proposal, configurations and group; a resolved proposal is answered as it is; each refusal with its error, and nothing changes |
| GovernanceTheorems.HistoryReachesARoot | social/governance/service.go:292-297 | following predecessors strictly decreases versions within the group and ends at a root |
| GovernanceService.Repository.GetNextConfigVersion | social/governance/repository.go:140-153 | one more than the group's largest version, or 1 |
| GovernanceService.Repository.CreateProposal | social/governance/repository.go:155-231 | both rows or none, iff every constraint holds |
| GovernanceService.Repository.UpdateProposalVotes | social/governance/repository.go:291-316 | the votes of an existing proposal, or not found |
| GovernanceService.Repository.MarkProposalApproved | social/governance/repository.go:318-376 | four updates or none, iff the index holds after each statement |
| GovernanceService.Repository.MarkProposalRejected | social/governance/repository.go:378-414 | proposal rejected and its configuration superseded |
| GovernanceService.Service.GetProposal | social/governance/service.go:37-62 | the proposal with the state of its vote, or not found |
| GovernanceService.Service.CreateProposal | social/governance/service.go:64-138 | every refusal in order, else the new version and its open proposal |
| GovernanceService.Service.CastVote | social/governance/service.go:140-188 | every refusal in order, no second vote, else the vote appended |
| GovernanceService.Service.ResolveProposal | social/governance/service.go:190-265 | approve, reject, pending or already resolved, as tally and index decide |

## Left out

- HTTP and WhatsApp front ends, dashboards, templates, notification texts, provider clients, HMAC checks, logging and tickers: plumbing.
- Anomaly detection, compliance reports and the export around the audit verifier: queries without state to keep.
- Row locks, READ COMMITTED re-reads and concurrent head reads: chain linkage under concurrent appends is not claimed.
- The resilience scheduler's loop over overdue cycles: each cycle is evaluated as `EvaluateResilience` says.
- Reclaiming rows of dead outbox workers: the code has none, so delivery is not claimed across crashes; a dead worker's row stays in processing.
- JSON rendering of payloads: a payload is its fields joined by commas; the chain covers its hash only, as in the code.
- CHAR(64) blank padding, VARCHAR length limits, and the 64-bit overflow of the ledger number.
- Entry UUIDs, creation times and the service name of ledger entries: a row is identified by its number, and an id no row carries is `FreshId`.
- The provider parsed for a payout and the wallet data in its payload: they are passed on, never decided upon. The number is checked.
- Builds with overflow checks: there the pro-rata product panics where the model wraps it.
- Foreign keys to identities and groups in the settlement tables: identities and groups are taken to exist.
- The detail texts of integrity violations, and the reasons and amounts repeated in the answers of resilience evaluations.
- Debts.Debt.WriteOff: proved for the debt object; the repository's bulk write-off is not a step of the conservation runs.
- Services.ResilienceService.EvaluateResilience: the payout that is said to follow an advance is not modelled, because the code contains no step that makes it.
- RepaymentTheorems.RepaymentIsTheWaterfall: for amounts that are not negative, as contributions are.
- Backoff.FormulasAgreeIff: for attempt counts that are not negative; the kernel's shift by a negative count is not modelled.
- OutboxTheorems.AtMostTenDispatches: all workers have the same dispatchers, as one binary does.
- Configs.BuildProposedConfig: JSON values of the payout policy are texts, member ids are compared as trimmed texts and not as UUIDs, and lower-casing covers the letters that can matter to the three period names.
- GovernanceTheorems.ExactlyOneCommitted: the first configuration of a group is put in place by a step from outside.
- Expiry of proposals: the store that is wired in never expires one.
