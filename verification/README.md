# Verified model of the Ghost Protocol money path

A Dafny model of the parts of this repository whose correctness is not visible in any single function, with proofs of
what they guarantee together.

- **Credits** (`CreditState`, `CreditSteps`, `CreditInvariants`, `CreditProof`, `CreditTheorems`, `CreditAnswers`,
  `CreditHistory`, `CreditStore`, `DepositSync`, `DepositRoute`, `DepositRaces`, `DepositCalls`). Balances, holds,
  nonces, earnings and the ledger of `lib/db.ts`. Every exported operation is one transaction that commits or throws;
  runs are arbitrary interleavings of them. Conservation, the held balance, hold outcomes, the audits and the deposit
  cursor are statements over all runs. `CreditAnswers` says exactly when each operation gives each of its answers, and
  `CreditHistory` traces holds, captures, expiries and earnings back to the requests that caused them. `DepositRoute`
  runs the one caller of the deposit sync, with the ledger cursor it reads derived from the rows its own syncs write.
- **Merchant settlement** (`SettlementAmounts`, `RollupSelection`, `RollupMeaning`, `SettlementState`,
  `SettlementSteps`, `SettlementLockstep`, `SettlementRun`, `SettlementProof`, `SettlementTheorems`,
  `SettlementTables`, `SettlementRollUp`, `SettlementSubmit`, `SettlementReconcile`, `SettlementLanding`,
  `SettlementStore`). Earnings, rollups and batches against an abstract vault contract that takes
  a batch of new ids all or nothing. Claims, submits, landings, reverts and the separate reads and the write of
  reconcile interleave freely. The tables stay in lockstep whatever the chain does (`LockstepAlways`); at-most-once
  needs the landing hypothesis written out as `LandsInTime`; `CheckIsSafeIff` shows where the run goes wrong without
  it. What must become of every rollup is said for each step: creation, claim, recording, the end of a call that threw
  (`ThrownCallEnds`) and reconcile (`ReconcileDecides`).
- **From deposits to the vault** (`MoneyPath`, `DepositsToVault`). Both machines on one database: the earnings of
  credit transactions are the rows of the pipeline, and every credit ever granted is accounted for up to what the
  contract has allocated (`EveryCreditIsAccountedFor`, `PayoutsAreDeposited`). As long as no call of the sync route
  goes back, the vault never allocates more than was deposited on the chain (`VaultPaysOnlyDeposits`).
- **Canonical forms** (`TextOrder`, `Utf8`, `PercentCoding`, `PercentMeaning`, `QueryCanonical`, `QueryMeaning`,
  `JsonCanonical`, `JsonReader`, `JsonFaults`). The query and JSON canonicalizers of `lib/fulfillment-hash.ts`, with
  UTF-8 and the UTF-16 order written out, and what raw text means to them.
- **Framing** (`StreamFraming`, `StreamHeaders`). The Content-Length parser of `scripts/mcp-server.js` on arbitrary
  chunks, under arbitrary headers.
- **GhostWire** (`LogScan`, `WireMirror`, `WireRun`, `WireTheorems`, `WireVisits`, `WebhookOutbox`, `WireStore`). The
  database mirror of an on-chain job, its webhook outbox, its settlement and the backward log scan.
- **x402** (`X402Rollup`, `X402Figures`, `X402Keys`, `RateLimiter`, `RateLimiterRuns`) and the **indexer**
  (`RangeFetch`, `AgentIds`, `Indexer`, `IndexerRuns`).
- Shared: `Common`, `Runs`, `Sorting`, `MapSums`, `Text`, `Decimals`.

Code that updates rows, maps or buffers in place is modelled twice: as functions on the tables, about which the
theorems are proved, and as classes and loops (`SettlementStore.Store`, `CreditStore.Store`, `WireStore.Store`,
`StreamFraming.Server`, `RateLimiter.Limiter`, `Indexer.Script`) proved to compute exactly those functions.

Properties that are false of the code, each with its exact condition and a run or input that shows it:

- `reconcileWireJobFundedState` writes FUNDED over any recorded state. The recorded state goes forward in exactly the
  runs without a fund report that comes after FUNDED (`NeverRegressesIff`), and the disposition stays right in exactly
  those without one after the end (`DispositionIff`). The artifacts route can send one (`LateReportHappens`).
- An empty string passes the artifact conflict check of the exported recording function and overwrites what is recorded
  (`ArtifactsWrittenOnceIff`, `BlankOverwrites`). No present caller passes one: the artifacts route and both operator
  recoveries pass values their validators returned.
- The framing parser drops everything it holds at a bad header. The outcome is the same for all ways of cutting a
  stream if and only if nothing follows its first bad header (`ChunkingIsInvisibleIff`).
- In runs that never take the cursor back, one and the same deposit sync is applied at most once if and only if it
  names the cursor it starts from and moves it (`AppliedOnceIff`). Without a cursor it counts twice
  (`MissingCursorCountsAgain`), and so it does when a sync in between goes back (`RollbackCountsAgain`).
- The sync route always names the cursor and never leaves a block out (`NothingIsMissed`), but takes the cursor back
  when the head it sees, or the block its client names, is behind the cursor it recovered. Without such calls every
  block is counted once (`CountedOnce`). After one, calls that start later and go forward can count a deposit twice
  exactly when one was exposed before, or lies in the blocks the call scans, or between where it puts the cursor, or
  what the ledger remembers, and where the cursor stood (`GoingBackCountsAgainIff`). A call that was in flight
  meanwhile has read less: it counts again even where a later one cannot (`RaceCountsAgain`), but none does while no
  counted deposit lies beyond the cursor and what the ledger said when the cursor was first there, and beyond that one
  does where a single call reaches (`RacingCalls`). A lagging head does it (`LaggingHeadCountsAgain`); with the ledger
  off the call that counts again can be an ordinary one (`OrdinaryCallCountsAgain`); with it on, calls that name the
  block of a deposit credit it once each, without bound (`CountsOverAndOver`).
- For requests in any order of times the sweep of the rate limiter makes a difference exactly when a check names a key
  whose bucket was still running and had been removed by a sweep (`ToldApartIff`). For one late request after a run in
  time order the difference shows at once exactly when that bucket was full (`DecidedAlikeIff`,
  `LateReportIsLetThrough`).
- A submit call that has thrown can revert its batch safely exactly when its transaction is no longer in flight
  (`CheckIsSafeIff`); this is the landing hypothesis.

The usage key of the x402 rollup and the payer key of the rate limiter join their parts with colons. Services whose
slugs are related would take each other's allowance (`NothingIsLostIff`, `PayersShareIff`), but the ids the indexer
allocates never make such slugs (`IndexedAgentsLoseNothing`).

Hypotheses, besides those in the statements: settlement ids are injective in their source; the contract's processed ids
only grow, and a settlement transaction that has landed or reverted stays so (no reorganisation of that chain);
GhostWire database transactions, operator visits and the artifacts route do not overlap; a GhostWire chain has one
event per state reached, each in a later position, and is not reorganised; a successful receipt of the recorded fund
transaction belongs to the job's funding event; RPC providers that answer answer truthfully.

Verify with `dafny verify dfyconfig.toml`.

## Model

| member | source | states |
|---|---|---|
| SettlementAmounts.SplitIsExact | lib/merchant-settlement.ts:72-103 | A split is made exactly for positive credits and price and a fee of 0 to 10000 bps, with the first input at fault reported otherwise; gross is credits times price, fee plus net is gross, and the fee is the rounded-down share of the gross. |
| SettlementAmounts.RollupFeeShortfall | lib/merchant-settlement.ts:88-96 | Summing the rounded fees of n earnings gives at most the fee on their summed gross and falls short of it by at most n - 1 wei. |
| SettlementAmounts.DefaultFeeIsAdditive | lib/constants.ts:10-11 | At the deployed price and fee no rounding ever happens: summed fees equal the fee on the sum. |
| RollupSelection.TakenAreOldest | lib/merchant-settlement-rollup.ts:44-60 | A candidate holds exactly the oldest min(cap, available) rows of one merchant in (createdAt, id) order. |
| RollupSelection.CandidatesCharacterised | lib/merchant-settlement-rollup.ts:34-105 | A candidate is emitted for a merchant exactly when it has rows and the fee or the age threshold is met; candidates come sorted, one per merchant, with the totals of their rows. |
| RollupSelection.CandidatesAreDisjoint | lib/merchant-settlement-rollup.ts:42-60 | No earning is selected twice, within a candidate or across candidates. |
| RollupSelection.CandidateTotalsAreExact | lib/merchant-settlement-rollup.ts:66-74 | Fee plus net equals gross in every candidate when it does in every row. |
| RollupSelection.GroupRows | lib/merchant-settlement-rollup.ts:42-60 | The grouping loop builds each merchant's capped list, keys in order of first appearance. |
| RollupSelection.SumRows | lib/merchant-settlement-rollup.ts:64-74 | The running wei totals are the sums over the rows. |
| RollupSelection.BuildCandidates | lib/merchant-settlement-rollup.ts:34-105 | The whole function computes the characterised candidates. |
| RollupMeaning.CandidatesAre | lib/merchant-settlement-rollup.ts:34-105 | Every candidate is over the oldest rows of its merchant, oldest first, with their ids, dates and exact totals, released for its fees if they reach the threshold and for its age otherwise; candidates come by the age of their oldest row, then by merchant. |
| RollupMeaning.ReleasedIff | lib/merchant-settlement-rollup.ts:76-105 | A merchant has a candidate exactly if its oldest rows are worth enough fees or have waited long enough. |
| RollupMeaning.NoCapNoCandidates | lib/merchant-settlement-rollup.ts:34-60 | Without a positive cap nothing is rolled up. |
| SettlementLockstep.AttachGuardMeans | lib/db.ts:521-535 | The attach guard passes exactly when the ids are distinct and every one is pending and free. |
| SettlementLockstep.AttachAllKeeps | lib/db.ts:491-555 | Creating rollups keeps lockstep and records for each new rollup exactly the earnings it was made from. |
| SettlementLockstep.CreateRollupsCommits | lib/db.ts:470-555 | On the rows its locking query returns, rollup creation never throws. |
| SettlementLockstep.ClaimRefusedIff | lib/merchant-settlement-allocator.ts:438-500 | A claim is rolled back exactly when the selection repeats a rollup or holds one that is no longer pending. |
| SettlementLockstep.ClaimKeeps | lib/merchant-settlement-allocator.ts:438-525 | A claim moves rollups and their earnings together. |
| SettlementLockstep.RevertKeeps | lib/merchant-settlement-allocator.ts:218-260 | Reverting a batch fails its rollups and frees exactly their earnings. |
| SettlementLockstep.MarkConfirmedKeeps | lib/merchant-settlement-allocator.ts:262-299 | Confirming a batch moves rollups and their earnings together. |
| SettlementLockstep.CommitPlanKeeps | lib/merchant-settlement-reconcile.ts:288-392 | The reconcile transaction keeps lockstep whatever was read before it. |
| SettlementLockstep.NoLegacyRows | lib/merchant-settlement-allocator.ts:397-410 | Under lockstep no earning is submitted without a rollup, so the early return on such rows is never taken. |
| SettlementRollUp.RollUpCreates | lib/db.ts:470-555 | In any run, rollup creation on the rows the locking query returns makes one pending rollup for each of the first candidates, in order and with their columns, attaches to it exactly the candidate's earnings, and writes nothing else. |
| SettlementSubmit.ClaimTakes | lib/merchant-settlement-allocator.ts:438-525 | What a claim that goes through does in a run: every chosen rollup and exactly its earnings are submitted in the new batch, and nothing else changes; otherwise nothing at all does. |
| SettlementSubmit.GasTooHighFrees | lib/merchant-settlement-allocator.ts:545-558 | Giving up on gas fails exactly the batch and its rollups, and frees exactly their earnings. |
| SettlementSubmit.SubmissionIsRecorded | lib/merchant-settlement-allocator.ts:579-614 | The transaction sent for a claim is recorded on exactly those of its rollups that are still submitted, with their earnings, and on the batch. |
| SettlementSubmit.ThrownCallEnds | lib/merchant-settlement-allocator.ts:622-648 | A submit call that threw ends with every rollup of its claim, all their earnings and the batch confirmed if all its ids were processed when it asked, and failed and freed otherwise, whatever happened between the question and the write. |
| SettlementProof.NextKeepsInv | lib/merchant-settlement-allocator.ts:562-648 | Every event of the pipeline keeps the invariant linking tables, claims, transactions and processed ids, under the landing hypothesis. |
| SettlementProof.NotPaidAndDead | lib/merchant-settlement-reconcile.ts:11-30 | A rollup whose payment landed is never also one whose transaction can no longer land. |
| SettlementProof.DecidedOk | lib/merchant-settlement-reconcile.ts:236-278 | Whatever a row is decided on is true by then and stays true: it is confirmed only if it is paid, requeued only if it never can be. When it must be decided which way is `ReconcileDecides`. |
| SettlementReconcile.ReconcileDecides | lib/merchant-settlement-reconcile.ts:11-30 | Over runs, for a reconcile that commits and a rollup it read: it ends failed with exactly its earnings pending and free if and only if the last answers about it were an unprocessed id and a reverted receipt; confirmed with its earnings if and only if they were a processed id, or a success with enough confirmations; otherwise neither it nor its earnings change. |
| SettlementReconcile.ReconcileTouchesOnly | lib/merchant-settlement-reconcile.ts:288-392 | A rollup that was not read, or about which the chain was never asked, is left alone with its earnings, and so is every earning without a rollup. |
| SettlementReconcile.BatchesFollow | lib/merchant-settlement-reconcile.ts:394-427 | The statuses of all batches after a reconcile that goes through, from the rollups attached to them and those it failed. |
| SettlementReconcile.LegacyStopsClaims | lib/merchant-settlement-allocator.ts:397-410 | An earning submitted without a rollup, as older tables may hold, stops every claim. |
| SettlementReconcile.LegacyDecided | lib/merchant-settlement-reconcile.ts:236-278 | Such an earning is decided by the same answers of the chain as a rollup. |
| SettlementReconcile.LegacyMoves | lib/merchant-settlement-reconcile.ts:356-392 | The write confirms and frees exactly those decided that way; every other earning and every rollup stays. |
| SettlementTables.LockstepAlways | lib/db.ts:491-555 | In every reachable state, whenever transactions land: earnings and rollups are in lockstep, no earning is submitted without a rollup, and a confirmed batch has no rollup attached that is not confirmed. |
| SettlementTheorems.AtMostOnce | lib/merchant-settlement-allocator.ts:562-648 | Under the landing hypothesis each earning belongs to at most one rollup that the contract has processed. |
| SettlementTheorems.PayoutConservation | lib/merchant-settlement-allocator.ts:128-158 | What the contract has allocated is the sum over the earnings of processed rollups, each once, and fee plus net is gross. |
| SettlementTheorems.ConfirmedBatchIsComplete | lib/merchant-settlement-reconcile.ts:115-141 | A batch recorded as confirmed has every rollup it was claimed with confirmed. |
| SettlementTheorems.ConfirmedIsFinal | lib/merchant-settlement-reconcile.ts:288-356 | A confirmed earning or rollup is never written again in any continuation. |
| SettlementTheorems.PaidIsNeverRequeued | lib/merchant-settlement-reconcile.ts:321-356 | Once a rollup is processed its earnings stay attached and never go back to pending. |
| SettlementTables.ReconcileRefusedIff | lib/merchant-settlement-reconcile.ts:288-392 | A reconcile run is rolled back exactly when some rollup it decided on has left the submitted status since it was read. |
| SettlementLanding.CheckIsSafeIff | lib/merchant-settlement-allocator.ts:622-641 | After any run that keeps the hypothesis, a thrown submit call can ask the chain without any earning ever being paid twice if and only if its transaction is no longer in flight. |
| SettlementLanding.HypothesisIsNeeded | lib/merchant-settlement-allocator.ts:622-641 | Without the hypothesis some run pays an earning twice. |
| SettlementStore.Store.UpdateManyEarnings | lib/db.ts:521-531 | A filtered bulk update rewrites exactly the matching rows and returns how many they were. |
| SettlementStore.Store.UpdateManyRollups | lib/merchant-settlement-allocator.ts:448-462 | The same for rollups. |
| SettlementStore.Store.RollUp | lib/db.ts:491-555 | The creation loop equals the creation step, with every table restored when it throws. |
| SettlementStore.Store.Claim | lib/merchant-settlement-allocator.ts:385-525 | The claiming transaction equals the claim step, early return and rollback included. |
| SettlementStore.Store.Revert | lib/merchant-settlement-allocator.ts:218-260 | Equals the revert step. |
| SettlementStore.Store.MarkConfirmed | lib/merchant-settlement-allocator.ts:262-299 | Equals the confirm step. |
| SettlementStore.Store.Record | lib/merchant-settlement-allocator.ts:579-614 | Equals the recording of the submitted transaction. |
| SettlementStore.Store.RefreshBatches | lib/merchant-settlement-reconcile.ts:394-427 | The closing loop derives each touched batch's status from its attached rows. |
| SettlementStore.Store.WriteReconcile | lib/merchant-settlement-reconcile.ts:288-428 | The reconcile write equals its step, rolled back when a count guard fires. |
| SettlementStore.Decide | lib/merchant-settlement-reconcile.ts:202-278 | The outcome loop fills lists and counters with exactly the rows decided each way. |
| SettlementStore.SelectionLimitIsLargest | lib/merchant-settlement-allocator.ts:107-116 | The selection limit is the largest number of settlements that fits both the batch size and the gas budget. |
| SettlementStore.BuildAllocationBatch | lib/merchant-settlement-allocator.ts:128-158 | The four parallel arrays describe the claimed rollups in order and the totals are their sums. |
| CreditSteps.OverdueFacts | lib/db.ts:1034-1056 | The sweep lists each overdue held hold of the wallet once, oldest expiry first, and nothing else. |
| CreditInvariants.SweepWalletInv | lib/db.ts:1027-1112 | After the sweep no overdue hold is held, other holds are untouched, and every wallet's total is unchanged. |
| CreditProof.CreateHoldInv | lib/db.ts:1114-1295 | Issuing a hold keeps the invariant and every wallet's total, whichever way it ends. |
| CreditProof.CaptureInv | lib/db.ts:1297-1614 | Capturing keeps the invariant and every wallet's total; it never throws for a held-balance reason. |
| CreditProof.ExpireOneInv | lib/db.ts:1654-1777 | Expiring keeps the invariant and every wallet's total. |
| CreditProof.GateInv | lib/db.ts:1904-2021 | A gate debit takes exactly its cost when accepted and changes nothing when refused or replayed. |
| CreditProof.SyncInv | lib/db.ts:855-1025 | A sync adds exactly what it reports, and nothing when it reports a conflict. |
| CreditTheorems.RunInv | lib/db.ts:855-2064 | The credit invariant holds after any sequence of operations. |
| CreditTheorems.CreditsAreConserved | lib/db.ts:855-2064 | Over every run, credits granted to a wallet equal available plus held plus captured plus what gates and consumption took. |
| CreditTheorems.CapturedCreditsAreEarned | lib/db.ts:1575-1588 | The gross wei of all capture earnings is the credit price times the captured costs. |
| CreditTheorems.HeldBalanceAlways | lib/db.ts:1057-1112 | heldCredits is always the sum of the held holds, no balance is negative, and a wallet has at most one held hold per service. |
| CreditTheorems.InvariantThrowsUnreachable | lib/db.ts:1063-1067 | The "heldCredits invariant violation" and missing-balance throws are unreachable. |
| CreditTheorems.HoldOutcomeIsFinal | lib/db.ts:1435-1493 | A captured or expired hold is never written again, whatever races afterwards. |
| CreditTheorems.EarningIffCaptured | lib/db.ts:1575-1588 | A hold has exactly one earning when captured, for its cost and wallet, and none otherwise. |
| CreditTheorems.ExpiryRefunds | lib/db.ts:1717-1739 | Expiry returns the full cost to the available balance and makes no earning. |
| CreditTheorems.CaptureEarns | lib/db.ts:1519-1588 | Capture makes one earning over the full price, refunds nothing, and records the proof. |
| CreditTheorems.ExpiryFailsIff | lib/db.ts:1717-1765 | An overdue held hold fails to expire exactly when the refund overflows the balance or its ledger request id is taken. |
| CreditAnswers.ExpiryAnswers | lib/db.ts:1654-1777 | The exact condition of every answer of an expiry in every reachable state: a hold that is not held or not due is skipped and nothing changes, one that is due expires with a full refund, and when it throws. |
| CreditHistory.ExpiryWasDue | lib/db.ts:1027-1112 | Over runs, every expired hold was held and due when one event expired it; one that is not due stays as it is. |
| CreditTheorems.CaptureFailsIff | lib/db.ts:1519-1588 | A capture that passes every check fails exactly when its ledger request id is taken or the service is blank. |
| CreditAnswers.CapturedIff | lib/db.ts:1384-1600 | In every reachable state a capture of an existing hold that does not throw is accepted if and only if the hold is held, for the named service, its signer is active for its gateway, and it was completed before the hold expires; what it leaves is stated in full, and when it throws. |
| CreditAnswers.CaptureRefusals | lib/db.ts:1384-1517 | The exact condition of every other answer, in order of precedence, with the attempt row it leaves and nothing else: another service, an inactive signer, the same proof again, another proof, an expired hold, an overdue one. |
| CreditAnswers.CaptureOfNothing | lib/db.ts:1297-1384 | A malformed capture throws, and one is answered with no such hold exactly when no hold has its ticket; neither writes anything. |
| CreditAnswers.TakenWhen | prisma/schema.prisma:225-243 | A request id is taken exactly by a ledger row of the same wallet, and a settlement by an earning with its id. |
| CreditHistory.CaptureWasAllowed | lib/db.ts:1408-1430 | Over runs, every captured hold was captured by one event while it was held, for its ticket and service, signed by a signer active for its gateway at that moment, and completed before it expired. |
| CreditHistory.SignersAre | lib/db.ts:1408-1430 | No operation activates or removes a signer: who is active is what was last set. |
| CreditHistory.EarningIsOwed | lib/db.ts:298-345 | Over runs, every earning is owed to the owner named by the gate request charged for it or by the ticket request whose hold was captured, over the whole price of its cost, for its wallet and service. |
| CreditHistory.MerchantWasNamed | lib/db.ts:1575-1588 | A captured ticket earns for the owner, and was signed for the gateway, that its own ticket request named. |
| CreditTheorems.RecaptureChangesNothing | lib/db.ts:1435-1472 | A repeated capture changes no balance, hold, nonce, earning or ledger row; another proof is refused and never replaces the first. |
| CreditTheorems.TicketNonceHonouredOnce | lib/db.ts:1188-1196 | With the nonce store on, a signed ticket request is honoured once, whatever happens between the two attempts. |
| CreditAnswers.TicketAnswers | lib/db.ts:1114-1295 | The exact condition of every answer of a ticket request in every reachable state, in terms of what the wallet has once its due holds are expired, with what is committed and what is undone. |
| CreditAnswers.IssueAnswers | lib/db.ts:1188-1290 | Issuing a hold after the sweep: what stops it, in order, and the whole state it leaves. |
| CreditHistory.HoldWasAsked | lib/db.ts:1208-1226 | Over runs, every hold has the ticket, wallet, service, cost, owner, gateway and expiry of one accepted request, and keeps them. |
| CreditAnswers.GateAnswers | lib/db.ts:1904-2021 | In every reachable state the exact condition of every answer of a gate debit, when it throws, when the nonce counts as accepted, and everything an accepted one leaves. |
| CreditAnswers.GateNonceHonouredOnce | lib/db.ts:270-296 | With the nonce store on, after an accepted gate debit for a wallet, service and nonce, a later one that enforces uniqueness is never accepted and changes nothing, whatever happened in between, under any request id and with or without an owner. |
| CreditTheorems.GateChargesOnce | lib/db.ts:1964-2010 | A wallet is charged once per merchant request id; a repetition is refused and changes nothing. |
| CreditTheorems.RefusalsOnlyRefund | lib/db.ts:1160-1186 | A refused ticket request leaves no trace but the expiry of overdue holds, and replays and duplicate holds not even that. |
| CreditTheorems.HeldCountNeverExceedsCap | lib/db.ts:1174-1186 | With a fixed cap no wallet ever has more held holds than the cap. |
| CreditTheorems.AuditFindsNothing | scripts/reconcile-credits.ts:117-139 | With the ledger on, rows telescope, both audits are empty, and CREDIT minus DEBIT flow is credits minus captured costs. |
| CreditTheorems.TotalsAgree | scripts/reconcile-credits.ts:186-189 | Over all wallets net flow is the total of balances less captured costs, so the printed totals agree exactly when nothing was captured. |
| CreditTheorems.HeldAuditFindsNothing | scripts/reconcile-credits.ts:141-169 | The held audit finds nothing, ledger or not. |
| CreditTheorems.Audit | scripts/reconcile-credits.ts:117-169 | The audit loops report exactly the wallets without rows, with drift and with held drift. |
| CreditStore.Store.WriteCreditLedger | lib/db.ts:243-268 | Writes one row, nothing when the ledger is off, and refuses out-of-range amounts and repeated request ids. |
| CreditStore.Store.PersistAccessNonce | lib/db.ts:270-296 | Says whether the nonce was new and stores it. |
| CreditStore.Store.CreateMerchantEarning | lib/db.ts:298-347 | Creates the earning or refuses invalid amounts and repeated settlement ids. |
| CreditStore.Store.SweepOverdue | lib/db.ts:1027-1112 | The loop with carried balances equals the sweep, and the carried balances are the stored ones. |
| CreditStore.Store.CreateFulfillmentHold | lib/db.ts:1114-1295 | Equals the issuing step: early returns keep the sweep, replays and duplicates undo it. |
| CreditStore.Store.CaptureFulfillmentHold | lib/db.ts:1297-1614 | Equals the capture step, whose every answer `CapturedIff` and `CaptureRefusals` characterise. |
| CreditStore.Store.ExpireFulfillmentHoldById | lib/db.ts:1654-1777 | Equals the expiry step. |
| CreditStore.Store.ExpireFulfillmentHolds | lib/db.ts:1779-1815 | The sweep job runs every candidate's expiry, and its counters add up. |
| CreditStore.Store.ConsumeUserCredits | lib/db.ts:1828-1890 | Equals the consume step. |
| CreditAnswers.ConsumeAnswers | lib/db.ts:1828-1890 | The exact condition of every answer of a plain consumption, and all it writes. |
| CreditStore.Store.ConsumeUserCreditsForGate | lib/db.ts:1904-2021 | Equals the gate step, unique-key conflicts answered as replays; `GateAnswers` characterises its answers. |
| CreditStore.Store.AddUserCredits | lib/db.ts:2023-2064 | Equals the manual-add step. |
| CreditAnswers.AddAnswers | lib/db.ts:2023-2064 | The same for manual credits. |
| CreditStore.Store.SyncDeposits | lib/db.ts:855-1025 | Equals the sync step. |
| CreditAnswers.SyncAnswers | lib/db.ts:855-1025 | The same for a sync: when it is applied, the credits it grants, where the cursor goes, and all it writes. |
| DepositSync.AppliedOnceIff | lib/db.ts:883-974 | In all runs that never take the wallet's cursor back one and the same sync is applied at most once, if and only if it names the cursor it starts from and moves it. |
| DepositSync.SyncsCoverDepositsOnce | lib/db.ts:949-974 | When every sync passes the cursor it read and the deposits since then and goes forward, every block up to the cursor lies in exactly one applied sync and no later block in any, whatever other operations run in between. |
| DepositRoute.CountedOnce | app/api/sync-credits/route.ts:306-363 | As long as no call sees a head or a target behind the cursor, every block from the start up to the cursor lies in the scan of exactly one applied call and no later block in any, in any run of calls that read and race as they like. |
| DepositRoute.NothingIsMissed | app/api/sync-credits/route.ts:306-363 | In every run, calls that go back included, the blocks scanned have no gap and reach at least as far as the cursor and the ledger. |
| DepositCalls.ScanIs | app/api/sync-credits/route.ts:308-342 | Which blocks a call scans, from the cursor, the historical cursor, the head and the block its client names. |
| DepositCalls.SyncIs | app/api/sync-credits/route.ts:342-363 | What a call syncs: the deposits of exactly those blocks against the cursor it read, with permission to go back exactly when that is behind what it recovered. |
| DepositCalls.HistoryIsRecorded | lib/db.ts:616-649 | Over runs the historical cursor is raised exactly by calls that grant credits, to the last block they scanned or the cursor they found. |
| DepositRoute.CountsAgainIff | app/api/sync-credits/route.ts:306-363 | From any state of any run, calls that start from there on and go forward can end with a deposit counted twice if and only if one has been already or one that was scanned lies beyond what was reached. |
| DepositRoute.GoingBackCountsAgainIff | app/api/sync-credits/route.ts:320-363 | After a call that goes back, in any run, calls that start later and go forward can count a deposit twice if and only if one was exposed before, or lies in the blocks the call scans, or above both the block it syncs to and what the ledger remembers and not above the old cursor; nothing was exposed if it is the first such call. |
| DepositRaces.RacingCalls | app/api/sync-credits/route.ts:306-363 | From any state of any run, calls in flight included, while none sees a head behind the cursor it recovered: no deposit is counted twice if none has been and none that was scanned lies beyond the cursor and what the ledger said when the cursor was first there; one can be if one has been, or lies beyond that where a single call reaches it; an equivalence when a single call reaches all that was scanned. |
| DepositRaces.RaceCountsAgain | app/api/sync-credits/route.ts:306-363 | A call that goes back puts nothing at stake and no call that starts later can count the one deposit again, but one that read the cursor before goes forward and does. |
| DepositRoute.RunsAreCreditRuns | lib/db.ts:616-649 | The runs of the route, with the historical cursor read from the ledger rows they write, are runs of the credit machine. |
| DepositRoute.CountsOverAndOver | app/api/sync-credits/route.ts:121-152 | With the ledger on, n calls whose client names the block of one deposit credit it n more times. |
| DepositRoute.LaggingHeadCountsAgain | app/api/sync-credits/route.ts:306-363 | One deposit, two calls, the second with a head behind the cursor: two credits. |
| DepositRoute.OrdinaryCallCountsAgain | app/api/sync-credits/route.ts:306-363 | With the ledger off a call that goes back and finds nothing lets the next ordinary call credit the deposit again. |
| DepositSync.RoundingIsBounded | lib/db.ts:872-873 | After n applied syncs at one price, whichever blocks they cover, the credits granted are between one sync of all their deposits minus n - 1 and that sync. |
| DepositSync.MissingCursorCountsAgain | lib/db.ts:875-893 | Without an expected cursor the same deposits are credited twice. |
| DepositSync.RollbackCountsAgain | lib/db.ts:949-955 | With the expected cursor and a sync that goes back in between they are too. |
| MoneyPath.RowsAreEarnings | lib/db.ts:327-345 | The rows of the settlement pipeline are the earnings the credit transactions wrote, in order, with their settlement ids, amounts and owners, in every run of both machines on one database. |
| MoneyPath.EveryCreditIsAccountedFor | lib/db.ts:298-345 | In every such run, under the landing hypothesis, the price of all credits ever granted is what the vault has allocated before fees plus the price of what is still in wallets, of earnings not paid yet, and of what was spent on nothing a merchant earns. |
| MoneyPath.PaidOncePerSettlement | lib/merchant-settlement-allocator.ts:128-158 | The earning of a capture or of a gate request lies in at most one processed rollup, and a hold that is not captured has none in any. |
| MoneyPath.PayoutsAreDeposited | lib/db.ts:872-873 | When credits come from deposits at the deployed price only, the gross allocated by the vault and the price of the credits in wallets never exceed the deposits that syncs counted. |
| DepositsToVault.RouteCounts | app/api/sync-credits/route.ts:306-363 | While no call of a wallet goes back, its applied syncs add up to exactly what was deposited for it up to its cursor. |
| DepositsToVault.VaultPaysOnlyDeposits | app/api/sync-credits/route.ts:306-363 | Under the landing hypothesis, when every sync is such a call at the deployed price and nothing else grants credits, the gross allocated by the vault and the price of all credits in wallets never exceed what was deposited on the chain up to the cursors. |
| TextOrder.TextOrderIsTotal | lib/fulfillment-hash.ts:71-71 | Comparing strings by UTF-16 code unit is a total order, as section 3.2.3 of RFC 8785 needs. |
| TextOrder.NotCodePointOrder | lib/fulfillment-hash.ts:71-71 | It is not code-point order: two strings on which they differ. |
| Utf8Coding.Utf8RoundTrip | lib/fulfillment-hash.ts:103-119 | UTF-8 decoding gives back every encoded character. |
| Utf8Coding.Utf8Unique | lib/fulfillment-hash.ts:103-119 | Every octet sequence the decoder accepts is the encoding of what it decodes to: no overlong forms. |
| PercentCoding.EncodeIsOnePass | lib/fulfillment-hash.ts:116-119 | The three passes keep unreserved characters and escape the UTF-8 octets of all others. |
| PercentCoding.EncodeAlphabet | lib/fulfillment-hash.ts:116-119 | Output uses unreserved characters and upper-case escapes only (sections 2.1 and 2.3 of RFC 3986). |
| PercentCoding.DecodeEncode | lib/fulfillment-hash.ts:94-119 | Decoding an encoded component gives it back, for all text. |
| PercentMeaning.UnreservedAre | lib/fulfillment-hash.ts:116-119 | The characters that are printed as they are, by code point: those of section 2.3 of RFC 3986. |
| PercentMeaning.DecodeMeans | lib/fulfillment-hash.ts:94-115 | Decoding raw text succeeds if and only if it is made of plus signs, other characters, and runs of escapes in either case that spell characters in UTF-8, and gives a space, the character, and the character spelled. |
| PercentMeaning.RefusedAs | lib/fulfillment-hash.ts:94-115 | It is refused as malformed exactly when a percent sign has no two hex digits behind it, and as invalid UTF-8 exactly in all other cases. |
| PercentMeaning.SpellingDoesNotMatter | lib/fulfillment-hash.ts:103-115 | Writing plus signs as %20 and escapes in upper case changes neither what a text decodes to nor how it is refused. |
| QueryCanonical.CanonicalizeFulfillmentQuery | lib/fulfillment-hash.ts:123-174 | The loop with its seen-set computes the canonical query; what that is on raw text say `SegmentMeans`, `SegmentFaults` and `PlusIsSpace`. |
| QueryCanonical.AcceptedIff | lib/fulfillment-hash.ts:134-159 | A query is accepted exactly when every segment decodes, has a key and no key repeats; the output alphabet is as stated. |
| QueryCanonical.FirstFaultDecides | lib/fulfillment-hash.ts:134-159 | A refusal reports the first segment at fault. |
| QueryCanonical.PermutationInvariant | lib/fulfillment-hash.ts:161-173 | Permuting the segments changes neither whether a query is accepted nor the result. |
| QueryCanonical.RoundTrip | lib/fulfillment-hash.ts:123-174 | Reading a printed normal form gives back what was printed. |
| QueryCanonical.Idempotent | lib/fulfillment-hash.ts:123-174 | Canonicalizing the canonical text changes nothing. |
| QueryCanonical.CanonicalTextIsMeaning | lib/fulfillment-hash.ts:161-173 | Two accepted queries have the same canonical text exactly when they decode to the same key/value set. |
| QueryMeaning.SourceMeans | lib/fulfillment-hash.ts:126-133 | One leading question mark and outer white space do not count. |
| Text.SpacesAre | lib/fulfillment-hash.ts:126-126 | What counts as white space, by code point. |
| QueryMeaning.SegmentsMean | lib/fulfillment-hash.ts:134-138 | The segments are the non-empty parts between ampersands, in order. |
| QueryMeaning.NonEmptyJoin | lib/fulfillment-hash.ts:134-134 | Which parts those are, list by list. |
| QueryMeaning.SegmentMeans | lib/fulfillment-hash.ts:138-159 | A raw segment is accepted as a pair if and only if the text before its first equals sign and the text behind it mean the pair's key and value, and the key is not empty. |
| QueryMeaning.SegmentFaults | lib/fulfillment-hash.ts:138-159 | Exactly which fault a raw segment is refused for: the key's before the value's, an empty key last. |
| QueryMeaning.SpellingOfQueryDoesNotMatter | lib/fulfillment-hash.ts:123-174 | Respelling plus signs and escapes changes neither whether and how a whole query is refused nor its canonical form. |
| QueryMeaning.PlusIsSpace | lib/fulfillment-hash.ts:103-105 | For any key and texts, key=before+after has the one pair whose value has a space there, printed as %20. |
| QueryMeaning.CanonicalOrder | lib/fulfillment-hash.ts:161-167 | The pairs of a canonical query ascend strictly by key in UTF-16 order. |
| JsonReader.AcceptedIff | lib/fulfillment-hash.ts:43-84 | Canonicalization succeeds exactly on values built from null, booleans, finite numbers, strings, arrays and plain objects. |
| JsonReader.SortedEntries | lib/fulfillment-hash.ts:71-83 | Entries are printed in strictly ascending key order, none lost or added. |
| JsonReader.ReadCanon | lib/fulfillment-hash.ts:43-84 | A JSON reader run on the canonical text followed by anything gives the value back and stops at its end. |
| JsonReader.ReadBack | lib/fulfillment-hash.ts:43-86 | The canonical text is read back to the value, up to key order. |
| JsonReader.CanonicalTextIsMeaning | lib/fulfillment-hash.ts:43-86 | Two accepted values have the same canonical text exactly when they are equal up to the order of object keys. |
| JsonFaults.RefusedIff | lib/fulfillment-hash.ts:43-84 | A value is refused with an error if and only if a path leads to its first part, in print order, that has no canonical text, and the error is that part's fault: a number that is not finite, a big integer, an object that is not plain, or something missing inside an array or object. |
| JsonFaults.QuotedAs | lib/fulfillment-hash.ts:26-41 | How every character of a string is quoted. |
| StreamFraming.Server.ParseIncomingBuffer | scripts/mcp-server.js:62-90 | The loop drains the buffer; every turn returns or leaves a strictly shorter buffer. |
| StreamFraming.Server.OnData | scripts/mcp-server.js:441-444 | A chunk is appended and the buffer drained. |
| StreamFraming.Server.OnStream | scripts/mcp-server.js:441-444 | Handling a list of chunks is feeding them one by one. |
| StreamFraming.ChunkingDoesNotMatter | scripts/mcp-server.js:62-90 | A stream that meets no bad header, or ends with the first one, is dispatched alike and leaves the same bytes however it is cut. |
| StreamFraming.ChunkingIsInvisibleIff | scripts/mcp-server.js:71-74 | All ways of cutting a stream give the outcome of one piece if and only if it has no bad header or nothing follows the first one. |
| StreamFraming.NextPrinted | scripts/mcp-server.js:21-26 | The parser takes exactly one printed message off the front, whatever follows. |
| StreamFraming.MessagesSurviveChunking | scripts/mcp-server.js:21-26 | Printed messages cut into any chunks are dispatched in order and leave an empty buffer. |
| StreamHeaders.HeadersMean | scripts/mcp-server.js:48-60 | A header is read from the last line that gives it a value, its name up to case and white space, and is missing when no line does. |
| StreamHeaders.ParseIntMeans | scripts/mcp-server.js:69-71 | A number is read with its sign and whatever follows its digits is ignored. |
| StreamHeaders.LengthIsRead | scripts/mcp-server.js:48-71 | The length of a frame is the number at the start of the last Content-Length line, however its name is spelled and whatever other lines there are. |
| StreamHeaders.HeaderIsBadIff | scripts/mcp-server.js:69-75 | A header is bad if and only if no line gives a length, or the last one gives no number or a negative one. |
| StreamHeaders.FramesSurviveChunking | scripts/mcp-server.js:62-90 | Messages under any headers that give their lengths, cut into any chunks, are dispatched exactly and in order. |
| LogScan.GetLatestLifecycleEvent | lib/ghostwire-operator.ts:214-315 | The backward windows meet without gap or overlap and return the newest lifecycle event of the whole log, or none exactly when there is none. |
| LogScan.LatestIsUnique | lib/ghostwire-operator.ts:299-305 | With distinct positions the newest event is unique. |
| LogScan.RecoveryCovers | lib/ghostwire-operator.ts:317-330 | Recovery passes skip no block between the first window and the checkpoint, even when the head falls. |
| LogScan.RecoveryScansOnce | lib/ghostwire-operator.ts:317-330 | As long as the head does not fall no block is scanned twice, and none before the first window. |
| LogScan.FirstPassIs | lib/ghostwire-operator.ts:317-330 | The first pass looks at the last 2,000 blocks, or at all there are. |
| WireRun.ScanSeesLatest | lib/ghostwire-operator.ts:299-305 | On a valid chain the latest visible event is the one the backward scan returns. |
| WireRun.VisitInv | lib/ghostwire-operator.ts:801-815 | An operator visit keeps the mirror true and never takes it back, though the chain moves meanwhile. |
| WireRun.NextInv | lib/ghostwire-store.ts:1578-1964 | Every operation keeps the mirror true, and takes the recorded state forward exactly when it is not a late fund report. |
| WireTheorems.MirrorIsTrue | lib/ghostwire-store.ts:1598-1605 | After any run publicState equals contractState, the recorded state was reached on chain with the minimum confirmations, a terminal job has its state as disposition, and a disposition is the state the chain ended in. |
| WireTheorems.NeverRegressesIff | lib/ghostwire-operator.ts:697-801 | The recorded state only moves forward and a terminal one never changes in exactly the runs without a late fund report. |
| WireTheorems.DispositionIff | lib/ghostwire-store.ts:1861-1867 | The disposition is set exactly in terminal states throughout a run, in exactly the runs without a fund report after the end. |
| WireTheorems.OneWebhookPerState | lib/ghostwire-store.ts:1650-1692 | In any run each reached state is announced by one webhook and one transition row, and only states confirmed on chain are. |
| WireTheorems.ReconcileKeepsDeliveries | lib/ghostwire-store.ts:1650-1692 | Reconciling again re-opens no webhook row. |
| WireTheorems.ArtifactsWrittenOnceIff | lib/ghostwire-store.ts:1176-1200 | A successful recording keeps every recorded artifact up to case exactly when it passes no empty string for one. |
| WireTheorems.BlankOverwrites | lib/ghostwire-store.ts:1176-1200 | Whatever fund transaction is recorded, a recording that passes an empty string commits and wipes it out. |
| WireTheorems.AcceptedEverywhereIff | lib/ghostwire-store.ts:1183-1200 | A recording is accepted on every job exactly when it gives no artifact. |
| WireTheorems.FirstRecordingWins | lib/ghostwire-store.ts:1183-1200 | Once a recording has given an artifact, then after any run without blank inputs a recording that differs from it beyond case is refused as a whole. |
| WireTheorems.ArtifactsNeverChange | lib/ghostwire-store.ts:1151-1273 | Over whole runs a recorded artifact never changes up to case. |
| WireTheorems.FundedWriteRegressesIff | lib/ghostwire-store.ts:1861-1867 | The funded write takes the mirror back exactly when the job is already past funded. |
| WireTheorems.LateReportHappens | app/api/wire/jobs/[jobId]/artifacts/route.ts:375-384 | A reachable run in which a late fund report puts a submitted job back to funded. |
| WireTheorems.WorkListIsRight | lib/ghostwire-store.ts:825-847 | Finished jobs leave the work list; funded and submitted jobs stay on it whenever due. |
| WireTheorems.TerminalEndsWork | lib/ghostwire-store.ts:1725-1775 | Recording a terminal state takes the job off the work list. |
| WireTheorems.SettlementConserves | lib/ghostwire-store.ts:245-292 | In every reachable state a settlement exists exactly for terminal jobs; the protocol earns the fee exactly if the job completed; provider payout plus fee is the principal if it did and the fee fits, and otherwise there is no payout; spend and returned reserve are what was recorded and the rest. |
| WireVisits.PaidForCompletion | lib/ghostwire-store.ts:245-292 | After any run, a derived settlement pays the provider the principal less the fee, and the protocol its fee, exactly if the chain completed the job with the minimum confirmations; otherwise neither gets anything. |
| WireVisits.SpentJoin | lib/ghostwire-store.ts:62-66 | Spending adds up, in whatever pieces it was recorded. |
| WireVisits.WritesReach | lib/ghostwire-store.ts:1578-1964 | The three reconcile writes, column by column: state, disposition, stages, one transition row and one announcement under the event. |
| WireVisits.ReachedIsDue | lib/ghostwire-store.ts:825-847 | A job just recorded as funded or submitted is due at once, a finished one never. |
| WireVisits.RecordingAnswers | lib/ghostwire-store.ts:1151-1273 | A recording is refused exactly if it gives a different value for a field that has one; otherwise it replaces exactly the fields and stages it names. |
| WireVisits.FundingAnswers | lib/ghostwire-operator.ts:617-695 | What a visit does to an open job, from the receipt of its fund transaction, in every case. |
| WireVisits.LifecycleAnswers | lib/ghostwire-operator.ts:697-799 | What a visit does to a job past open, from the contract's status and the newest event of the log, in every case. |
| WireVisits.FullVisitCatchesUp | lib/ghostwire-operator.ts:697-815 | In every reachable state a visit that misses nothing records the last event of the chain if it is deep enough, waits for it if not, and never sends the job to manual review. |
| WireVisits.TransitionsTellTheTruth | lib/ghostwire-store.ts:1650-1692 | After any run every transition row names an event of the chain by state, transaction and block, with at least the required and at most the possible confirmations. |
| WireVisits.OnTheListIff | lib/ghostwire-store.ts:825-847 | A job is on the operator's list exactly if it is not under manual review, is due, and is not through. |
| WireVisits.HashForms | lib/ghostwire-operator.ts:97-101 | What is usable as a transaction hash. |
| WireStore.Store.RecordExecutionArtifacts | lib/ghostwire-store.ts:1151-1273 | Equals the recording step, refused as a whole on a conflict. |
| WireStore.Store.FailArtifactValidation | lib/ghostwire-store.ts:1370-1407 | Equals the failing step. |
| WireStore.Store.ReconcileFundedState | lib/ghostwire-store.ts:1841-1964 | Equals the funded step. |
| WireStore.Store.ReconcileSubmittedState | lib/ghostwire-store.ts:1578-1700 | Equals the submitted step. |
| WireStore.Store.ReconcileTerminalState | lib/ghostwire-store.ts:1702-1839 | Equals the terminal step. |
| WireStore.Store.ProcessWorkflowJob | lib/ghostwire-operator.ts:697-815 | Equals one operator visit. |
| WireStore.Store.DeliverWebhook | lib/ghostwire-operator.ts:817-908 | Equals one delivery attempt. |
| WebhookOutbox.AtMostSixRequests | lib/ghostwire-operator.ts:817-908 | At most six requests are sent per event and the row counts exactly those. |
| WebhookOutbox.DeliveryIsFinal | lib/ghostwire-store.ts:903-910 | Delivered and dead-lettered rows are never touched again. |
| WebhookOutbox.OutcomeOfVisits | lib/ghostwire-operator.ts:873-906 | For any visits at any times: delivered exactly if some request got a 2xx, given up exactly if some had no target or a final answer or six were sent without success, and the row counts the requests. |
| WebhookOutbox.CapIsNeverReached | lib/ghostwire-operator.ts:104-110 | With six attempts the half-hour cap on the delay never applies. |
| WebhookOutbox.AnswerDecides | lib/ghostwire-operator.ts:817-900 | What one HTTP answer does to a row: delivered, left for another attempt, or given up. |
| WebhookOutbox.DelaysAre | lib/ghostwire-operator.ts:104-110 | The delay after each attempt. |
| WebhookOutbox.RetriesArePatient | lib/ghostwire-operator.ts:104-110 | The k-th retry comes no sooner than 2^k - 1 minutes after the first request. |
| X402Rollup.FirstPass | lib/x402-score-rollup.ts:189-219 | The first loop computes each agent's observations and each service's least eligible amount. |
| X402Rollup.SecondPass | lib/x402-score-rollup.ts:221-259 | The second loop computes the capped accumulation. |
| X402Rollup.FetchAgentRollups | lib/x402-score-rollup.ts:163-259 | Both loops together. |
| X402Rollup.CapsHold | lib/x402-score-rollup.ts:233-249 | No payer counts more than the request cap and the amount cap with one service on one day, for every row list. |
| X402Rollup.VolumeIsConserved | lib/x402-score-rollup.ts:244-258 | Net volume over agents equals counted amounts over keys and over rows. |
| X402Rollup.AgentFiguresAgree | lib/x402-score-rollup.ts:118-160 | Net is the sum over payers and at most gross; qualified is the sum of counterparty counts and covers unique plus repeat counterparties. |
| X402Rollup.ObservationsAreExact | lib/x402-score-rollup.ts:192-208 | The filtered, observed and successful counts are the numbers of such rows. |
| X402Rollup.MinimaAreLeast | lib/x402-score-rollup.ts:214-217 | The unit of a service is its least eligible amount, and occurs. |
| X402Figures.AgentFiguresAre | lib/x402-score-rollup.ts:221-259 | For any rows, every figure of an agent is the count, sum or set over the agent's rows that counted. |
| X402Figures.OneMoreRow | lib/x402-score-rollup.ts:221-259 | One row more: exactly when it counts, and for which part of its amount. |
| X402Figures.UnitIsLeast | lib/x402-score-rollup.ts:189-218 | The unit of a service is the least amount of a row that may count for it, and there is none exactly without such a row. |
| X402Keys.KeysEqualIff | lib/x402-score-rollup.ts:231-231 | With days of one length two usage keys are equal exactly when the days are and the joined service and payer texts are. |
| X402Keys.ServicesCollideIff | lib/x402-score-rollup.ts:231-231 | Two different services have payers that share a key exactly when one slug followed by a colon starts the other. |
| X402Keys.BelowCapsNothingIsLost | lib/x402-score-rollup.ts:225-249 | A payer below both of its own caps has every eligible row with that service on that day counted in full, unless a row of another service composes its key. |
| X402Keys.CrowdedOut | lib/x402-score-rollup.ts:231-249 | For any caps and any two services that share a key, rows on which a payer with nothing counted yet has its only row dropped. |
| X402Keys.NothingIsLostIff | lib/x402-score-rollup.ts:221-259 | For a set of services, no list of rows makes a payer below its own caps lose anything if and only if no slug of the set followed by a colon starts another. |
| X402Keys.IndexedSlugsAreUnrelated | scripts/index-db.ts:799-830 | The slugs of ids the indexer allocates never meet that condition, whatever ids were in use. |
| X402Keys.IndexedAgentsLoseNothing | lib/x402-score-rollup.ts:221-259 | So for the services of indexed agents a payer below its own caps loses nothing. |
| RangeFetch.FetchTransferLogsForRange | scripts/index-db.ts:1117-1190 | The retry loops and the bisection compute the specified fetch and terminate. |
| RangeFetch.FetchIsExact | scripts/index-db.ts:1180-1189 | Whatever failed on the way, a successful fetch returns exactly the logs of the range in order. |
| RangeFetch.FetchFailsOnlyWhenStuck | scripts/index-db.ts:1166-1178 | It fails only because of an unsplittable sub-range that no provider served. |
| RangeFetch.FirstAnswerIsTaken | scripts/index-db.ts:1125-1164 | The first provider that answers, in order of attempts and then of providers, is taken, and nothing is split. |
| RangeFetch.UnservedIsSplit | scripts/index-db.ts:1166-1189 | A range nobody serves fails if it is small and is split in half otherwise. |
| AgentIds.AllocateUniqueAgentId | scripts/index-db.ts:810-830 | Returns an unused id, adds it to the used ones, and terminates. |
| AgentIds.Allocate | scripts/index-db.ts:810-830 | The chosen id is not in use. |
| AgentIds.AllocatedIsProper | scripts/index-db.ts:810-830 | The chosen id is not blank and has no outer white space. |
| AgentIds.AllocatedIs | scripts/index-db.ts:810-830 | Which id is chosen: the trimmed candidate, else the lower-case address, else that with the least free number from 2 on. |
| Indexer.TokensFacts | scripts/index-db.ts:1207-1238 | A chunk resolves every transferred token exactly once, in ascending order. |
| Indexer.UpsertKeepsIds | scripts/index-db.ts:1829-1914 | Upserting never gives two agents one id and never changes an id once given. |
| Indexer.UpsertFrame | scripts/index-db.ts:1829-1914 | Upserting leaves the rows of other addresses alone. |
| Indexer.ChunkWritesLatest | scripts/index-db.ts:1233-1259 | After a chunk the last token that resolves to an address is what the table holds for it. |
| Indexer.CursorIsCovered | scripts/index-db.ts:1198-1310 | After any runs, failed fetches and crashes, every transfer up to the persisted cursor, repeated ones of a token included, was resolved with the chunk of its own block and its record upserted. |
| Indexer.AgentIdsStayDistinct | scripts/index-db.ts:810-830 | Agent ids are pairwise different in every reachable state, whatever the providers answer. |
| Indexer.CursorGoesBackIff | scripts/index-db.ts:1992-1999 | In any run a step takes the cursor back exactly when it starts an indexing run whose head is below the cursor; chunks, failed fetches and crashes never do. |
| IndexerRuns.RunAdvances | scripts/index-db.ts:1198-1310 | How far a run gets when its fetches succeed: after n chunks the cursor is exactly n chunks further or at the head. |
| IndexerRuns.ChunkIs | scripts/index-db.ts:1198-1310 | What one chunk writes and where it leaves the cursor. |
| IndexerRuns.CrashIs | scripts/index-db.ts:1198-1310 | What a crash in the middle of a chunk leaves. |
| IndexerRuns.UpsertIs | scripts/index-db.ts:1829-1914 | What one upsert writes, and under which id. |
| Indexer.Script.UpsertAgents | scripts/index-db.ts:1829-1914 | The row loop equals upserting one record after the other. |
| Indexer.Script.ProcessChunk | scripts/index-db.ts:1198-1310 | One turn of the chunk loop equals the chunk step. |
| Indexer.Script.IndexIncremental | scripts/index-db.ts:1198-1310 | The chunk loop runs chunk steps until the range is through or a fetch fails. |
| RateLimiter.Limiter.SweepExpiredBuckets | lib/x402-rate-limit.ts:57-63 | Removes exactly the expired buckets, at most once per window. |
| RateLimiter.Limiter.ConsumeBucket | lib/x402-rate-limit.ts:65-88 | Equals the consume step. |
| RateLimiter.Limiter.ConsumeSettlement | lib/x402-rate-limit.ts:90-144 | The checks are consumed in turn and stop at the first refusal. |
| RateLimiter.SweepIsInvisible | lib/x402-rate-limit.ts:57-88 | For requests in time order the sweeping limiter decides exactly like one that never sweeps. |
| RateLimiter.DecidedAlikeIff | lib/x402-rate-limit.ts:57-88 | After requests in time order, one at any time is decided as without the sweep if and only if it meets no bucket that is still running, full, and removed by a sweep at a later time. |
| RateLimiterRuns.ToldApartIff | lib/x402-rate-limit.ts:57-144 | For requests at any times in any order: the verdicts, and those on repeating any check that was reached, are those of a limiter that never sweeps, if and only if no check named a key whose bucket was still running and had been removed by a sweep. |
| RateLimiter.SettlementChecksAreSeparate | lib/x402-rate-limit.ts:107-123 | The three checks of a report use different keys, as the decision lemma asks. |
| RateLimiter.BucketsSharedIff | lib/x402-rate-limit.ts:107-123 | Two reports share a bucket only for checks about the same thing: the service check for one service, the other two when the texts joined with a colon agree. |
| RateLimiter.PayersShareIff | lib/x402-rate-limit.ts:118-122 | Payers of two services share a bucket exactly when one slug followed by a colon starts the other, which slugs of indexed agents never do. |
| RateLimiter.LateReportIsLetThrough | lib/x402-rate-limit.ts:107-144 | For every window and start time: a repeated report that is over its limit passes when another report at a later time swept first. |
| RateLimiter.RefusedOnlyWhenFull | lib/x402-rate-limit.ts:78-83 | A key is refused exactly while its running bucket has let its whole limit through. |
| RateLimiterRuns.RetryIsExact | lib/x402-rate-limit.ts:78-83 | The seconds a refusal names are the least number after which the same use is let through. |
| RateLimiterRuns.ReportDecidedBy | lib/x402-rate-limit.ts:90-144 | A report is decided by the buckets of its signer, its service and its payer in that order, and what is counted when one refuses it. |
| RateLimiter.SameUses | lib/x402-rate-limit.ts:57-88 | For requests in time order the sweep changes neither which uses are let through nor the window they count in. |
| RateLimiter.AtMostTwiceTheLimit | lib/x402-rate-limit.ts:65-88 | For requests in time order the limiter lets no more than its limit through in any bucket of a key, and no more than twice that in any interval of one window length. |
| Sorting.SortedUnique | lib/fulfillment-hash.ts:161-167 | Under a total order a collection has one sorted arrangement, which is what canonical forms rest on. |

## Left out

- Prisma, Postgres and viem: a transaction is an atomic step with rollback, `updateMany` a filtered update returning a count, a locking query returns some rows that match it.
- Address, ticket and proof normalisation: inputs are taken as already trimmed and lower-cased where lib/db.ts does that first; hashes, signatures and settlement ids are injective constructors.
- `updateUserCredits` (lib/db.ts:667-708): an administrative absolute set that would only add a term to conservation.
- Display-only columns: failure codes, timestamps other than those decisions read, ledger metadata, telemetry.
- Merchant addresses and row ids are numbers; `localeCompare` on them is the numeric order.
- The per-wallet latest ledger row is the last one written; equal creation times are not modelled.
- The claim's cooldown and gas-price reads (lib/merchant-settlement-allocator.ts:411-431, 545-558) are environment answers: any claim may be tried, and the gas guard may fire on any.
- Liveness of settlement: a crash between claim and submit leaves a submitted rollup without a transaction, so no progress is claimed.
- A submit call is made once per claim.
- Raw submitted earnings without a rollup are unreachable from empty tables (`NoLegacyRows`); what the steps do with them is stated step by step (`LegacyStopsClaims`, `LegacyDecided`, `LegacyMoves`), not over runs.
- Sparse JavaScript arrays: their holes are not modelled.
- JSON numbers are abstract values with a printed form that can be read back; negative zero is not told apart from zero.
- Lone surrogates in JavaScript strings: text is a sequence of Unicode scalar values.
- Content-Length values beyond the exact range of JavaScript numbers, and the JSON dispatch behind the framing.
- GhostWire event rows' `fromState`: it is overwritten when a submitted job is reconciled again, so no chain of rows is claimed.
- Manual-review decisions of the GhostWire operator by people, and funding preparation.
- DepositRoute.CountsAgainIff: follows the calls that start at the state it speaks of or later; those in flight are in `RacingCalls`.
- DepositRaces.RacingCalls: when what was scanned lies further beyond the bound than one call reaches, it does not say whether several calls in flight can get there.
- Deposits of the sync route are fixed per block: reorganisations of the vault's chain and failed log reads are not modelled.
- Agent rows that the indexer did not create: `IndexedSlugsAreUnrelated` is about ids allocated for `agent:` and `service:` addresses.
- Scores, confidence, concentration penalty and success rate of the x402 rollup: floating point.
- Reading limits and windows from the environment: both are fixed during a run of the rate limiter.
- Metadata fetching of the indexer: a resolver maps tokens to records; its batches and retries are not modelled, nor are forced resets, metadata refreshes and the OLAS mode.
- User interface, request parsing, secret checks, deploy and migration scripts.
