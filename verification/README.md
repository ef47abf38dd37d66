# Verified model of the node sale pipeline

The pipeline sells nodes for plain ETH transfers and pays the nodes out. This project models
its money paths in Dafny 4.11 and proves what they promise over every run: any interleaving,
any pattern of explorer, RPC and database failures, a crash at any statement.

`dafny verify dfyconfig.toml` checks everything.

## How it is laid out

Payment discovery
: `Chain` (blocks, finality, the naive scan every discovery path is held to), `Explorer` (the
ranged v1 walk, the paged v2 walk, the block fallback), `Watcher` (deciding, verifying, one pass,
fast-forward, adoption, audit), `WatcherRuns` (whole runs), `Locks` (the advisory lock).

From payment to node
: `Tiers`, `Payments` (the queue and its cursor), `RelayState` (payments, nodes, timers, mints and
mint transactions under way as one state, with the invariant every statement keeps), `Allowance`,
`MintRelay` (the relay and the reconciler, statement by statement), `RelayRuns` (whole runs).

The two together
: `WholeRuns`: one chain, one watcher and one sale on the same payments table.

From node to payout
: `Settings`, `Policy`, `Amounts`, `Schedule` (timers), `Vault` (the factory's money side),
`CreditBooks` (the account between contract and ledger), `Credit` (one pass, and whole runs).

Self-contained algorithms
: `LogScan`, `Withdrawals`, `RateLimit`, `Format`, `Csv`. Shared: `Wrappers` (with `Seqs`),
`Selection` (order by ... limit), `Process` (statements that take effect, throw, or are never
reached because the process died).

Tables that the code updates are fields of classes; the passes are methods over them, proved
against functions of the old state. Failures are data: each method takes the fate of every
statement and the answer to every outside read as parameters, so a contract speaks for all of
them. A transaction hash stands for the signed content it commits to. The factory is an
environment object built from README.md, contracts/README.md, the docs page on accrual and the
error list of the ABI; its Solidity is not part of this model.

## What is assumed

- Blocks at or below the safe head are final.
- The index lists exactly the chain's transfers up to the height it reports, and the RPC reports
  the content a hash commits to; both may fail, lag or know nothing at any time. These are
  hypotheses of the theorems (`Explorer.HonestRanged`, `Explorer.HonestPaged`,
  `Watcher.HonestRpc`), not of the code: without them the passes still keep their tables whole.
  A row the parser skips is a row the index did not list: a real payment hidden behind one would be
  passed over.
- The tier table is fixed during a run and its prices are positive. Only the relay mints.
- A SQL statement takes effect or throws without effect, and a transaction is one statement.
- Passes over one table are serialised by the lock; `Locks` shows what the lock gives. `WatcherRuns`
  and `WholeRuns` need that of first passes only: there, passes that found a cursor may overlap.
- Operator steps fall between passes. A clock does not run backwards during a credit pass, nor
  between calls of one limiter.

## What the proofs turned up

- Two overlapping first passes could leave a payment behind the cursor although both claims hold
  (`WatcherRuns.TwoFirstPassesCanSkip`); later passes could not. The lock is what excludes it.
- An unlock whose failure is swallowed leaves the lock with the pooled connection, and every
  other connection is refused until that session ends (`Locks.LostUnlockRefusesOthers`).
- When a wallet has paid for more nodes than its allowance, the relay refuses its earliest
  payments and mints the latest (`Allowance.CleanPassRefusesTheFirst`), because every pending
  payment counts against the one being looked at.
- A requeue of a parked payment whose node exists takes a slot back. It cannot exceed the allowance
  because the route decides afresh and a parked payment is not in the usage it reads
  (`Allowance.RequeueKeepsAllowance`); a verdict kept from earlier could
  (`Allowance.RequeueOfMintedTakesASlot`).
- A tier price clash is reported and not undone, so one of the two tiers cannot be bought
  (`Tiers.AmountNamesTier`).
- `creditBatch` reports a lost receipt as a failed call, and the pass then says that nothing was
  credited. The transaction may still land. The model follows the code and keeps such a batch as
  floating; what it adds when it lands is in the account of lost passes (`Credit.Desk.Run`).
- The rolling cap counts recorded credits. What a failed ledger write left unrecorded is outside
  it, and `CreditBooks` says by how much.

## Model

| member | source | states |
|---|---|---|
| `Explorer.WalkTxlist` | lib/explorer.ts:297-365 | for every page size, page limit, deadline and failed request, the ranged walk's transfers at or below its coverage are, with multiplicity, the block-by-block scan of that ground; it throws if and only if a request fails before the last page and the deadline, and covers the whole range if and only if it gets that page, the first that is not full, within its limit; cut short, it keeps every row it read and gives away no more than the block of the last |
| `Explorer.ReadRanged` | lib/explorer.ts:344-349 | a page folded into the transfers and the highest block equals what folding the whole prefix would give; unparsable rows are skipped |
| `Explorer.PrefixRefines` | lib/explorer.ts:312-364 | a walk cut short knows exactly the ground strictly below the highest block it read |
| `Explorer.WalkAddressV2` | lib/explorer.ts:396-443 | all or nothing, and exact either way: coverage is `to` if and only if a row below the range or the end of the history was read within the page limit and in time, else from−1; it throws if and only if a request fails before that; whatever it read of the range it returns, ascending |
| `Explorer.ReadPage` | lib/explorer.ts:412-428 | one newest-first page: keeps the rows of the range above the first older row, and says whether there was one |
| `Explorer.RestIsOlder` | lib/explorer.ts:412-436 | once a row below the range was seen in a newest-first history, nothing after it belongs to the range |
| `Explorer.FallbackBlockScan` | lib/watcher.ts:483-544 | found transfers are the naive scan of the covered blocks, in order, each with the chain's own sender and amount; coverage stops exactly where a batch failed or time ran out; one request per covered block; every batch covered was in time and answered |
| `Chain.NaiveScanMembers` | lib/watcher.ts:483-544 | the reference scan holds exactly the transactions addressed to the wallet in its range |
| `Watcher.Discover` | lib/watcher.ts:553-690 | v2, then v1, then blocks, each exactly when the one before threw: whatever fails, the candidates contain every payment of the ground claimed, all of it is claimed when the source answers to the end, the reason to stop is the one there is, and without the index's own height its silence claims nothing |
| `Watcher.DecideQueuesOnlySales` | lib/watcher.ts:195-271 | a transfer is queued if and only if it is foreign, of exactly a tier price, and that tier is on sale, open to the wallet's known balance and not used up; the tier recorded is the one the amount names |
| `Watcher.VerifyTellsTheTruth` | lib/watcher.ts:301-378 | whatever the index said, a recorded payment is a final successful transfer to the wallet with the chain's own sender and amount, under the amount's tier; it is queued if and only if the index described it as the chain does and the shop sells for it, and parked otherwise; a true payment is recorded or holds the claim below its block, never dropped; a conclusive answer is accepted or rejected, so it cannot hold the cursor |
| `Watcher.VerifyAll` | lib/watcher.ts:784-810 | every candidate is acted on, a failed read aborts the pass, and the claim falls from what discovery covered only to right below a candidate that is not settled |
| `Watcher.PlanScan` | lib/watcher.ts:724-899 | with honest sources the claim holds and every decision in it is right, whatever failed on the way; it stays under the trust ceiling; where the index answers for the ground it reaches min(ceiling, safe head, index height), or right below a transfer not settled yet, which holds back no other payment the chain is conclusive about; only a failed read throws |
| `Watcher.ReportIsTrue` | lib/watcher.ts:826-888 | what the pass reports is so: where it settled, how far behind that is, why it stopped; caught up if and only if level with what could be discovered and not degraded; degraded if and only if discovery was blind, ran on blocks, or met a mismatch |
| `Watcher.LevelSaysSo` | lib/watcher.ts:843-888 | a healthy pass on an index that agrees with the chain is not degraded, and says it is caught up exactly when the ceiling let it get level |
| `Watcher.CaughtUpIsHonest` | lib/watcher.ts:826-888 | caughtUp implies the index gave its height and the settled ground reaches min(safe head, that height) |
| `Watcher.Commit` | lib/watcher.ts:408-448 | payments and cursor land together or not at all; held rows are untouched; the cursor never moves back |
| `Watcher.ScanPayments` | lib/watcher.ts:724-899 | plan and commit as one pass: exact new rows and cursor, and nothing at all when it throws; on honest answers a new row is queued only if the shop sells for it now, and always then unless the index told a different story; every payment the chain is conclusive about is in the table; a healthy pass leaves the cursor exactly at min(start + ceiling − 1, safe head, index height) |
| `Watcher.FastForward` | lib/watcher.ts:1032-1138 | the cursor jumps only forward, not past the safe head, and only over ground that holds no payment at all if the index is honest; and it does jump when the index answers for a range to which nothing was sent and the wallet's balance is accounted for |
| `Watcher.AdoptPayment` | lib/watcher.ts:1180-1223 | adopts exactly what verification proves, always when the chain shows a final payment, queued if and only if the shop sells for it; the cursor does not move |
| `Watcher.AuditPayments` | lib/watcher.ts:1279-1337 | only adds proven rows, queued if and only if the shop sells for them; when index and RPC answer truthfully for the window, whatever lies before it, every payment with money in it ends up recorded; it is thrown out only by a failed index request or a failed read; when it finishes, every payment with money that the history lists in the window was in the table or was asked about |
| `WatcherRuns.StepKeepsInv` | lib/watcher.ts:408-448 | every step (chain growth, claim planned, claim committed late, crash, queue work) keeps the discovery invariant |
| `WatcherRuns.NoPaymentIsSteppedOver` | lib/watcher.ts:402-448 | in every run each successful transfer to the wallet between the origin and the cursor has a row, and every row carries the chain's own sender and amount |
| `WatcherRuns.CaughtUpMeansRecorded` | lib/watcher.ts:775-888 | in every reachable state, a pass that says it is caught up left everything from the origin to min(safe head, index height) recorded with the chain's own sender and amount |
| `WatcherRuns.TwoFirstPassesCanSkip` | lib/watcher.ts:692-717 | two overlapping first passes, each with a claim that holds, can leave a payment behind the cursor: why the lock is needed |
| `WatcherRuns.ScanBegins` | lib/watcher.ts:724-899 | what one pass plans on honest answers is a step these runs allow, in whatever state it meets, if no other first pass is under way |
| `WatcherRuns.FastForwardKeepsInv` | lib/watcher.ts:1032-1138 | jumping over ground shown empty keeps the discovery invariant, with claims of other passes still in flight |
| `WatcherRuns.ProvenRowsAreQueueWork` | lib/watcher.ts:1180-1337 | what adoption and audit add changes no payment's identity and carries the chain's own sender and amount |
| `WatcherRuns.HealthyScans` | lib/watcher.ts:814-824 | one healthy scan after another, over a growing chain: the table's cursor closes a frozen gap in exactly ceil(gap / ceiling) scans, and is level with a head that grows by less than the ceiling from a computable scan on |
| `WatcherRuns.FrozenGapCloses` | lib/watcher.ts:814-824 | where each pass moves the cursor by at most the ceiling towards a fixed goal, it is there after exactly ceil(gap / ceiling) passes and not one earlier |
| `WatcherRuns.MovingHeadIsCaught` | lib/watcher.ts:814-824 | where the goal moves on by at most g < ceiling between passes, the cursor is level from a computable pass on |
| `Locks.PassesAreSerialised` | lib/db.ts:149-173 | no two callbacks under one key overlap in any run with lost unlocks and dying sessions |
| `Locks.ReturningFreesTheLock` | lib/db.ts:149-173 | as long as no unlock was lost, a caller that comes back frees the lock: anyone idle is granted it next |
| `Locks.ReturnUndoesEntry` | lib/db.ts:149-173 | taking the lock and giving it back leaves the server as it was, also on a connection that still held it |
| `Locks.OthersAreUndisturbed` | lib/db.ts:149-173 | a refused caller changes nothing, a granted one is inside, and no step touches another connection's lock or callback |
| `Locks.CrashFreesTheLock` | lib/db.ts:142-145 | with the holder's session gone anyone idle is granted the lock |
| `Locks.LostUnlockRefusesOthers` | lib/db.ts:166-172 | an unlock that fails silently leaves the pooled connection holding the lock, and refuses every other connection until that session ends |
| `Payments.RetriesAreBounded` | lib/payments.ts:91-152 | between operator requeues each recorded failure spends exactly one of ten attempts, whatever else happens to the row |
| `Payments.FinishedStaysFinished` | lib/payments.ts:108-126 | a minted or refunded row never changes again and is never claimed, in every serialised run |
| `Payments.SpentRowWaitsForOperator` | lib/payments.ts:129-152 | a parked row leaves manual review only by refund until an operator requeues it |
| `Payments.ApplyKeepsCount` | lib/payments.ts:91-152 | seen implies no attempts, minting and failed fewer than ten, never more than ten |
| `Payments.LifeCycle` | lib/payments.ts:91-194 | the life of a row, edge by edge: where each statement finds it and leaves it, that one whose place it is not at leaves it alone, and that no statement changes payer, amount, block or place in the queue |
| `Payments.QueuedIsClaimable` | lib/payments.ts:91-105 | between statements the rows the relay will claim are exactly those seen or failed |
| `Payments.PaymentTable.RecordSeen` | lib/payments.ts:53-83 | idempotent on the hash: a held row stays exactly as it is; a new one is numbered after all others |
| `Payments.PaymentTable.ClaimForMinting` | lib/payments.ts:91-105 | takes the first `limit` claimable rows by block and then by insertion, each once, and moves exactly those to minting, changing nothing else of them |
| `Payments.PaymentTable.RequeueStuckMinting` | lib/payments.ts:183-194 | exactly the rows stuck longer than the bound become failed, and so claimable again, with their attempts and everything else as they were; every other row is untouched |
| `Payments.PaymentTable.RefundPayment` | lib/payments.ts:322-361 | never touches a minted row; otherwise the hash ends refunded, inserted if discovery never saw it |
| `Payments.PaymentTable.SetCursor` | lib/payments.ts:210-218 | the cursor is the maximum of what it was and what it is given |
| `Tiers.TierForAmount` | lib/tiers.ts:224-233 | a tier is found if and only if some price equals the amount, then its price is the amount, and no tier before it in the list has that price |
| `Tiers.AmountNamesTier` | lib/tiers.ts:224-233 | amount and tier determine each other if and only if prices are distinct |
| `Tiers.LoadTiers` | lib/tiers.ts:128-198 | each field of each tier is what the last usable stored row for it says, and the default where there is none; prices stay positive; no problem is reported if and only if every row is usable and no two tiers share a price (a clash is reported, not undone) |
| `Tiers.UsableIsBounded` | lib/tiers.ts:99-176 | a stored row is used if and only if some table with positive prices, at most 1000 nodes a wallet and at most 1,000,000 basis points says it |
| `Tiers.PriceClashes` | lib/tiers.ts:188-197 | the clash loop reports nothing if and only if prices are distinct |
| `RelayState.OnePaymentOneNode` | lib/mintRelay.ts:14-26 | two finished payments share a node only if they are the same payment; the node is the payer's, at the amount paid, in the tier that amount names |
| `RelayState.UsedRefHasNode` | lib/mintRelay.ts:171-183 | a ref is used if and only if the payer's own mint logs hold it, so a retry can always find its node |
| `RelayState.MarkMintedKeepsInv` | lib/mintRelay.ts:163-167 | marking a payment done is safe once its node is in the ledger and on a timer, and only then is it done |
| `RelayState.RecordAllKeepsInv` | lib/reconcile.ts:83-153 | recording any batch of real nodes gives each a row at the price paid and a timer, and rewrites nothing already held |
| `RelayState.RequeueKeepsInv` | lib/payments.ts:268-284 | a fresh decision cannot change the tier of a payment that has a mint behind it |
| `RelayState.LandKeepsInv` | lib/mintRelay.ts:366-376 | an old mint transaction landing late, at any moment, breaks nothing |
| `MintRelay.Factory.Land` | README.md:67-70 | mintFor gives the next id, or refuses a used ref and changes nothing |
| `MintRelay.Factory.ExistingNodeFor` | lib/mintRelay.ts:177-183 | finds the owner's node with that ref if there is one |
| `MintRelay.Pipeline.RecordMintedNodes` | lib/reconcile.ts:83-153 | one transaction: every node has a ledger row and a timer, or nothing changed |
| `MintRelay.Pipeline.Settle` | lib/mintRelay.ts:163-167 | timer, ledger, payment, with a crash possible before each: the sale invariant holds after every statement, the row is done only at the end, and a new node's timer is the delay drawn for it |
| `MintRelay.Pipeline.VerifyPayment` | lib/mintRelay.ts:199-240 | passes only a transfer to the wallet for exactly a tier price; the row's tier is corrected from the amount; no wrong row goes on |
| `MintRelay.Pipeline.CheckAllowance` | lib/mintRelay.ts:309-334 | parks exactly when the usage, this payment excluded, has reached the allowance |
| `MintRelay.Pipeline.ResolveAlreadyMinted` | lib/mintRelay.ts:243-275 | with the log visible and no failed statement a used ref always ends as already minted |
| `MintRelay.Pipeline.SendMint` | lib/mintRelay.ts:366-404 | send, receipt lost, reverted, logged or not: invariant and allowance survive, no other payment's mint comes to life, a mint whose receipt is lost may still land, and a send that finds its mint already there ends as minted |
| `MintRelay.Pipeline.MintOne` | lib/mintRelay.ts:277-404 | one attempt, older mints landing around it, a crash at any statement: invariant and allowance kept, one row changed as the outcome says; a retry of a minted payment settles on its node, also if the mint only appears between the read and the send; an undisturbed first attempt mints, or parks exactly when no slot is free; parking needs a reason no retry can fix; a mint is reported fresh only for a ref not used before |
| `MintRelay.NodeTable.ScheduleNewNode` | lib/schedule.ts:35-48 | a timer that exists is left alone |
| `MintRelay.Factory.PaymentRefUsed` | lib/rpc.ts:147-153 | true exactly for a ref some mint carries |
| `MintRelay.Pipeline.Claim` | lib/payments.ts:91-105 | the claim keeps the sale invariant and leaves every claimed row held by the pass, each once |
| `MintRelay.Pipeline.PutBack` | lib/mintRelay.ts:445-464 | with a wrong relayer key every claimed row goes back with exactly one failure counted |
| `MintRelay.Pipeline.Fail` | lib/payments.ts:129-141 | counts the attempt and parks on the tenth, or changes nothing when the statement fails |
| `MintRelay.Pipeline.Park` | lib/payments.ts:144-152 | parks without counting an attempt, or changes nothing when the statement fails |
| `MintRelay.Pipeline.CorrectTier` | lib/mintRelay.ts:229-232 | writing the tier of the amount keeps invariant and allowance, even behind a mint |
| `MintRelay.Pipeline.Simulate` | lib/mintRelay.ts:336-364 | a wallet limit parks, another refusal counts a failure, a used ref is resolved as minted, and an unused one or a lagging answer passes |
| `MintRelay.Pipeline.Broadcast` | lib/mintRelay.ts:366-376 | with a verified payment and a free slot a mint may be sent, and land now, later or never |
| `MintRelay.Pipeline.Recheck` | lib/mintRelay.ts:378-385 | after a revert a ref the contract has seen ends as minted, and one it has not seen as one counted failure |
| `MintRelay.Pipeline.MarkDone` | lib/payments.ts:108-126 | the last statement of settling: done exactly when it takes effect |
| `MintRelay.Pipeline.AttemptOne` | lib/mintRelay.ts:478-493 | whatever is thrown becomes one counted failure, never a parked payment, so an attempt without failed statements always ends in an outcome |
| `MintRelay.Pipeline.Attempts` | lib/mintRelay.ts:469-494 | one payment after the other: reported outcomes match the rows, the rest stay held |
| `MintRelay.Pipeline.RunMintRelay` | lib/mintRelay.ts:438-507 | exactly the first due rows are touched and each shows what was reported, with one attempt more for a failure and none otherwise, or is still held; with no failure the queue ends as the failure-free sequence says; every retry whose ref was used is reported minted; with a key that is not the relayer's nothing is sent and every claimed row fails once; nothing is issued after the statement the process died at, and nothing is begun past the deadline |
| `MintRelay.Pipeline.ReconcileNodes` | lib/reconcile.ts:198-257 | chases the missing nodes with the highest ids up to the cap; afterwards exactly those with a visible log and an agreeing owner are no longer missing, each with the timer drawn for it if it had none |
| `Allowance.CheckedSendStaysWithin` | lib/mintRelay.ts:309-334 | one below the usage under the allowance is enough for a send to keep every wallet within every tier |
| `Allowance.MintedWithinAllowance` | lib/tiers.ts:312-325 | minted payments of a wallet and tier never exceed maxPerWallet while commitments are within it |
| `Allowance.RequeueKeepsAllowance` | app/api/admin/payments/route.ts:151-156 | requeueing any payment on a decision that reads the usage as it is keeps every allowance, also behind a mint that exists or may still land |
| `Allowance.RequeueOfMintedTakesASlot` | app/api/admin/payments/route.ts:143-156 | why the decision is made afresh: on a verdict from elsewhere, requeueing a parked payment whose mint exists or may land stays within the allowance if and only if a slot is free |
| `Allowance.CleanPassRefusesTheFirst` | lib/mintRelay.ts:309-334 | in a failure-free pass a payment is parked exactly when fewer payments of its wallet and tier went before it than the wallet is over by: the earliest are refused, not the latest |
| `Allowance.CleanPassFillsTheAllowance` | lib/mintRelay.ts:309-334 | over all pending payments of a wallet and tier exactly min(allowance, usage) are left un-refused, provided the nodes it already has fit |
| `RelayRuns.Sale.HandBackStuck` | lib/payments.ts:183-194 | after it every payment held longer than the bound is claimable again, nothing spent, and no other row changed; invariant and allowance kept, also behind a mint that may still land |
| `RelayRuns.Sale.Refund` | lib/payments.ts:322-361 | a refund changes that one row, keeps invariant and allowance, and never unmakes a minted row |
| `RelayRuns.Sale.RequeuePayment` | app/api/admin/payments/route.ts:143-156 | a parked or failed payment is claimable afterwards if and only if the shop sells for it now, under the tier of its amount and with its attempts given back; any other row is untouched; invariant and every allowance kept |
| `RelayRuns.ProvenIsWatchable` | lib/watcher.ts:408-448 | what the watcher proves against the chain is all the sale's runs accept into the queue |
| `RelayRuns.SaleIsQueueWork` | lib/watcher.ts:402-448 | what the sale does to the queue between two passes is what the watcher's runs allow for: the two run theorems compose |
| `RelayRuns.Sale.Step` | lib/mintRelay.ts:438-507 | what each event of the sale does to tables and factory: a pass takes the first due payments and each shows how its attempt ended; a stuck payment is claimable again; a parked one is decided afresh; a reconcile leaves no repairable node among the newest; a late mint in flight lands or finds its ref used |
| `RelayRuns.Sale.Run` | lib/mintRelay.ts:438-507 | every run of discoveries, relay passes of any process, stuck requeues, operator steps, reconciling and late mints, with the states in between, each step being what its event does: distinct refs, every node backed by its own confirmed payment of exactly a tier price, every finished payment complete in all three tables, no wallet beyond any tier's allowance |
| `WholeRuns.LandedIsProven` | lib/watcher.ts:408-448 | committing a claim that holds adds only rows proved against the chain |
| `WholeRuns.ProvenRowsSuitTheSale` | lib/watcher.ts:402-448 | rows proved against the chain keep the sale invariant and every allowance, whoever added them |
| `WholeRuns.Site.Propose` | lib/watcher.ts:724-824 | a pass planned on honest answers enters the run as a claim in flight; the ground it claims is that of a healthy scan when everything answers |
| `WholeRuns.Site.Finish` | lib/watcher.ts:408-448 | a claim commits however late, after whatever else landed: its rows and the larger cursor, or nothing |
| `WholeRuns.Site.SkipEmpty` | lib/watcher.ts:1032-1138 | a fast-forward in the middle of a run steps over no payment |
| `WholeRuns.Site.AdoptOne` | lib/watcher.ts:1180-1223 | an adoption in the middle of a run adds proven rows only, moves no cursor, and leaves a payment both reads show recorded |
| `WholeRuns.Site.AuditWindow` | lib/watcher.ts:1279-1337 | an audit in the middle of a run adds proven rows only, moves no cursor, and closes its window when index and RPC answer for it |
| `WholeRuns.Site.Work` | lib/mintRelay.ts:438-507 | every event of the sale does to the tables what it does alone (a pass takes the first due payments, a stuck one is claimable again) and keeps what discovery established |
| `WholeRuns.Site.Step` | lib/watcher.ts:402-448 | the cursor moves by commits and fast-forwards only and never back; no row is lost; the origin is set once |
| `WholeRuns.Site.Run` | lib/watcher.ts:402-448 | chain, watcher and sale together, under any schedule that may look at everything: nothing between origin and cursor is without its row, every row carries the chain's own sender and amount, the sale is sound, and behind every node stands its own final payment on this chain |
| `Vault.Vault.CreditBatch` | app/docs/accrual/page.tsx:147-160 | all of the batch or none: value equals the sum, known ids, positive bounded amounts, accepted if and only if so; balances, log and totals follow |
| `Vault.Vault.Withdraw` | README.md:73-74 | empties the node and pays exactly its balance, or reverts on an empty one; solvency kept |
| `Vault.Vault.Rescue` | contracts/README.md:28-32 | moves at most balance less outstanding, so what holders are owed stays held |
| `Policy.CheckRails` | worker/policy.ts:82-144 | each refusal is given exactly when its rail is the first that fails, solvency, then the cap, then the float; none if and only if all three hold |
| `Policy.MarginCoversTheBatch` | worker/policy.ts:125-149 | the margin pays for 60k gas and up to 15k a node at any price up to twice the one read, and for no more |
| `Credit.Candidates` | lib/credit.ts:295-321 | the loop builds that batch, and drops exactly the due ids that are not creditable |
| `Credit.SumWei` | worker/amounts.ts:45-49 | the loop's total is the batch total the contract requires as value |
| `Credit.Desk.Defer` | lib/credit.ts:248-257 | a refusal that is no node's fault moves exactly the due timers, or nothing when the statement fails |
| `Credit.CandidatesAreTheCreditable` | lib/credit.ts:295-321 | the batch names every due node that is active and known, each once, and nobody else, each with its own scaled draw |
| `Credit.CreditableIsAccepted` | lib/credit.ts:271-303 | creditable are exactly the active nodes of the ledger for which the contract would accept a credit |
| `Credit.Desk.SendBatch` | worker/chain.ts:120-153 | the batch lands if and only if it is mined and acceptable; a lost receipt leaves it floating; anything else moves nothing |
| `Credit.Desk.Record` | lib/credit.ts:409-466 | rows and timers together, else timers alone, else neither: the books say which, and stay exact |
| `Credit.Desk.Pay` | lib/credit.ts:345-401 | a batch is paid only within all rails; for every way the call and the two statements can end the books afterwards are exactly the ones that ending leaves; the rolling cap survives |
| `Credit.Desk.RunPass` | lib/credit.ts:186-485 | the oldest due nodes are taken whenever the configuration allows, nobody being due is said only when nobody is, and whenever every statement succeeds the pass pays and records their creditable ones or gives the one reason there is not to; every credited node is due again within the configured delays; the first failed statement before the money stops it; for every result the books afterwards are exactly those it leaves; accounting, spacing and cap survive any failure |
| `Credit.OneReason` | lib/credit.ts:199-369 | no two reasons to skip hold of one state of affairs, and none when the batch is to be paid |
| `Credit.SomeReason` | lib/credit.ts:199-369 | and one of them holds whenever it is not |
| `Credit.LossesAreTied` | lib/credit.ts:381-466 | a pass loses its own batch or nothing, and only without a receipt or landed with both statements failed or a death; it leaves its batch unrecorded only if it landed and a statement failed |
| `Credit.LossesAreCounted` | lib/credit.ts:381-466 | however many passes lose their advance, each costs a node at most one credit |
| `Credit.Desk.RunPasses` | lib/schedule.ts:50-62 | consecutive passes, each with its own creditable nodes and failures: a due creditable node is overlooked by all of them only if they are at most (rank − 1) / (200 − m) |
| `Credit.PayoutScales` | lib/credit.ts:301-319 | a payout is the node's own draw times its tier's multiplier, cut to the wei, a node without a tier counting as base; so it lies in the configured range scaled by that |
| `Credit.Desk.Run` | lib/credit.ts:9-24 | every run with lost receipts, failed writes, crashes, withdrawals and rescues: contract solvent; per node, ledger plus unrecorded is what the chain credited; a node's credits never exceed its advances plus the passes that got no receipt, or landed and then neither committed nor salvaged; what was lost or went unrecorded is listed event by event; no burst of advances; cap kept at every instant |
| `CreditBooks.LedgerNeverExceedsChain` | lib/credit.ts:381-466 | per node and to the wei: ledger plus unrecorded is what the chain credited |
| `CreditBooks.WrittenKeeps` | lib/credit.ts:409-440 | recording a landed batch with its timers keeps both accounts exact |
| `CreditBooks.SalvagedKeeps` | lib/credit.ts:156-172 | salvage leaves money unrecorded but every landed credit paid for by an advance |
| `CreditBooks.FloatLandedKeeps` | worker/chain.ts:147-152 | a transaction whose receipt never came may land later, or never, without upsetting either account |
| `CreditBooks.CapHolds` | worker/policy.ts:106-121 | a pass that fitted the cap when it looked keeps every 24-hour window under it, however late it commits |
| `CreditBooks.RailReadsTheDay` | lib/credit.ts:495-502 | the figure the cap is checked with is what was recorded after the instant asked about, no more and no less: looked at when nothing is newer, exactly the last 24 hours |
| `Credit.CreditedPassMovesOn` | lib/credit.ts:229-321 | a credited pass that left out a due creditable node took 200 others first and advanced the creditable ones |
| `Schedule.Schedule.DueNodes` | lib/schedule.ts:54-62 | the due timers, oldest first, at most the limit, each once, and none left out that is older than one taken |
| `Schedule.Schedule.AdvanceSchedules` | lib/schedule.ts:71-92 | exactly those timers count one credit more, given now, and are due the node's own delay from now; advances of one timer stay a minimum delay apart |
| `Schedule.Schedule.DeferAll` | lib/schedule.ts:99-106 | moves exactly the due timers, to that delay from now, without recording a credit, so none is due any more, and keeps spacing |
| `Schedule.NoBacklog` | lib/schedule.ts:15-18 | however long an outage, a stretch of length T holds at most T / minDelay + 1 advances of a node |
| `Schedule.RankFalls` | lib/schedule.ts:50-62 | being passed over once lowers a node's rank, among all nodes ever creditable, by exactly 200 less the inert rows taken |
| `Schedule.WaitIsBounded` | lib/schedule.ts:50-62 | with at most m < 200 inert rows per pass, and other nodes creditable in each, a due creditable node is passed over at most (rank − 1) / (200 − m) times in a row |
| `Amounts.MaskFits` | worker/amounts.ts:29-32 | span ≤ mask < 2·span for every span |
| `Amounts.SamplingIsUniform` | worker/amounts.ts:29-37 | every value of [0, span) is the outcome of exactly 2^spare of the equally likely byte strings |
| `Amounts.HalfAreAccepted` | worker/amounts.ts:33-36 | each round accepts with probability at least one half |
| `Amounts.EndingAtIsTheLoop` | worker/amounts.ts:29-37 | a sequence of draws is counted for v exactly when the loop returns v at its last draw and was still drawing before |
| `Amounts.RejectionIsUniform` | worker/amounts.ts:29-37 | the loop ends with v at its k-th draw in |rejected|^(k−1) · 2^spare ways, the same number for every v: exactly uniform, however often it rejects |
| `Amounts.WideWeiIsUniform` | worker/amounts.ts:20-26 | over a range wider than 2^48 every amount is reached at the k-th draw in the same number of ways |
| `Amounts.NarrowWeiIsUniform` | worker/amounts.ts:20-26 | over a range up to 2^48 every amount comes up equally often in whole rounds of the platform's randomness |
| `Amounts.DelayIsUniform` | worker/amounts.ts:39-43 | and so does every delay of the range, both ends included |
| `Amounts.BytesAreNumbers` | worker/amounts.ts:34-34 | byte strings of a length and the numbers below 256^length are in bijection |
| `Amounts.RandomBelow` | worker/amounts.ts:29-37 | the loop returns the first draw in the span, or is still drawing |
| `Amounts.RandomWei` | worker/amounts.ts:20-26 | throws exactly when max is below min, and otherwise lands in [min, max] or is still drawing: the narrow range by the platform's integer, the wide one by rejection |
| `Amounts.RandomDelaySec` | worker/amounts.ts:40-43 | never below min, never above max when the range is not empty |
| `Settings.Reconcile` | lib/settings.ts:107-145 | whatever was merged the result is valid; a usable range or cap stays as merged, an impossible lower end gives way alone, and an inverted range gives way to the environment's; touched exactly when the merge was invalid |
| `Settings.LoadSettings` | lib/settings.ts:149-178 | field by field the stored value where there is a usable one, the environment's otherwise, repaired only if that is invalid; nothing reported if and only if every stored value is usable and the merge is valid |
| `LogScan.Scanner.Scan` | lib/rpc.ts:315-350 | by halving on failure: appends exactly the logs of the range, in order; a range is split only into halves of at least c blocks; fails only if a smallest range fails |
| `LogScan.ScanMintLogs` | lib/rpc.ts:300-354 | complete, ordered, without duplicates for any failure pattern, in at most max(1, 2·floor(n / c) − 1) requests |
| `Withdrawals.WithdrawalIndex.IndexWithdrawals` | lib/withdrawals.ts:53-141 | windows follow one another without gap; the cursor moves only over inserted ground; caught up if and only if it reached the safe head; a crash between inserts is repaired by the next pass; the pass ends at the first statement that fails, and then the cursor has not moved |
| `Withdrawals.WithdrawalIndex.InsertWindow` | lib/withdrawals.ts:102-130 | row by row, with a crash at any: the table is always the indexing of a prefix of the log |
| `Withdrawals.WithdrawalIndex.Insert` | lib/withdrawals.ts:115-128 | inserts exactly when the key is new |
| `Withdrawals.MirrorsExactlyWhenKeysDiffer` | lib/withdrawals.ts:115-129 | the table mirrors the log one row per event if and only if no two events share a transaction and a node |
| `Withdrawals.CursorIsCovered` | lib/withdrawals.ts:49-52 | in every reachable state an event at or below the cursor has exactly one row |
| `Withdrawals.NothingLeftToIndex` | lib/withdrawals.ts:53-141 | with no event above the cursor the table is what indexing the whole log gives, wherever earlier passes crashed |
| `Withdrawals.LedgerBalanceIsChainBalance` | lib/nodes.ts:4-8 | with no withdrawal logged above the cursor and nothing unrecorded, credits less withdrawals of a node are the contract's balance for it |
| `Withdrawals.IndexFromScratch` | lib/withdrawals.ts:53-141 | one undisturbed pass of a fresh index that says it is caught up makes the two public figures agree |
| `RateLimit.Limiter.RateLimit` | lib/rateLimit.ts:38-68 | under a monotone clock, whatever was swept: a call is let through if and only if fewer than the limit of its key's calls came before it in the open window; what is left, the end of the window and the least wait in whole seconds are told truly |
| `RateLimit.Limiter.Serve` | lib/rateLimit.ts:47-68 | in any run of calls over any keys, of one key's calls no more than twice the limit are let through in a closed interval one window long |
| `RateLimit.BucketIsTheWindow` | lib/rateLimit.ts:53-58 | a bucket counts exactly its key's calls since the one that opened the window, and ends when that one's window does |
| `RateLimit.Limiter.Sweep` | lib/rateLimit.ts:38-44 | once a window has passed since the last sweep it drops exactly the expired buckets, and otherwise nothing |
| `RateLimit.KeysAreIndependent` | lib/rateLimit.ts:53-58 | a key's bucket depends on that key's own hits only |
| `RateLimit.AtMostTwicePerWindow` | lib/rateLimit.ts:47-62 | any closed interval of one window length admits at most twice the limit |
| `Format.FormatThenParse` | lib/format.ts:6-31 | parse undoes print for every amount that is not negative; fewer decimals round down by less than one unit of the last place; a negative amount does not parse |
| `Format.FormatShape` | lib/format.ts:6-16 | a printed amount has no leading zeros and exactly the decimals asked for, eighteen at most |
| `Format.GrammarParses` | lib/format.ts:23-31 | every text of the grammar, digits with or without a dot and decimals, spaces around it forgiven, parses to the amount it writes down |
| `Format.OnlyGrammarParses` | lib/format.ts:23-31 | and nothing else parses |
| `Format.DecimalsInWei` | lib/format.ts:29-30 | decimals are worth what they say to the wei, and what is beyond the eighteenth is cut, never rounded up |
| `Format.ExportThenParse` | lib/csv.ts:11-18 | the export's spelling parses back to the same wei if and only if it is not negative |
| `Format.ExportShape` | lib/csv.ts:11-18 | an exported amount has no leading zeros, no trailing ones after a dot, and no dot without decimals |
| `Csv.ExportReadsBack` | lib/csv.ts:26-34 | a reader of RFC 4180 section 2 gets the same header and rows back, whatever the fields hold, if and only if none is without fields |

## Left out

- HTTP, retries, header tricks and JSON parsing of the explorer client: a page request is an answer or an error, and an unparsable row is skipped.
- viem calls, nonces, gas prices, ABI encoding and revert decoding: only the outcome of a call is kept.
- Alerts, log lines, notes, heartbeats and the counters of reports: they decide nothing.
- Names and addresses are numbers; case folding of hashes and addresses is not modelled.
- The `wallets` row recordMintedNodes creates first, and `last_error`, `mint_tx_hash` and `created_at` columns.
- Races inside one statement between an operator refund and a relay pass: `refunded` is terminal between passes.
- MintRelay.NodeTable: keeps only the next time of a timer; the columns the credit pass reads and writes are in Schedule.
- MintRelay.Pipeline.ReconcileNodes: a chain read that throws before the write is not separate from a failed statement, and one log per id is assumed.
- Watcher.AuditPayments: that it closes every hole is stated for transfers with an amount above zero, the only ones it looks at.
- Credit.Desk.Run: late transactions land between passes, not inside one; the cap is about recorded rows.
- Withdrawals.WithdrawalIndex.IndexWithdrawals: block timestamps are not modelled.
- Amounts.RandomWei: the platform's uniform integer below 2^48 is a reduction of given randomness; that it is uniform is taken as given.
- WholeRuns.Site.Run: one watcher configuration and one tier table; the sale's clock and the watcher's are not related.
- Format.FormatThenParse: the string form of the argument, labels and USD figures.
- Csv.ExportReadsBack: fields are text; a number is what String() makes of it.
- RateLimit.AtMostTwicePerWindow: one process; each instance has its own store.
- inBatches and the concurrency inside one batch of reads: answers do not depend on their order here.
- The Uniswap hook and swaps mode, which the code refuses to run.
- Sessions, passkeys, admin authentication, wallet discovery, React components and read-only routes: no ledger is involved.
