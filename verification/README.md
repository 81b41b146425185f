# Offline point of sale: a verified model

This project models the hard parts of an offline-first point of sale and proves what they promise.
A POS device sells, takes cash and records returns while it is offline; an outbox delivers its
commands to a server, and a change feed brings the server's facts back. Around that protocol stand
several exact-decimal ledgers: stock, cost, refunds, cash shifts, prices.

`dafny verify dfyconfig.toml` checks the whole project.

| file | component |
|---|---|
| Decimals, FixedPoint | decimals of 80 significant digits, the two quantizing scales, and proofs that the engine's calls round once |
| Canonical, Idempotency, CallHistory | request canonical form and hash; the idempotency table under concurrent transactions; what every call of a history is answered |
| Outbox, Delivery, Progress, PushRun, PushBridge | claim, lease, settle and recovery; the whole delivery system as a transition system, and that commands get through it; the push loop and the recovery drain; the server's push and why its replies back every settlement |
| ChangeFeed, StockReplica | paging by cursor, atomic application, the pull loop; stock balances from bootstrap plus pull |
| Inventory, OpnameLaws, NegativeStock, StoredStock, Costing, Landed, PurchasePosting | movements, balances and opname, and what its commands do field by field; which sales a receipt replaces; averages and COGS corrections; invoices and landed value; where a purchase's value ends up |
| ReturnSplit, Refunds, RefundLaws | the rounded split of a line over its returns; the refund life cycle, its capacity limits and exactly when each command moves a refund |
| CashShift, SaleMath, SaleLaws, PriceTimeline | closing snapshot and late facts; the arithmetic of a sale on both sides; chained price versions |

Decimals are Dafny `real`s: exact values, with every rounding written out. SQL and Dexie tables are
sequences and maps, a transaction is one step, and a thrown error is a result value that leaves the
state as it was. Classes stand where the source keeps mutable tables; each of their methods is
proved equal to a function on the table contents, and the main results are about those functions.
What each such function does is also stated in the fields of the rows it reads and writes, without
naming it (RefundLaws, OpnameLaws, SaleLaws, CallHistory and lemmas beside the others).

Some expectations turn out false of the code. Each has a lemma with an input that shows it and a
lemma that says exactly when the code does meet it:

- The bucketed sum of a closing counts refund reversals as money out although they are recorded as
  money in (`CashShift.ReversalMisleads`, `CashShift.BelievedIffNoReversal`).
- Stock adjustments below zero re-open sales that were already replaced
  (`NegativeStock.AdjustmentReopensSale`, `NegativeStock.AdjustmentBeforeSale`). Exactly when a sale
  stays within its negative part: `NegativeStock.AccountedIffMeets` and `SafeIffMeets`, and
  `StoredStock.StoredAccountedIffMeets` for stored quantities. Exactly when the query is the queue and
  when recomputing agrees: `NegativeStock.QueryIsFifoIff` and `RecomputeIff`.
- A receipt can be refused because one of its shares is stored as zero
  (`StoredStock.FreeMillionthRefused`, `StoredStock.RefusedIff`).
- A completing return can have a negative share, which the table refuses, so the last part of a
  line can become unreturnable (`ReturnSplit.LastHalfIsRefused`, `ReturnSplit.NeverCompletes`,
  `ReturnSplit.CompletingNegativeIff`).
- The POS commits sales whose subtotal does not fit the server's column
  (`SaleMath.RefusedForever`, `SaleMath.ServerAcceptsIffSubtotalFits`).
- An invoice can be captured that cannot be posted (`Landed.RoundedSubtotalAdmitsNegativeLine`,
  `Landed.LineNegativeIff`).
- After one scheduled price no further approval of that unit is accepted
  (`PriceTimeline.ScheduledThenRefused`, `PriceTimeline.ScheduledIsFinal`, `PriceTimeline.AcceptedIff`).
- Feed rows that become visible out of sequence order are lost to devices that pulled in between
  (`ChangeFeed.SequenceGapLosesRow`, `ChangeFeed.PageCompleteIff`).
- Receipts whose base quantity has more than six decimals are allocated unrounded and stored
  rounded: COGS corrections then miss the landed value, and a purchase can become unpostable
  (`Costing.FreeThirdMisses`, `Costing.FreeThirdBlocksPosting`; exactly when:
  `Costing.ReceiptTelescopesIff`, `Costing.BasisNonNegativeIff`).
- A `__proto__` member of a payload does not reach the request hash (`Canonical.ProtoIsNotHashed`,
  `Canonical.HashDecidesSameness`).

## Model

| member | source | states |
|---|---|---|
| Decimals.HalfUpNearest | packages/numeric/src/precision.ts:23-32 | quantizeDecimal with HALF_UP picks the nearest integer of the last place and ties away from zero, stated as an interval and in both directions |
| Decimals.HalfEvenNearest | packages/numeric/src/decimal-engine.ts:9-11 | the guard rounding is nearest, never crosses an integer, keeps integers and is odd |
| Decimals.HalfEvenTies | packages/numeric/src/decimal-engine.ts:9-11 | a tie of the guard rounding goes to the even neighbour |
| Decimals.GuardExact | packages/numeric/src/decimal-engine.ts:5-14 | a decimal of at most 80 digits passes the guard unchanged |
| Decimals.QuotientRoundsOnce | packages/numeric/src/decimal.ts:20-24 | dividing at 80 digits half-even and then quantizing HALF_UP equals rounding the exact quotient once, for every numerator with abs(a)·10^s below 10^79 and every positive denominator |
| FixedPoint.Fixed4Near | apps/api/src/returns.ts:482-484 | fixed4 is within half of the fourth decimal, lands on the scale and keeps values already on it |
| FixedPoint.Fixed8Between | apps/api/src/returns.ts:486-488 | fixed8 keeps a value between bounds that are themselves on the scale |
| FixedPoint.NumericColumns | packages/numeric/src/precision.ts:66-98 | a value fits a column if and only if it is a number of its last places with at most its digits |
| FixedPoint.GuardedShare | apps/api/src/returns.ts:617-622 | multiply, divide and quantize of the return split rounds the exact value once for every stored amount and quantity |
| FixedPoint.GuardedMeanRoundsOnce | apps/api/src/purchasing.ts:680-692 | the engine's value-weighted mean followed by money8 rounds the exact mean once, for every base quantity with up to fourteen decimals and every stored cost |
| FixedPoint.GuardedBase | apps/api/src/purchasing.ts:830-834 | a base quantity, a quantity times a conversion factor, is exact in the engine and has at most fourteen decimals |
| Canonical.CanonicalFormDecidesSameness | apps/api/src/command-support.ts:19-32 | two requests without lost members share a canonical form if and only if they are equal up to the order of object keys, at every depth |
| Canonical.HashDecidesSameness | apps/api/src/command-support.ts:19-40 | two requests are hashed alike if and only if, without their __proto__ members, they are equal up to the order of object keys |
| Canonical.PlainHashDecidesSameness | apps/api/src/command-support.ts:19-40 | for requests without __proto__ members the hash decides equality up to key order of the requests as sent |
| Canonical.ProtoIsNotHashed | apps/api/src/command-support.ts:26-28 | a __proto__ member is lost by the assignment and does not reach the hash |
| Idempotency.CommitKeeps | apps/api/src/database.ts:93-114 | committing publishes a COMPLETED record together with its one effect and never changes another record |
| Idempotency.RollbackKeeps | apps/api/src/database.ts:108-110 | rolling back any open transaction keeps every committed record and the record-effect bijection |
| Idempotency.ReplayReturnsFirstResult | apps/api/src/command-support.ts:56-121 | COMMAND_IN_PROGRESS is unreachable, a replay returns the result of the one committed operation of its key, and a refusal happens exactly on another hash |
| Idempotency.StepsRefineExecute | apps/api/src/command-support.ts:42-121 | insert, operation, update and commit run to the end are one atomic execution; a rollback restores the state before |
| Idempotency.IdempotencyStore.ExecuteIdempotent | apps/api/src/command-support.ts:42-121 | the table and effects after a call, and the answer, are those of the atomic execution, thrown operations included |
| CallHistory.AnswersAreExpected | apps/api/src/command-support.ts:42-121 | in every history of calls each call is answered from the calls before it: the first one of its business, kind and id that did not throw decides, a repetition by the same user and device with the same payload gets its result, any other is refused |
| CallHistory.EffectsAreFirstRuns | apps/api/src/command-support.ts:42-121 | the committed operations of a history are exactly those first calls, in order |
| Outbox.ClaimTakesOldest | packages/local-db/src/sync-store.ts:422-481 | a claim takes at most limit distinct claimable rows, oldest first, and leaves one behind only when older ones used up the limit |
| Outbox.ClaimInFields | packages/local-db/src/sync-store.ts:439-481 | in the row's own fields: never claimed is a row under an unexpired lease, in backoff, settled or of another business; a PENDING, due or expired one is, unless older ones used up the limit; a claimed row is SENDING under the caller's lease with one more attempt |
| Outbox.ClaimIsStable | packages/local-db/src/sync-store.ts:439-481 | claimed rows of the same age keep their table order |
| Outbox.SettleCommitsIffHeld | packages/local-db/src/sync-store.ts:515-531 | a settlement batch commits if and only if its caller still holds every row it names |
| Outbox.SettleFrame | packages/local-db/src/sync-store.ts:515-554 | settling touches only the caller's own SENDING rows and keeps every command |
| Outbox.SettledAsTold | packages/local-db/src/sync-store.ts:515-554 | after a committed batch a row is ACCEPTED if and only if its disposition accepts, REQUIRES_REVIEW or FAILED_RETRYABLE with the given next attempt likewise, without a lease and with the settlement's error; rows not named are unchanged |
| Outbox.DiscardIffAllAccepted | apps/pos/src/runtime/recovery.ts:45-47 | the credential may be discarded if and only if every row of the business is ACCEPTED |
| Outbox.PosSyncStore.ClaimOutboxBatch | packages/local-db/src/sync-store.ts:422-481 | filter, stable sort, slice and put leave the rows and hand out the commands of the specified claim; invalid input changes nothing |
| Outbox.PosSyncStore.SettleOutboxBatch | packages/local-db/src/sync-store.ts:483-579 | when it succeeds, when it is invalid, and that every failure leaves all rows as they were |
| Outbox.PosSyncStore.AuthorizeRecoveryRetry | packages/local-db/src/sync-store.ts:376-420 | exactly the recoverable reviews are reopened, and their number is returned |
| Outbox.RecoveryReopens | packages/local-db/src/sync-store.ts:376-420 | exactly the REQUIRES_REVIEW rows of the business with a grant and one of the four authorization errors go back to PENDING, without error, lease and backoff |
| Outbox.RecoveryCount | packages/local-db/src/sync-store.ts:376-420 | the number returned is the number of those rows |
| Outbox.PosSyncStore.GetOutboxSummary | packages/local-db/src/sync-store.ts:330-370 | the four counts and their sum over the rows of one business |
| Outbox.SummaryInFields | packages/local-db/src/sync-store.ts:330-370 | each count is the number of rows of the business in that status, and unresolved is their sum |
| Delivery.StepKeeps | packages/sync-client/src/orchestrator.ts:172-281 | every step of holders, network and server transactions keeps the system invariant and every ACCEPTED row |
| Delivery.ExactlyOnce | apps/api/src/sync.ts:216-266 | in every state of every run no key has two committed operations, every ACCEPTED row has a COMPLETED record with the hash of its own command, and no committed record is PROCESSING |
| Delivery.AcceptedIsAbsorbing | packages/local-db/src/sync-store.ts:422-579 | over every run an ACCEPTED row is never changed again |
| Delivery.RecordedPayloadIsSame | apps/api/src/command-support.ts:34-40 | a row's record was made by the same session and, up to object key order and __proto__ members, the same payload |
| Delivery.StaleSettlementChangesNothing | packages/local-db/src/sync-store.ts:515-531 | a holder of whom one row was re-leased changes no row of its whole batch |
| Progress.CanBeDelivered | packages/sync-client/src/orchestrator.ts:172-281 | from every state, a row that waits, whose lease can expire or whose review may be retried can reach ACCEPTED by steps that execute its command exactly once |
| Progress.NewCommandCanBeDelivered | packages/sync-client/src/orchestrator.ts:172-281 | so can every new command from its recording on |
| Progress.StuckForever | packages/local-db/src/sync-store.ts:376-481 | over every run a review that may not be retried never changes again |
| PushRun.OneSideOrProtocolError | packages/sync-client/src/orchestrator.ts:56-67 | a response settles a command if and only if exactly one of its sides names it |
| PushRun.AcceptedOnlyWhenNamed | packages/sync-client/src/orchestrator.ts:181-280 | a command is settled as accepted if and only if its context matches, the call returned, and the accepted side alone names it |
| PushRun.ResolveIff | packages/sync-client/src/orchestrator.ts:181-280 | the disposition in the words of the call: retryable if and only if the call failed retryably or the rejected side alone names the command with a retryable rejection first; accepted with review if and only if the accepted side alone names it so |
| PushRun.ErrorIff | packages/sync-client/src/orchestrator.ts:181-280 | the stored error: context mismatch, the call's code, a protocol error, or the code of the entry that decided |
| PushRun.SettlementsEnd | packages/sync-client/src/orchestrator.ts:172-281 | without a rival claim every claimed command is settled, and its row ends as its own call ended |
| PushRun.AcceptedDespiteRivals | packages/sync-client/src/orchestrator.ts:172-281 | whatever other holders claim in between, a completed run leaves every command named on the accepted side alone ACCEPTED |
| PushRun.ResolveCommand | apps/pos/src/runtime/sync-store-adapter.ts:508-528 | the rows after a settlement that another holder's claim may precede; a lost lease leaves that claim's rows |
| PushRun.PushPending | packages/sync-client/src/orchestrator.ts:172-281 | a completed run settled every claimed command with its own resolution, its four counts tally those resolutions and add up to the claims, accepted commands end ACCEPTED, and no ACCEPTED row changed; without rivals it completes for every valid input and each row ends as its call ended |
| PushRun.DrainRecoveryOutbox | apps/pos/src/runtime/recovery.ts:13-43 | it is a chain of push runs that ends only at the batch limit, with every row of the business ACCEPTED, or after a run that claimed nothing or had a failure or a review; the totals are their sums, the summary is the store's, and permission to discard means every row of the business is ACCEPTED |
| PushBridge.PushIsPath | apps/api/src/sync.ts:216-266 | the server's push loop over a batch is a path of enabled delivery steps that ends with one reply per command |
| PushBridge.ServePush | apps/api/src/sync.ts:216-266 | the loop's table and its results, one per command, accepted if and only if executeIdempotent answered |
| PushBridge.PushIsHonest | packages/sync-client/src/http-gateway.ts:198-230 | the accepted side of a decoded response names a command of the batch only on an accepting reply to it |
| PushBridge.AnswerReaches | packages/sync-client/src/http-gateway.ts:198-230 | a command's decoded response names it on the accepted side if and only if its transaction answered, for review if and only if flagged, and is worth retrying if and only if it did not answer and the refusal is retryable |
| PushBridge.SettlementIsTold | packages/sync-client/src/orchestrator.ts:181-280 | what the orchestrator settles on an honest response is what the delivery system allows |
| PushBridge.EverySettlementIsAStep | packages/sync-client/src/orchestrator.ts:172-281 | every settlement a push run makes is an enabled delivery step with exactly its effect, whatever network and server did in between |
| PushBridge.PushRunStaysBacked | packages/sync-client/src/orchestrator.ts:172-281 | a whole push run over honest responses keeps every ACCEPTED row backed by a COMPLETED record of its own command |
| PushBridge.PushRunServed | apps/api/src/sync.ts:216-266 | the same with every call failed, lost or answered by the server's push loop in some state, and nothing assumed of the responses |
| ChangeFeed.PageIsRange | apps/api/src/sync.ts:295-376 | a page carries exactly the supported in-scope rows of the range its cursor advances over, in order |
| ChangeFeed.PageServes | apps/api/src/sync.ts:306-347 | in the rows' own fields: a page carries exactly the rows of its range of the business, without a location or of the location, that are events of three entities or projections of eight; the cursor stops at a row of the scope, and has_more says whether one is left |
| ChangeFeed.PageProgress | apps/api/src/sync.ts:305-323 | has_more means strict progress and shrinks the remaining rows by the limit; without it nothing in scope remains |
| ChangeFeed.PageCompleteIff | apps/api/src/sync.ts:306-321 | the page pull serves carries the feed's own supported rows of the range it advances over if and only if every one of them was visible to the request |
| ChangeFeed.LateRowIsSkipped | apps/api/src/sync.ts:306-321 | a row that becomes visible below a served cursor is in no later page |
| ChangeFeed.SequenceGapLosesRow | apps/api/src/sync.ts:306-323 | for any two rows committed out of sequence order the pulled cache lacks the earlier one and draining on never brings it |
| ChangeFeed.PageIsApplied | packages/local-db/src/sync-store.ts:851-1005 | every page of an ordered snapshot passes all checks of the store |
| ChangeFeed.AppliedIff | packages/local-db/src/sync-store.ts:851-918 | a page is applied if and only if it starts at the device's cursor, does not move it back, repeats no sequence and holds only rows of the business inside its range |
| ChangeFeed.LastWriteWins | packages/local-db/src/sync-store.ts:919-988 | the cache holds for every projection the payload of the last row of its entity and id, and for every event that of its sequence |
| ChangeFeed.UnwrittenStays | packages/local-db/src/sync-store.ts:919-988 | a key that no applied row writes keeps its value |
| ChangeFeed.PageAdvances | packages/local-db/src/sync-store.ts:899-1002 | one page takes a cache that is the feed's at a cursor to the feed's at the page's cursor |
| ChangeFeed.PosReplica.ApplyProjectionPage | packages/local-db/src/sync-store.ts:851-1005 | all of a page together with its cursor, or nothing |
| ChangeFeed.PosReplica.PullAvailable | packages/sync-client/src/orchestrator.ts:298-369 | whatever the limit, the failures and the growth of the feed, the cache is the feed's at its cursor, the cursor never moves back, and the acknowledgement, which may fail, never passes it; it fails only on a failed request, stops with more to come only at the page limit, and counts the changes it applied |
| ChangeFeed.PosReplica.Acknowledge | apps/api/src/sync.ts:391-411 | an acknowledgement beyond the server's last sequence is refused and none moves back |
| ChangeFeed.DrainReaches | packages/sync-client/src/orchestrator.ts:305-358 | draining ends with nothing in scope above the cursor and with every visible row applied once, in order |
| ChangeFeed.LimitDoesNotMatter | apps/api/src/sync.ts:305-323 | every page limit leads to the same cache and the same cursor |
| StockReplica.RunKeeps | apps/api/src/inventory.ts:123-174 | over every run of movements and other feed rows each stock projection holds the sum of the deltas up to it and the journal only grows |
| StockReplica.CacheFollows | packages/local-db/src/sync-store.ts:899-968 | replaying a range takes any cache from the server's balances at its lower end to those at its upper end |
| StockReplica.BootstrapThenPull | apps/api/src/sync.ts:508-520 | bootstrapping at any moment of a run and pulling to any later cursor leaves every balance of the location equal to the server's at that cursor |
| StockReplica.BootstrapKeeps | packages/local-db/src/sync-store.ts:723-850 | the stock part of a bootstrap leaves exactly the balances that came and touches nothing else |
| StockReplica.CursorIsOwn | apps/api/src/sync.ts:516-520 | the bootstrap cursor is the greatest sequence among the business's own rows |
| StockReplica.CaughtUp | apps/api/src/sync.ts:508-520 | at the end of the feed that is the balance table itself |
| StockReplica.BootstrapAndPull | packages/sync-client/src/orchestrator.ts:298-369 | bootstrap and then the pull loop leave every stock balance of the location at the server's value for the final cursor, and at the balance table itself when the whole feed was seen |
| Inventory.RunKeeps | apps/api/src/inventory.ts:347-391 | over every run of sales, receipts, adjustments, restocks and opname commands each balance is the sum of its deltas and each stored count is the ledger at its watermark |
| Inventory.CountAllKeeps | apps/api/src/inventory.ts:574-622 | counting stores the ledger's sum, its watermark and the variance, and keeps the session's other rows sound |
| Inventory.PostLeavesPhysical | apps/api/src/inventory.ts:757-836 | posting leaves every counted product at its physical quantity plus all deltas recorded after its count, whatever was interleaved |
| Inventory.InventoryTables.RecordMovement | apps/api/src/sales.ts:1184-1236 | the ledger row, the balance upsert and the recount trigger of one movement |
| Inventory.InventoryTables.RecordMovements | apps/api/src/inventory.ts:322-391 | the item loop equals recording the movements one after the other |
| Inventory.InventoryTables.PostOpname | apps/api/src/inventory.ts:728-868 | the posting loop writes exactly the non-zero variances and closes the session; every refusal changes nothing |
| OpnameLaws.CountIff | apps/api/src/inventory.ts:556-669 | a count is accepted if and only if it names its session and version, the session is not POSTED and has every product; it stores the given quantity against the current balance at the product's last ledger position, and only an explicit recount clears a mark |
| OpnameLaws.ReviewIff | apps/api/src/inventory.ts:671-726 | a review is accepted if and only if the session is COUNTING and every item is counted; only status and version change |
| OpnameLaws.CreateIff | apps/api/src/inventory.ts:446-538 | a new session is a DRAFT at version 1 with its products uncounted and unmarked |
| OpnameLaws.PostIff | apps/api/src/inventory.ts:728-868 | a post is accepted if and only if the session is in REVIEW with every item counted and none marked; each movement it appends settles one non-zero variance, and every product's ledger moves by its own variance |
| OpnameLaws.MovementMarks | database/migrations/000024_harden_costing_and_opname_authority.sql:103-128 | a movement marks exactly the uncounted items of its product in COUNTING sessions of its location |
| OpnameLaws.MarkedNeverPosts | apps/api/src/inventory.ts:754-756 | over every run a session with a marked item is not posted before an explicit recount of its product |
| NegativeStock.TailIsWindow | apps/api/src/purchasing.ts:530-548 | the backward pass used in the proofs is the window expression of every row |
| NegativeStock.FifoIsTail | apps/api/src/purchasing.ts:506-549 | the tail over all deepening movements is a first-in first-out queue, and it sums to the deficit |
| NegativeStock.QueryIsFifoIff | apps/api/src/purchasing.ts:506-562 | the query reports the queue's sale entries if and only if nothing of the open deficit comes from another kind of movement, or every negative sale is still entirely open |
| NegativeStock.QueryIsFifo | apps/api/src/purchasing.ts:506-562 | while only sales deepen the deficit the query is the queue and its open quantities sum to the deficit |
| NegativeStock.AllocateOldestFirst | apps/api/src/purchasing.ts:566-570 | a sale is served only after every older open sale is served in full |
| NegativeStock.RecordReplacements | apps/api/src/purchasing.ts:500-628 | what the loop gives to each open sale and exactly when it warns |
| NegativeStock.RecomputeIff | apps/api/src/purchasing.ts:500-628 | recomputing after a receipt gives the old open quantities minus the allocations if and only if sales account for the deficit, or there is no negative sale, or the receipt closes it |
| NegativeStock.NeverOverReplaced | apps/api/src/purchasing.ts:500-628 | over every run in exact quantities in which only sales deepen the deficit, what was replaced of a sale plus what is open of it never exceeds the part that went below zero; the exact condition without that hypothesis is AccountedIffMeets |
| NegativeStock.PostAccountedIff | apps/api/src/purchasing.ts:506-562 | a movement keeps replaced plus open within every negative part if and only if it is a sale, or the deeper deficit re-opens nothing already replaced |
| NegativeStock.FillingMeets | apps/api/src/purchasing.ts:506-562 | a movement that does not deepen the deficit always meets it |
| NegativeStock.ReceiveAccountedIff | apps/api/src/purchasing.ts:500-628 | a receipt keeps it if and only if negative sales account for the deficit, or there is none, or the receipt closes the deficit |
| NegativeStock.AccountedIffMeets | apps/api/src/purchasing.ts:500-628 | over every run, all its prefixes keep replaced plus open within every negative part if and only if every event meets the condition that ledger and replacement rows decide before it |
| NegativeStock.AccountedIffReceiptsSafe | apps/api/src/purchasing.ts:566-624 | a state is accounted for if and only if no receipt of any size can replace a sale beyond the part that went below zero |
| NegativeStock.SafeIffMeets | apps/api/src/purchasing.ts:500-628 | over every run, no receipt at any moment can replace a sale beyond the part that went below zero if and only if every event meets its condition |
| StoredStock.StoredAllocation | database/migrations/000024_harden_costing_and_opname_authority.sql:58-66 | rounding every share to its column is allocating the rounded receipt |
| StoredStock.SourceIsStoredRun | apps/api/src/purchasing.ts:856-900 | allocating from unrounded receipts, storing rounded rows and aborting receipts with a zero share is the exact run over the accepted receipts rounded to scale 6 |
| StoredStock.StoredNeverOverReplaced | apps/api/src/purchasing.ts:856-900 | the bound on replacements over every run of unrounded receipts and stored rows in which only sales deepen the deficit; the exact condition is StoredAccountedIffMeets |
| StoredStock.StoredAccountedIffMeets | apps/api/src/purchasing.ts:856-900 | over every run of unrounded receipts and stored rows, all prefixes are accounted for if and only if every event is aborted or meets its condition, read with the stored quantity |
| StoredStock.RefusedIff | database/migrations/000024_harden_costing_and_opname_authority.sql:66-70 | a receipt is refused for a share stored as zero if and only if it does not serve every open sale, its base quantity rounds down, and the rounded quantity is a sum over the oldest open sales |
| StoredStock.FreeMillionthRefused | database/migrations/000024_harden_costing_and_opname_authority.sql:66-70 | one accepted unit and a free millionth at conversion 0.4 against open sales of 0.4 and 1 give such a share |
| StoredStock.StoredRecomputeIff | apps/api/src/purchasing.ts:500-628 | the exact condition of recomputation read with the stored receipt and the stored replacements |
| StoredStock.StoredSum | apps/api/src/purchasing.ts:566-624 | an accepted receipt stores as replaced min(rounded receipt, what the query holds open) |
| NegativeStock.ReceiptReplacesExactly | apps/api/src/purchasing.ts:503-505 | one receipt allocates exactly min(receipt, deficit) |
| NegativeStock.AdjustmentReopensSale | apps/api/src/purchasing.ts:527-552 | without that hypothesis it fails: an adjustment below zero lets a sale of 5 be replaced 8 |
| NegativeStock.AdjustmentBeforeSale | apps/api/src/purchasing.ts:527-552 | it fails with the adjustment before the sale too, although the query reports the queue's sale entries at both receipts |
| Costing.ProvisionalCostIsCost | apps/api/src/purchasing.ts:452-488 | whichever terms produce it, a provisional cost is non-negative and on scale 8 |
| Costing.TermsDecide | apps/api/src/purchasing.ts:458-464 | an invoice price shuts out the agreed terms and the fallback, without it the agreed terms stand in its place, without both the fallback does |
| Costing.InvoicedCost | apps/api/src/purchasing.ts:465-488 | no cost exactly without units, refused exactly when price times accepted less the discount's share is negative, otherwise that worth spread over all base units within half of 10^-8 each |
| Costing.AverageKeepsValue | apps/api/src/purchasing.ts:680-692 | an averaging step keeps stock value within half of 10^-8 per unit held |
| Costing.AverageWithoutStock | apps/api/src/purchasing.ts:680-692 | a receipt that takes stock from at or below zero to above it sets the average to its own cost, one that leaves it there keeps a known cost |
| Costing.QuantityIsSum | apps/api/src/purchasing.ts:856-900 | over every run the balance is the sum of the quantities and deltas its column stored |
| Costing.ArrivalKeepsValue | apps/api/src/returns.ts:722-736 | a receipt or restock into positive stock of known cost leaves the value held plus the value that came, within half of 10^-8 per unit |
| Costing.ArrivalSetsCost | apps/api/src/returns.ts:722-736 | without such stock it sets the average to its own cost, except a receipt that leaves stock at or below zero |
| Costing.EngineAverageIsExact | apps/api/src/returns.ts:722-736 | keeping every operation to 80 digits stores exactly the rounded average, on receipt and on restock, also for quantities no column has rounded |
| Costing.AverageStaysInRange | apps/api/src/returns.ts:722-736 | between purchase postings the average stays in every range on scale 8 that holds its start and the costs since |
| Costing.AverageNeverNegative | apps/api/src/purchasing.ts:1587-1601 | over every run, purchase postings included, the average is never negative |
| Costing.CorrectionsTelescope | apps/api/src/purchasing.ts:1517-1541 | original cost plus provisional plus final correction misses landed cost times stored quantity by two roundings and the drift (provisional - original) times (allocated - stored), in all four cases of missing costs |
| Costing.TelescopesIffOnScale | apps/api/src/purchasing.ts:583-592 | the telescoping within 10^-8 holds for all costs if and only if the allocation is on scale 6 |
| Costing.ReceiptTelescopesIff | apps/api/src/purchasing.ts:831-834 | it holds for all replacements of a receipt if and only if (accepted + free) times conversion is on scale 6 or covers all open sales |
| Costing.FreeThirdMisses | apps/api/src/purchasing.ts:566-624 | one unit and a free third at a conversion of one half miss the landed value by 0.0075 |
| Costing.PostReplacements | apps/api/src/purchasing.ts:1516-1564 | the corrections written for each replacement and the share of the value difference that goes to COGS |
| Costing.PostLineIff | apps/api/src/purchasing.ts:1566-1601 | exactly when a line's posting is refused, and that what COGS does not take is spread over the stock held |
| Costing.PostingMovesAverage | apps/api/src/purchasing.ts:1566-1601 | a posting moves the average by what COGS does not take, spread over the stock held, and changes nothing when refused |
| PurchasePosting.PurchaseConserves | apps/api/src/purchasing.ts:1415-1601 | per purchase the recorded COGS of every replaced sale plus the inventory left on every line is the captured grand total within 0.00005, half of 10^-8 per line, 10^-8 per replacement and the drift |
| PurchasePosting.LineConserves | apps/api/src/purchasing.ts:1415-1575 | per line they sum to the landed value within one rounding, 10^-8 per replacement and the drift |
| PurchasePosting.ProvisionalValueIs | apps/api/src/purchasing.ts:1382-1386 | the receipts' value is their quantities at their provisional costs within one rounding each, and nothing without a cost |
| PurchasePosting.LandedUnitIs | apps/api/src/purchasing.ts:1429-1429 | the landed unit cost spreads the line's landed value over everything received |
| PurchasePosting.BasisIsOfReceipts | apps/api/src/purchasing.ts:1569-1575 | the basis a posting checks is that of the line's receipts and what they gave to open sales, so Costing.BasisNonNegativeIff decides its sign |
| PurchasePosting.NoDrift | apps/api/src/purchasing.ts:566-624 | there is no drift when every replacement is on scale 6 |
| PurchasePosting.PostPurchase | apps/api/src/purchasing.ts:1399-1601 | exactly when the line loop posts, and that its inventory deltas are those of invoice, receipts and replacements |
| Costing.BasisNonNegativeIff | apps/api/src/purchasing.ts:1569-1575 | the quantity basis is non-negative if and only if the receipts' roundings gained no more than their stored quantities left over; it is at least -n times 0.0000005, and non-negative when all receipts are on scale 6 |
| Costing.OneReceiptBasis | apps/api/src/purchasing.ts:1569-1575 | for one receipt it is negative if and only if the receipt rounds up and meets more open sales than arrived |
| Costing.BasisRefusedIff | database/migrations/000022_harden_operational_domain_integrity.sql:86-91 | the check refuses a basis if and only if it is at most -0.0000005 |
| Costing.FreeThirdBlocksPosting | apps/api/src/purchasing.ts:1384-1384 | the same receipt against a deficit of one leaves a basis the table refuses, so the purchase cannot be posted |
| Landed.CapturedTotals | apps/api/src/purchasing.ts:1071-1124 | in a captured invoice only the subtotal carries a rounding |
| Landed.CapturedIff | apps/api/src/purchasing.ts:1071-1124 | an invoice is captured if and only if its totals are those of its lines and charges, only the subtotal rounded, and no discount exceeds what it is taken from |
| Landed.LandedIsProportional | apps/api/src/purchasing.ts:1415-1429 | a line's landed value is its tax and its net value's part of everything else the invoice charges |
| Landed.LandedSumsToGrandTotal | apps/api/src/purchasing.ts:1404-1429 | the landed values of all lines sum to the captured grand total within 0.00005 |
| Landed.LineNegativeIff | apps/api/src/purchasing.ts:1415-1429 | exactly when posting refuses a line as negative |
| Landed.LinesNonNegative | apps/api/src/purchasing.ts:1415-1429 | no line is negative when the global discount does not exceed the unrounded net value |
| Landed.RoundedSubtotalAdmitsNegativeLine | apps/api/src/purchasing.ts:1071-1124 | capture compares with the rounded subtotal, so it admits an invoice whose posting is refused |
| ReturnSplit.SplitHolds | apps/api/src/returns.ts:588-622 | after any sequence of returns no more is returned than sold, k partial returns are within k times 0.00005 of the exact share, and a completed line has refunded exactly its total |
| ReturnSplit.ReturnStores | apps/api/src/returns.ts:588-622 | a return beyond the sold quantity changes nothing, a partial one is stored at its price rounded to four decimals, the completing one at what is left unless the earlier shares exceed the total |
| ReturnSplit.EngineIsExact | apps/api/src/returns.ts:603-622 | every operation of the split at 80 digits gives the exactly rounded share in every reachable history |
| ReturnSplit.CompletingNegativeIff | apps/api/src/returns.ts:614-616 | the completing share is negative if and only if the partial shares already exceed the line total |
| ReturnSplit.CompletingAccepted | apps/api/src/returns.ts:614-616 | the completing return is stored whenever what is left is worth the roundings so far |
| ReturnSplit.LastHalfIsRefused | database/migrations/000022_harden_operational_domain_integrity.sql:296-305 | two units at 0.0001 returned by halves: the shares exceed the total and the last half is refused |
| ReturnSplit.NeverCompletes | apps/api/src/returns.ts:603-622 | once the shares exceed the line total no sequence of requests ever completes the line |
| ReturnSplit.CalculateHistoricalReturnAmount | apps/pos/src/returns/return-calculation.ts:22-41 | when it throws, in the fields of its lines, and that it returns the sum of the previewed lines |
| ReturnSplit.PreviewMatchesServer | apps/pos/src/returns/return-calculation.ts:37-38 | the POS amount equals the server's on every non-completing return and differs by at most (k+1) times 0.00005 on the completing one |
| Refunds.RunKeeps | apps/api/src/returns.ts:1361-1433 | over every interleaving of complete-return, retry, resolve and reverse, active refunds never exceed their payment nor their return, versions count lifecycle events and recorded cash follows the status |
| Refunds.NetCashFollowsStatus | apps/api/src/returns.ts:1508-1569 | a cash refund's net recorded cash is its amount while COMPLETED and zero otherwise, and its version is one plus its events |
| Refunds.ReversedIsTerminal | apps/api/src/returns.ts:1849-1929 | a REVERSED refund is never changed again |
| Refunds.RowAfter | apps/api/src/returns.ts:1354-1359 | a command leaves a refund alone or raises its version by exactly one |
| Refunds.CashConflictsUnreachable | apps/api/src/returns.ts:1520-1539 | the two cash-effect conflicts cannot be answered in any reachable state |
| Refunds.TotalUpdate | apps/api/src/returns.ts:1394-1409 | the capacity query that leaves out one id is what moving that refund adds to |
| Refunds.RefundTables.CompleteReturn | apps/api/src/returns.ts:908-1007 | the refund part of the command: its answer, the new rows and the kept invariant |
| Refunds.RefundTables.AssertRefundCapacity | apps/api/src/returns.ts:1361-1433 | the capacity of payment and return for re-activating one refund, with the refund's own amount left out of the sums |
| Refunds.RefundTables.RetryRefund | apps/api/src/returns.ts:1678-1732 | every refusal of a retry in order, the new rows and the kept invariant |
| Refunds.RefundTables.ResolveRefund | apps/api/src/returns.ts:1734-1847 | every refusal of a resolution in order, its cash movement, the new rows and the kept invariant |
| Refunds.RefundTables.ReverseRefund | apps/api/src/returns.ts:1849-1929 | every refusal of a reversal in order, its cash movement, the new rows and the kept invariant |
| RefundLaws.RetryIff | apps/api/src/returns.ts:1678-1732 | a retry moves a refund to PENDING if and only if it names its version, the refund is FAILED or REQUIRES_ACTION, its payment is completed, and payment and return have room beside all other waiting, completed and pending refunds; otherwise nothing changes |
| RefundLaws.ResolveIff | apps/api/src/returns.ts:1734-1847 | the same for a resolution, with its status, the shift it needs and the one cash movement of a completed cash refund |
| RefundLaws.ReverseIff | apps/api/src/returns.ts:1849-1929 | the same for a reversal, which only a COMPLETED refund allows, with its cash movement |
| RefundLaws.CompleteIff | apps/api/src/returns.ts:908-1007 | exactly when a return's refund is written; a cash refund starts COMPLETED with its cash movement, any other PENDING without one |
| CashShift.ShiftRuns | apps/api/src/cash.ts:489-573 | over every run of a shift the snapshot plus all late deltas is the signed sum of the movements less twice the reversed amount |
| CashShift.BelievedIffNoReversal | apps/api/src/returns.ts:1555-1557 | the server's belief equals the signed sum if and only if no reversal has an amount |
| CashShift.ReversalMisleads | apps/api/src/cash.ts:489-517 | a refund of any amount, its reversal and the close leave the server short by twice that amount |
| CashShift.BucketsAreSigned | apps/api/src/cash.ts:489-517 | the bucketed sum of the closing query misses the signed sum by exactly twice the reversals |
| CashShift.ClosingStores | apps/api/src/cash.ts:442-573 | an open shift is closed once, with the sums of its movements by kind, the expected cash they give, and the variance and its type against the counted cash |
| CashShift.CommandStores | apps/api/src/cash.ts:349-406 | which movement each other command writes, when the shift's window admits it, and its late amount after the closing |
| CashShift.ShiftTables.Record | apps/api/src/cash.ts:349-406 | a sale, a manual entry, a refund or a reversal, its window check and its late reconciliation |
| CashShift.ShiftTables.Close | apps/api/src/cash.ts:442-573 | the snapshot and the state after closing |
| CashShift.CalculateClosingPreview | packages/local-db/src/cash-manager.ts:125-148 | the preview is the signed sum from the right starting cash, with its variance |
| CashShift.PreviewMatchesServer | packages/local-db/src/cash-manager.ts:125-148 | with all movements delivered and no reversal the preview equals the server's bucketed sum, in whatever order either holds them |
| SaleMath.CompleteSale | packages/local-db/src/sales-manager.ts:392-591 | exactly when the POS commits a cart, and the aggregate it then writes |
| SaleLaws.LineAcceptedIff | packages/local-db/src/sales-manager.ts:392-522 | a cart line passes if and only if its numbers fit their columns, its price is the tier price less the promotion, its total is price times quantity, and tier and promotion agree with it |
| SaleLaws.SaleRecordsCart | packages/local-db/src/sales-manager.ts:691-834 | what the committed aggregate records of every line and of its one payment |
| SaleMath.PosSalePassesMath | apps/api/src/sales.ts:314-334 | every committed sale passes the server's line reader and aggregate arithmetic |
| SaleMath.ServerAcceptsIffSubtotalFits | apps/api/src/sales.ts:490-582 | the server accepts a committed sale if and only if its subtotal fits NUMERIC(20,4), which the POS never checks |
| SaleMath.SaleConserves | packages/local-db/src/sales-manager.ts:691-834 | subtotal less promotions equals grand total equals payment equals cash movement, and stock moves by the base quantities of exactly the tracked lines |
| SaleMath.RefusedForever | packages/local-db/src/sales-manager.ts:524-550 | a cart the POS commits and the server can never accept |
| SaleMath.AssertAggregateMath | apps/api/src/sales.ts:490-582 | the two loops accept exactly the sales whose lines, totals and payments agree |
| SaleLaws.AggregateIff | apps/api/src/sales.ts:490-582 | the aggregate check accepts exactly the sales whose lines, six totals and payments add up, taxed and discounted ones included |
| SaleLaws.AcceptedSaleConserves | apps/api/src/sales.ts:490-582 | in every accepted sale gross less all discounts plus the tax on top is what was paid, and tendered is paid plus change |
| SaleLaws.ItemReadIff | apps/api/src/sales.ts:314-334 | which items the reader accepts, field by field |
| PriceTimeline.AcceptedIff | apps/api/src/pricing.ts:438-457 | an approval is accepted if and only if it is the first, or starts after the last version and that one is not scheduled |
| PriceTimeline.ApprovalWrites | apps/api/src/pricing.ts:420-538 | an accepted approval appends an open version that is ACTIVE if and only if it starts by now, ends the version that was ACTIVE there, and supersedes it if and only if it starts by now; all other versions stay |
| PriceTimeline.PromptApprovals | apps/api/src/pricing.ts:420-538 | approvals that each start by their own clock and after the one before are all accepted, each in force until the next |
| PriceTimeline.ChainHolds | apps/api/src/pricing.ts:420-538 | any approvals under one clock keep a contiguous chain of half-open intervals with strictly increasing starts, only the last open |
| PriceTimeline.ExactlyOneInForce | apps/api/src/pricing.ts:420-538 | every instant from the first start on has exactly one version in force, none before it |
| PriceTimeline.ScheduledIsFinal | apps/api/src/pricing.ts:447-457 | once a SCHEDULED version exists no later approval is ever accepted |
| PriceTimeline.ScheduledThenRefused | apps/api/src/pricing.ts:420-457 | a first approval in the future is stored SCHEDULED, and a later approval is refused even after its start has passed |
| PriceTimeline.PosFindsVersionInForce | packages/local-db/src/pricing-cache.ts:185-211 | at every time the POS may resolve, the lookup returns the version in force if and only if it is not superseded, and from the last approval on it never is |
| PriceTimeline.ProposalKeepsChains | apps/api/src/pricing.ts:425-592 | a proposal over several units keeps every unit's chain |
| PriceTimeline.ProposalIff | apps/api/src/pricing.ts:425-592 | a proposal over distinct units is approved if and only if each item is on its own, gives each unit what its item gives, and leaves all other units alone |
| PriceTimeline.PriceTables.ApprovePriceProposal | apps/api/src/pricing.ts:394-592 | all items of a proposal or none |

## Left out

- Ordered visibility: that feed rows become visible in sequence order is the hypothesis `OrderedVisibility` of `ChangeFeed.PosReplica.PullAvailable` and part of the run relation of StockReplica; no code enforces it.
- Only sales deepen a deficit: the hypothesis `OnlySalesDeepen` of the negative-stock results; the exact conditions without it are `AccountedIffMeets`, `QueryIsFifoIff` and `RecomputeIff`.
- One clock: price approvals use one time for the JavaScript clock and for CURRENT_TIMESTAMP, and it does not run backwards.
- SHA-256 and JSON.stringify: taken as injective, so a request hash is modelled by the canonical form itself together with its session.
- Costing.ProvisionalCostIsCost: exact arithmetic; the 80-digit guard of this one chain of quotients is not modelled.
- Costing.InvoicedCost: exact arithmetic likewise; the bound leaves out the guard's own rounding.
- PushRun.DrainRecoveryOutbox: the chain of pages it states is a ghost result, as the source returns only totals and summary.
- Landed.LandedSumsToGrandTotal: exact arithmetic, as the ratio of a line to the total is a quotient that the 80-digit guard rounds.
- SaleMath.PosSalePassesMath: running totals of a cart are exact sums; the guard could only round totals above 70 digits.
- Costing.PostReplacements: the provisional unit cost joined from the receipt's cost event is a parameter, as SQL divides it.
- SaleMath.CompleteSale: identity, price-version, tier-code and timestamp checks of a cart line, authorization and the idempotent local write only add refusals and are not modelled.
- Column rounding on insert: written out for replacement quantities, receipt movements and the quantity basis; all other amounts are on their column's scale before they are stored, and Inventory and StockReplica take deltas as the column holds them.
- Outbox.PosSyncStore.SettleOutboxBatch: the sync_status of transactions, shifts and audit events, set in the same transaction, is not modelled.
- PushBridge.PushIsPath: one batch is served without another transaction on the same keys in between; such interleavings are steps of Delivery.
- Refunds: external references and their advisory lock, location, permission and window checks only add refusals; payment methods do not change their cash flag.
- Refunds.RefundTables.CompleteReturn: the item loop, restocking and transaction checks of the command are in ReturnSplit and Inventory or left out; here the return total is given.
- Inventory: cost effects of adjustments and opname, unit checks and session numbers.
- ChangeFeed: price, promotion, product and authorization projections are opaque payloads; bootstrap is modelled for stock balances only, because it filters the other tables by status and time.
- PushRun: backoff is a parameter, the wire format and schema version are not modelled, and delivery order between dependent commands is not claimed, because a row in backoff is skipped.
- CashShift: FORCED_CLOSED and CLOSING shifts, transaction and refund counts of the snapshot, and overlapping calls of the POS cash manager.
- PriceTimeline: tiers, price-set status and version, and promotions.
- Authentication, permissions, HTTP routing, receipts, catalogue maintenance, search and the user interfaces.
