# Verified model of a multi-tenant point of sale

This project models the parts of the point of sale where money, stock and access are decided, and
proves what those parts promise over all inputs or over every run. `dafny verify dfyconfig.toml`
checks everything.

| file | what it models |
|---|---|
| `Common.dfy` | results, string order, sums and sorting shared by the rest |
| `Rounding.dfy`, `DecimalText.dfy` | banker's and statutory rounding; canonical decimal text to minor units and back |
| `Allocation.dfy`, `TaxMath.dfy`, `Cascade.dfy` | largest-remainder allocation, tax arithmetic, the priority cascade over many lines |
| `ProportionalShares.dfy`, `OrderTotals.dfy`, `Discounts.dfy` | spreading a discount over lines, order totals on discounted bases, replay of stored tax snapshots, discount stacking and override gate |
| `Collection.dfy` | concurrent payment collection and shift close under snapshot reads with "lock, then bump" |
| `PaymentLedger.dfy` | collect, void and refund on one order, with the payment journal |
| `Kds.dfy` | the kitchen display feed: cursor replay over sockets that break, with a polling fallback |
| `Lockout.dfy` | the manager-override challenge with its two counters |
| `Stock.dfy` | stock restoration by item voids and payment refunds |
| `TokenFamilies.dfy` | refresh-token rotation |
| `Catalog.dfy`, `CategoryEdits.dfy` | the category parent graph, the menu forest, and category edits that overlap |
| `PermissionCache.dfy` | the permission cache, its keys, and checks through it |

How to read it:

- Pure calculations are functions with lemmas about them. Loops are methods proved against a
  declarative predicate (`IsLargestRemainder`, `IsCascade`, `IsProportional`, `IsTotals`, `IsForest`, ...)
  that is shown to have one solution, so the predicate is an independent reference for the loop.
- What a figure means is also stated without the functions that compute it: rates over 10,000, locks of
  30 and 15 minutes, rows written per pair, or the run read off its actions alone (`Book` in
  `Collection.dfy`, `GrantsAfter` in `PermissionCache.dfy`, the ledger in `Lockout.dfy`).
- Objects whose fields the program updates are classes (`RealtimeClient`, `Subscription`,
  `Authenticator`, `StockLedger`, `RefreshTokenStore`, `CategoryTable`, `L1PermissionCache`,
  `PaymentsEngine`). Their methods are tied to step functions, and the theorems speak about every
  sequence of steps (`Exec`).
- The concurrent and distributed parts are step systems. In `Collection.dfy` a transaction reads the
  snapshot of its start; locking a row that changed since then ends it; writes appear at commit and
  bump the revision of every locked row; an inserted idempotency key makes others wait until its
  transaction ends; an abort may happen at any point. In `Kds.dfy` sockets, also replaced ones,
  deliver in order and may lose any suffix. In `CategoryEdits.dfy` an edit reads its row, checks the
  parents and writes the whole row back in separate steps.

What the proofs found:

- An actor can have at most 18 counted override failures in any 15-minute interval, and 18 is reached
  (`ThrottledInterval`, `BoundIsReached`).
- A permission outcome is served for less than the TTL plus the time between reading the grants and
  storing the outcome, because the read is awaited before the entry is stamped, and no smaller bound
  holds on every run (`FreshnessBoundIsExact`, `StaleRunIsStale`). The TTL alone is the bound wherever
  no grant of a scope changes while an outcome of that scope waits to be stored (`UndisturbedFillsKeepTtl`).
- `allocateProportionally` promises that the shares add up to the total. Over distinct lines of
  non-negative amounts this holds for every positive total that anything can be weighed by, and for a
  negative one exactly when every share comes out whole (`LinesAddUpExactlyWhen`): minus one over two
  equal lines gives each of them one (`NegativeTotalOvershoots`). `AddsUpExactlyWhen` gives the exact
  condition for arbitrary totals, weights and identifiers. Order totals only pass totals and lines for
  which it holds (`DiscountedBasesExact`).
- Two category edits that overlap can close a cycle, although each passes its check: any two
  categories, neither above the other, can be put under each other (`CrossedEditsCycle`), and both
  then vanish from the menu (`CrossedVanish`). The table stays acyclic exactly when every write would
  pass its check once more at that moment (`StaysAcyclicExactlyWhen`), in particular when no listed
  category moves between a check and its write (`UnovertakenStaysAcyclic`).
- A rotation writes the family its caller names. At the store this keeps the families sound exactly
  when that family is the token's own, or one without live tokens that belongs to no other user
  (`RotationSoundExactlyWhen`, `WrongFamilyBreaks`); the refresh engine passes the signed claim of the presented token, for which
  it always holds.
- A stopped display client stays stopped, also when it is started again, and opens, subscribes and
  asks no more (`StoppedForGood`); but frames and replies that were on their way, also those of sockets
  the server still feeds, are handed over after the stop (`DeliveredAfterStop`).

## Model

| member | source | states |
|---|---|---|
| Rounding.HalfToEvenIsNearest | src/shared/money.ts:371-387 | for every sign combination the division fails only on zero and otherwise returns a nearest integer, the even one on a tie |
| Rounding.NearestEvenUnique | src/shared/money.ts:371-387 | there is only one such integer |
| Rounding.HalfToEvenSymmetric | src/shared/money.ts:371-387 | negating one operand negates the result, negating both keeps it |
| Rounding.HalfToEvenScale | src/shared/money.ts:371-387 | a common positive factor does not change the rounding |
| Rounding.RoundTaxIsNearest | src/shared/tax-math.ts:21-29 | defined exactly on non-negative numerators and positive denominators, and then the one nearest integer with ties upward |
| DecimalText.PrintParseRoundTrip | src/shared/decimal-text.ts:71-103 | printing then parsing is the identity for every integer and scale 0 to 8 |
| DecimalText.ParseAtSmallerScale | src/shared/decimal-text.ts:71-103 | text parsed at a smaller scale gives the nearest value, ties to even |
| DecimalText.StoredRoundTrip | src/shared/decimal-text.ts:46-103 | the zero-padded text of a four-decimal column parses back to the amount stored |
| DecimalText.StoredTextIsWiderFormat | src/shared/decimal-text.ts:91-103 | the padded text is the same number printed at four decimals |
| DecimalText.PercentRoundTrip | src/shared/decimal-text.ts:111-128 | every non-negative percentage survives printing and parsing |
| DecimalText.ParsesToNearest | src/shared/decimal-text.ts:57-81 | any decimal text, however many decimals it has, parses at scales 0 to 8 to the nearest value, ties to even |
| DecimalText.ParsesSigned | src/shared/decimal-text.ts:83-89 | a leading minus negates the value of the rest |
| DecimalText.ParsesOnlyDecimals | src/shared/decimal-text.ts:57-89 | nothing parses but digits without a needless leading zero and, after a dot, at least one fraction digit |
| DecimalText.PercentExactlyWhen | src/shared/decimal-text.ts:111-128 | a percentage text with up to four decimals is read exactly, and one with more is refused |
| Conversion.ConversionIsNearest | src/shared/money.ts:453-467 | a conversion succeeds with a value exactly when the amount, both scales and the rate are valid and that value, in range, is the nearest to the exact product, ties to even |
| Conversion.RateExactlyWhen | src/shared/money.ts:400-425 | a rate is read exactly, and accepted exactly when it is positive with at most eight decimals |
| Allocation.LargestRemainderUnique | src/shared/tax-math.ts:48-74 | a largest-remainder allocation with the identifier tie-break is unique |
| Allocation.LargestRemainderPermutes | src/shared/tax-math.ts:48-74 | being one does not depend on the order of the portions |
| Allocation.RaiseAlong | src/shared/tax-math.ts:64-73 | raising the ranked portions one unit at a time gives the largest-remainder allocation of floors plus units |
| TaxMath.TaxAmountIsNearest | src/shared/tax-math.ts:31-42 | computed exactly for amounts up to the limit and rates up to 100%: an exclusive tax is amount times rate over 10,000, an inclusive one over 10,000 plus the rate, each rounded half-up; net plus the rate of it is the gross price up to that rounding |
| TaxMath.InvoiceTotalIsNearest | src/shared/tax-math.ts:48-74 | the shares of a group add up to the tax on the sum of its amounts, over 10,000 or 10,000 plus the rate, rounded half-up once |
| TaxMath.InvoiceSharesAreNear | src/shared/tax-math.ts:48-74 | each share is its exact tax cut off or one more, larger cut-off parts first and then smaller ids |
| TaxMath.AllocateInvoiceTax | src/shared/tax-math.ts:48-74 | fails exactly on an invalid rate, amount or repeated id; otherwise the shares sum to the half-up rounding of the exact group total, each floor or floor+1 by largest remainder |
| TaxMath.InvoiceLeftover | src/shared/tax-math.ts:55-73 | the remainder to hand out is non-negative and fits the shares with a positive remainder, so it is always exhausted and a zero remainder is never raised |
| TaxMath.InvoiceAllocationOrder | src/shared/tax-math.ts:48-74 | any order of the shares gives the same allocation |
| TaxMath.InvoiceShareBounds | src/shared/tax-math.ts:48-74 | no share is negative or above its amount |
| TaxMath.SingleShareAgrees | src/shared/tax-math.ts:31-74 | a group of one line gets the tax computed for that line alone |
| Cascade.CalculateCascadingTaxes | src/application/engines/tax/cascading.ts:31-109 | succeeds exactly when the plans are valid and a cascade in range exists, and then returns its rows |
| Cascade.SweepPriority | src/application/engines/tax/cascading.ts:56-107 | one priority extends the cascade by one priority or proves that there is none |
| Cascade.TaxGroup | src/application/engines/tax/cascading.ts:72-84 | the tax of a group under either strategy, and exactly when it fails |
| Cascade.CascadeUnique | src/application/engines/tax/cascading.ts:24-109 | the per-line definition, base plus exclusive tax of strictly lower priorities, has one solution, whatever the order of lines and taxes |
| Cascade.RowsInOrder | src/application/engines/tax/cascading.ts:24-109 | each line gets one row per tax, numbered 1..k in strict (priority, category) order, each on its own base |
| Cascade.RowsAreTaxed | src/application/engines/tax/cascading.ts:56-107 | each row is the tax of its own rate on the line amount plus the exclusive rows of lower priority: rounded half-up on its own, or its share of one rounding over all lines with that rate |
| Cascade.ValidPlansExactlyWhen | src/application/engines/tax/cascading.ts:31-55 | which batches are valid: distinct lines, amounts and tax counts in range, one tax per category with its own rate, excise below VAT |
| Cascade.PerLineIsolation | src/application/engines/orders/order-creation-engine.ts:286-293 | whenever a per-line batch succeeds, the rows of a line are those of the line computed alone |
| Cascade.IsolatedSucceeds | src/application/engines/orders/order-creation-engine.ts:286-293 | a line of a successful per-line batch also succeeds alone |
| ProportionalShares.AllocateProportionally | src/application/engines/payments/order-totals.ts:46-70 | for any total and weights the loops compute the truncating allocation; a non-negative total over distinct non-negative weights is spread by largest remainder |
| ProportionalShares.ProportionalIsLargestRemainder | src/application/engines/payments/order-totals.ts:46-70 | the truncating computation obeys the largest-remainder rule on non-negative totals and distinct non-negative weights |
| ProportionalShares.AddsUpExactlyWhen | src/application/engines/payments/order-totals.ts:45-70 | for every input, exactly when the shares add up to the total |
| ProportionalShares.LinesAddUpExactlyWhen | src/application/engines/payments/order-totals.ts:45-70 | over distinct non-negative weights they do exactly for zero, for a positive total with something to weigh by, and for a negative one whose shares are all whole |
| ProportionalShares.NegativeTotalOvershoots | src/application/engines/payments/order-totals.ts:63-68 | a negative total for which they do not |
| ProportionalShares.RepeatedLineLosesShare | src/application/engines/payments/order-totals.ts:54-61 | a repeated identifier for which they do not |
| ProportionalShares.ProportionalExact | src/application/engines/payments/order-totals.ts:46-70 | the shares sum exactly to the discount and no line gets more than its amount |
| OrderTotals.DiscountedBasesExact | src/application/engines/payments/order-totals.ts:102-140 | every discounted base lies in [0, line amount] and the bases sum to the discounted subtotal |
| OrderTotals.ComputeOrderTotals | src/application/engines/payments/order-totals.ts:102-163 | for every snapshot: succeeds exactly when the discounts parse and the taxes on the discounted bases have a solution, and returns the totals |
| OrderTotals.TotalsSpelledOut | src/application/engines/payments/order-totals.ts:102-163 | every total from the lines and discounts alone: discounts up to the subtotal come off, and the tax is the sum of the exclusive taxes, each on its line's discounted amount |
| OrderTotals.TaxedOnDiscounted | src/application/engines/payments/order-totals.ts:124-140 | each stored tax of a line is computed on the line amount less its proportional share of the discount, plus the line's exclusive tax of lower priority |
| OrderTotals.TaxedAmountsAddUp | src/application/engines/payments/order-totals.ts:124-140 | when every line is taxed, the amounts given to the cascade add up to the discounted subtotal |
| OrderTotals.TotalNotBelowDiscounted | src/application/engines/payments/order-totals.ts:102-149 | the total is never below the discounted subtotal |
| OrderTotals.ReplayFindsCreation | src/application/engines/payments/order-totals.ts:72-100 | replaying stored snapshots under synthetic categories leaves every (line, rate) tax amount as it was at creation, under both strategies |
| OrderTotals.ReplayPreservesTotals | src/application/engines/payments/order-totals.ts:102-163 | with no discount and no voided line the totals exist and equal the amounts payable fixed at creation |
| Discounts.StageExactlyWhen | src/application/engines/payments/discount-math.ts:89-113 | exactly when a stage computes, and its figures: a percentage is the nearest part of the remainder, ties to even, and never more than there is comes off |
| Discounts.OverrideExactlyWhen | src/application/engines/payments/discount-math.ts:141-194 | exactly when a discount needs a manager, in exact arithmetic |
| Discounts.OverrideReasonIs | src/application/engines/payments/discount-math.ts:141-194 | and for which reason, without division |
| Discounts.UnapprovedDiscountIsBounded | src/application/engines/payments/discount-math.ts:89-194 | one that needs none leaves a positive remainder, respects the matching cap, and passes the other cap by at most half a unit of rounding |
| Discounts.ApplyDiscountStages | src/application/engines/payments/discount-math.ts:216-240 | each stage is computed on what the earlier ones left; fails exactly where a stage fails |
| Discounts.StackingConserves | src/application/engines/payments/discount-math.ts:216-240 | applied discounts and the remainder add up to the subtotal, and the remainder only shrinks within [0, subtotal] |
| Discounts.StackingReasons | src/application/engines/payments/discount-math.ts:216-240 | a stage that finds nothing left applies nothing and needs nobody; any other has the reason of its own request and caps |
| Settlement.SettleExactly | src/application/engines/payments/payments-engine.ts:212-273 | exactly which tenders a balance takes, and that net plus change is the tender |
| Collection.StepKeeps | src/application/engines/payments/payments-engine.ts:164-313 | every step of concurrent collects and closes keeps the invariant on snapshots, locks, balances, reports and keys |
| Collection.SnapshotIsCurrent | src/infrastructure/db/repositories/postgres-payments-store.ts:343-362 | under its locks a transaction's snapshot still gives the current balance, open shift and cash total |
| Collection.RunIsSerial | src/application/engines/payments/payments-engine.ts:164-313 | every interleaving amounts to its commits one after the other: the rows are the committed requests with their own order, method, tender, key, cash flag and cashier's shift, each paying what its tender can of the total less what the earlier ones paid |
| Collection.NoOverCollection | src/application/engines/payments/payments-engine.ts:164-313 | in no interleaving do the payments of an order exceed its total, counted by the rows or by the committed requests |
| Collection.ZReportExact | src/application/engines/shifts/shift-engine.ts:170-208 | every closed shift's recorded cash sales equal the net amounts of the cash requests committed on it, ever after |
| Collection.PaymentsCommitOnOpenShifts | src/application/engines/payments/payments-engine.ts:197-210 | only a commit of a collection appends a row: its call's order, method, tender, key and cash flag, net plus change equal to the tender, on the cashier's own shift, open at that moment; and the call answers it |
| Collection.CollectSucceedsExactlyWhen | src/application/engines/payments/payments-engine.ts:164-313 | left to itself a collection commits exactly when its order exists, the shift is the cashier's own and open, the key is free and the tender settles |
| Collection.CloseSucceeds | src/application/engines/shifts/shift-engine.ts:170-208 | left to itself a close of an existing shift ends with that shift closed and nothing else changed |
| Collection.OneOpenShiftPerCashier | src/application/engines/payments/payments-engine.ts:197-210 | in no interleaving has a cashier two open shifts |
| Collection.KeyIdentifiesOnePayment | src/application/engines/payments/payments-engine.ts:314-401 | one row per idempotency key; every call that succeeds with it returns that row, and its order, method, tender and, if named, change are the recorded ones |
| Collection.TakenKeyOnlyReplays | src/application/engines/payments/payments-engine.ts:164-401 | once a row carries a key, in every interleaving no step of any call with that key changes the database, and all such a call can answer is that row |
| Collection.RetryAnswers | src/application/engines/payments/payments-engine.ts:164-180 | left to itself a call under a taken key writes nothing and answers the recorded row exactly when order, method, tender and any named change match it |
| Collection.NoDeadlock | src/application/engines/shifts/shift-engine.ts:170-176 | with the one lock order, the wait for another's uncommitted key included, no chain of waiting transactions closes |
| PaymentLedger.CollectAcceptedExactlyWhen | src/application/engines/payments/payments-engine.ts:181-296 | exactly which collections succeed after any history |
| PaymentLedger.GrossExactlyWhen | src/application/engines/payments/payments-engine.ts:221-247 | a foreign tender is read at its own currency's scale and worth the nearest base amount to tender times rate; any other is read at the base scale |
| PaymentLedger.ChangeExactlyWhen | src/application/engines/payments/payments-engine.ts:439-528 | after any history a void or refund happens exactly for a completed payment on an open shift: that payment changes status, its net is due again, and one entry with the same accounts undoes its posting; a refused one changes nothing |
| PaymentLedger.NextStatusExactlyWhen | src/application/engines/payments/payments-engine.ts:583-602 | paid while covered, refunded when every payment is, open otherwise |
| PaymentLedger.CollectSplits | src/application/engines/payments/payments-engine.ts:212-306 | the stored net and change add up to the tender, 0 < net <= balance, and the balance falls by the net |
| PaymentLedger.CollectPosts | src/infrastructure/db/repositories/postgres-payments-store.ts:408-470 | a collection debits the one clearing account and credits the one revenue account by the net |
| PaymentLedger.BalanceAndStatus | src/application/engines/payments/payments-engine.ts:439-602 | over every run the balance stays in [0, total], paid means zero, refunded means payments exist and all are refunded |
| PaymentLedger.JournalMirrorsPayments | src/infrastructure/db/repositories/postgres-payments-store.ts:408-524 | each payment has one balanced posting and one line-swapped reversal exactly when it is voided or refunded |
| PaymentLedger.DebitsAreCompletedPayments | src/infrastructure/db/repositories/postgres-payments-store.ts:297-308 | the unreversed debits equal the completed net amounts re-read from stored text |
| PaymentLedger.PaymentsEngine.LoadCompleted | src/infrastructure/db/repositories/postgres-payments-store.ts:297-308 | the snapshot loop sums the completed payments |
| PaymentLedger.PaymentsEngine.RecordPayment | src/application/engines/payments/payments-engine.ts:181-306 | the ordered writes are the collect step, or nothing on a refusal |
| PaymentLedger.PaymentsEngine.ChangePayment | src/application/engines/payments/payments-engine.ts:439-528 | the ordered writes are the void or refund step, or nothing on a refusal |
| KdsFeed.DeliveredIsLogSlice | src/presentation/kds/kds-realtime-client.ts:154-260 | over every run the delivered events are the contiguous log slice after the first cursor, in order, without gap or duplicate |
| KdsFeed.TakenIsRest | src/presentation/kds/kds-realtime-client.ts:253-259 | of a contiguous frame starting at or before the cursor exactly the unseen rest is applied |
| KdsFeed.PumpsReachTheEnd | src/presentation/kds/kds-realtime-server.ts:462-500 | on every run without appends and without a drop of the socket, whatever else happens: once the socket was pumped often enough and its frames are delivered, the client has the whole log |
| KdsFeed.EnoughPumpsSuffice | src/presentation/kds/kds-realtime-server.ts:462-500 | from every state such a run exists: enough pumps, then the deliveries |
| KdsFeed.PollsReachTheEnd | src/presentation/kds/kds-realtime-client.ts:213-240 | the same for answered polls |
| KdsFeed.FallsBackToPolling | src/presentation/kds/kds-realtime-client.ts:198-211 | failing attempts end in polling after exactly the retries that are left |
| KdsFeed.RetriesBounded | src/presentation/kds/kds-realtime-client.ts:198-211 | the failure counter never passes the number of retries |
| KdsFeed.OpenRestoresRetries | src/presentation/kds/kds-realtime-client.ts:166-171 | after an open it takes the full number of failing attempts again to fall back to polling |
| KdsFeed.ClientReacts | src/presentation/kds/kds-realtime-client.ts:154-211 | only the current socket's opening and failure change the mode |
| KdsFeed.ResumesAtCursor | src/presentation/kds/kds-realtime-client.ts:154-185 | a new socket goes on where the client stopped: its first frame is the next events after the cursor, up to the limit |
| KdsFeed.StoppedForGood | src/presentation/kds/kds-realtime-client.ts:90-113 | over every run a stopped client stays stopped, and no socket, subscribe message or poll is added |
| KdsFeed.StopHalts | src/presentation/kds/kds-realtime-client.ts:96-113 | a stop halts the client and changes neither log, cursor, deliveries nor what is in flight |
| KdsFeed.DeliveredAfterStop | src/presentation/kds/kds-realtime-client.ts:90-113 | what is handed over after a stop was in flight at the stop, or lies ahead of a socket still served or a poll still unanswered |
| KdsFeed.RealtimeClient.HandleEvents | src/presentation/kds/kds-realtime-client.ts:242-259 | a frame is applied event by event, skipping what was seen |
| KdsFeed.RealtimeClient.OnFailure | src/presentation/kds/kds-realtime-client.ts:186-211 | a failure of the current socket backs off or switches to polling |
| KdsFeed.RealtimeClient.OnOpen | src/presentation/kds/kds-realtime-client.ts:166-171 | the subscribe message of the current socket carries the cursor |
| KdsFeed.Subscription.Pump | src/presentation/kds/kds-realtime-server.ts:481-500 | one bounded round sends the next events and moves the cursor behind them |
| Lockout.CountersBounded | src/infrastructure/db/repositories/postgres-manager-override-authenticator.ts:68-78 | the actor counter never passes 10 and the manager counter never passes 5 |
| Lockout.CountersAreLedgerCounts | src/infrastructure/db/repositories/postgres-manager-override-authenticator.ts:341-356 | each counter is the ledger's count: the actor's failures, and those against the manager since its last success, in the window they open; full windows are followed by the lock |
| Lockout.ExpiredLockRestarts | src/infrastructure/db/repositories/postgres-manager-override-authenticator.ts:228-265 | the first failure after a lock expires restarts the count at 1 |
| Lockout.DecisionExactlyWhen | src/infrastructure/db/repositories/postgres-manager-override-authenticator.ts:152-304 | authenticated exactly when neither row is locked, the manager is usable and the PIN matches; rate-limited exactly when a lock is active, with the actor's remaining time, else the manager's; and the ledger row of each answer |
| Lockout.DecisionFromLedger | src/infrastructure/db/repositories/postgres-manager-override-authenticator.ts:152-304 | over every run the answer follows from the ledger: refused for 30 minutes after the actor's tenth failure in a window, else for 15 after the fifth against the manager, else by the PIN |
| Lockout.NoEntryWhileLocked | src/infrastructure/db/repositories/postgres-manager-override-authenticator.ts:171-206 | whatever happens in between, every challenge of a locked actor or manager is refused until the lock ends |
| Lockout.EventNamesManagers | src/infrastructure/db/repositories/postgres-manager-override-authenticator.ts:268-295 | a security event is written exactly by the failure that fills the actor's window, with count 10 and the managers tried since the window opened |
| Lockout.OneEventPerLock | src/infrastructure/db/repositories/postgres-manager-override-authenticator.ts:253-295 | each actor lock writes one security event with count 10, and nothing else does |
| Lockout.ThrottledInterval | src/infrastructure/db/repositories/postgres-manager-override-authenticator.ts:152-304 | any half-open 15-minute interval holds at most 18 counted failures of an actor, whichever managers are targeted |
| Lockout.BoundIsReached | src/infrastructure/db/repositories/postgres-manager-override-authenticator.ts:152-304 | a run with 18 in one interval |
| Lockout.Authenticator.RunChallenge | src/infrastructure/db/repositories/postgres-manager-override-authenticator.ts:152-304 | the challenge transaction changes counters, ledger and events as the step function says |
| Stock.RestoredAtMostOnce | src/application/engines/orders/void-modification-engine.ts:263-312 | over every run a sold (line, component) is restored at most once; its net change is the deduction or zero, and zero exactly when the restoration exists |
| Stock.VoidSettles | src/application/engines/orders/void-modification-engine.ts:274-312 | voiding a line brings all it sold home unless the line was fired |
| Stock.VoidOrderSettles | src/application/engines/orders/void-modification-engine.ts:274-312 | voiding an order does so for every live line |
| Stock.VoidItemExactly | src/application/engines/orders/void-modification-engine.ts:227-312 | an item void marks exactly its line, voids the order exactly when no live line is left, and writes one row per pair sold and not yet brought home: the deduction back, or a zero waste for a fired line |
| Stock.VoidOrderExactly | src/application/engines/orders/void-modification-engine.ts:227-312 | an order void does so for all live lines and leaves the order voided |
| Stock.RefundSettles | src/application/engines/payments/payments-engine.ts:531-581 | a refund does so for every live line |
| Stock.RefundExactly | src/application/engines/payments/payments-engine.ts:531-581 | a refund writes movements only: one row per pair sold on a live line that neither a void nor an earlier refund dealt with |
| Stock.SaleDeducts | src/application/engines/orders/order-creation-engine.ts:335-355 | the recorded deduction of a pair is what the sale's recipes need of it |
| Stock.RepeatedRefundWritesNothing | src/application/engines/payments/payments-engine.ts:542-581 | once an order was refunded, any later refund of it changes nothing, whatever happened in between |
| Stock.UnsoldNeverMoves | src/application/engines/orders/void-modification-engine.ts:263-273 | what was never sold is never moved |
| Stock.LoadSaleDeductions | src/infrastructure/db/repositories/postgres-payments-store.ts:660-675 | the grouped deductions: each sold pair of the lines once, with its sum |
| Stock.StockLedger.WriteMovements | src/application/engines/payments/payments-engine.ts:559-580 | the movement loop writes one row per deduction that is not skipped |
| Stock.StockLedger.VoidOrderItem | src/application/engines/orders/void-modification-engine.ts:70-84 | accepted exactly for a live line of an open order, and then the void step |
| Stock.StockLedger.VoidWholeOrder | src/application/engines/orders/void-modification-engine.ts:86-103 | accepted exactly for an open order with live lines, and then the void step |
| Stock.StockLedger.VoidWithinOrder | src/application/engines/orders/void-modification-engine.ts:227-258 | marks the lines, closes the order when none is left, then restores or wastes |
| Stock.StockLedger.WriteRefundStockMovements | src/application/engines/payments/payments-engine.ts:542-581 | the refund step on the live lines |
| TokenFamilies.OneLiveTokenPerFamily | src/infrastructure/security/postgres-auth-repository.ts:211-298 | every reachable ledger has at most one live token per family, all of one user |
| TokenFamilies.ReplayKillsFamily | src/infrastructure/security/postgres-auth-repository.ts:257-268 | once a revoked token is presented no token of its family rotates again |
| TokenFamilies.TokenRotatesOnce | src/infrastructure/security/postgres-auth-repository.ts:285-297 | no token rotates twice |
| TokenFamilies.UsedTokenIsReplay | src/infrastructure/security/postgres-auth-repository.ts:257-268 | a used token is always recognised as a replay |
| TokenFamilies.RotationSoundExactlyWhen | src/infrastructure/security/postgres-auth-repository.ts:285-297 | a rotation keeps the families sound exactly for the token's own family, or one without live tokens that belongs to no other user |
| TokenFamilies.WrongFamilyBreaks | src/infrastructure/security/postgres-auth-repository.ts:292-296 | naming another family can leave two live tokens in it |
| TokenFamilies.RotateExactlyWhen | src/infrastructure/security/postgres-auth-repository.ts:227-298 | rotated exactly for an unrevoked row of an active, unlocked user, blocked exactly for an unrevoked row of any other known user, replayed exactly for a revoked row; what each writes, row by row |
| TokenFamilies.IssuedOnlyToUsable | src/infrastructure/security/postgres-auth-repository.ts:270-298 | over every run a refresh issues a token exactly for a live token of a user active and unlocked at that moment, within the same family |
| TokenFamilies.RefreshTokenStore.RotateToken | src/infrastructure/security/postgres-auth-repository.ts:227-298 | the statements are the rotation function |
| ParentChains.ParentChainContains | src/domain/contracts/catalog-rules.ts:78-94 | terminates on any parent map, and is true exactly when the chain meets the category or never ends |
| ParentChains.ReparentAcyclicExactlyWhen | src/domain/contracts/catalog-rules.ts:78-94 | from an acyclic map a new parent keeps it acyclic exactly when that parent is not below the category |
| Catalog.CategoryTable.CreateCategory | src/application/engines/catalog/catalog-engine.ts:216-228 | accepted exactly when a named parent exists; keeps the table acyclic |
| Catalog.CategoryTable.UpdateCategory | src/application/engines/catalog/catalog-engine.ts:235-252 | as one call: accepted exactly when category and parent exist and the resulting parents are acyclic; each field is the one given or the old one; refused as not found or as invalid accordingly; keeps the table acyclic |
| Catalog.CategoryTable.AssertAcyclicParent | src/application/engines/catalog/catalog-engine.ts:598-608 | the check is acyclicity of the resulting map |
| Catalog.CategoryTable.ArchiveCategory | src/application/engines/catalog/catalog-engine.ts:254-257 | never refused for a category that exists |
| Catalog.BuildForest | src/application/engines/catalog/catalog-engine.ts:563-596 | the forest: children of a node are the categories shown under it, in sibling order, and likewise the roots |
| Catalog.ForestHolds | src/application/engines/catalog/catalog-engine.ts:563-596 | a category appears once if its shown parents reach the top, and not at all otherwise |
| Catalog.EveryActiveCategoryOnce | src/application/engines/catalog/catalog-engine.ts:521-522 | from a table kept acyclic every active category appears exactly once |
| Catalog.ForestIsWellPlaced | src/application/engines/catalog/catalog-engine.ts:169-172 | under each parent sit exactly the categories that name it, at the top exactly those that name no shown parent, siblings strictly ordered by (sortOrder, id) |
| CategoryEdits.StepKeeps | src/application/engines/catalog/catalog-engine.ts:235-252 | every step of overlapping edits keeps parents known and each edit's check passed on what it listed |
| CategoryEdits.StaysAcyclicExactlyWhen | src/application/engines/catalog/catalog-engine.ts:235-252 | however edits overlap, the table stays acyclic exactly when every write would pass its check once more |
| CategoryEdits.UnovertakenStaysAcyclic | src/application/engines/catalog/catalog-engine.ts:235-252 | it does where no listed category moves between an edit's check and its write |
| CategoryEdits.CrossedEditsCycle | src/application/engines/catalog/catalog-engine.ts:230-252 | any two categories, neither above the other: two overlapping edits are both accepted and close a cycle |
| CategoryEdits.CrossedVanish | src/application/engines/catalog/catalog-engine.ts:563-596 | active categories that are each other's parent are nowhere in the menu |
| CacheKeys.KeyIdentifiesQuery | src/application/engines/rbac/authorization-engine.ts:53-61 | two different queries never share a cache key |
| LruCache.OrderIsRecency | src/application/engines/rbac/l1-permission-cache.ts:51-75 | the cache holds at most `maxEntries` and lists its keys by last use in the trace |
| LruCache.EvictsLeastRecentlyUsed | src/application/engines/rbac/l1-permission-cache.ts:65-75 | a new key in a full cache drops the least recently used key and no other |
| LruCache.RoomKeepsAll | src/application/engines/rbac/l1-permission-cache.ts:65-75 | with room, or for a held key, nothing else changes |
| LruCache.L1PermissionCache.Get | src/application/engines/rbac/l1-permission-cache.ts:51-62 | a hit exactly while the entry is younger than its TTL; it moves to the end, an expired entry goes |
| LruCache.L1PermissionCache.Set | src/application/engines/rbac/l1-permission-cache.ts:65-75 | stores at the end and evicts from the front |
| Authorization.VerdictIsExact | src/application/engines/rbac/authorization-engine.ts:63-77 | the outcome is the only one with: denied without grants, otherwise the largest cap unless a grant has none |
| Authorization.ComputeOutcome | src/application/engines/rbac/authorization-engine.ts:63-77 | the loop computes that outcome |
| Authorization.AnswersAreFresh | src/application/engines/rbac/authorization-engine.ts:133-156 | over every run sensitive answers match the current grants, and any other equals the outcome of grants held less than TTL plus fill time ago |
| Authorization.AnswersComeFromGrants | src/application/engines/rbac/authorization-engine.ts:133-156 | on every run each answer is the outcome of grants that user had for that permission, tenant and branch: at the very action that answered if sensitive, else less than TTL plus fill time before |
| Authorization.EveryCheckHandledOnce | src/application/engines/rbac/authorization-engine.ts:133-156 | on every run each check has one answer of its own, or one fill still under way |
| Authorization.FreshnessBoundIsExact | src/application/engines/rbac/authorization-engine.ts:141-151 | a limit bounds the age of every answer on every run exactly when it is at least TTL plus fill time |
| Authorization.UndisturbedFillsKeepTtl | src/application/engines/rbac/authorization-engine.ts:141-151 | the TTL alone is the bound on every run where no scope changes while a fill of it is pending, however long fills take |
| Authorization.StaleRunIsStale | src/application/engines/rbac/authorization-engine.ts:141-151 | for any TTL and fill time, a run that serves an outcome one instant short of their sum after it stopped being true |

## Left out

- SQL triggers, migrations and database functions: cost-of-goods posting, cost layers, inventory posting and the shortage gate are taken as no-ops.
- Database limits: amounts are unbounded integers, so the overflow of `NUMERIC(18,4)` and `bigint` columns is not modelled.
- Authorization, branch and tenant checks in front of the engines, audit rows and outbox events other than the kitchen feed.
- Payment reversals, line voids and new discounts in the concurrent model: reversals lock the acting cashier's shift and not the payment's, and line voids do not recompute the paid state; `Collection.dfy` covers collect and close, `PaymentLedger.dfy` a fixed order.
- Parsing in the concurrent model: a request carries its tender already in minor units; the text is parsed in `PaymentLedger.dfy`. Key normalisation (blank or over-long keys) is left out.
- Shift opening counts, the cash variance of the Z-Report and the X-Report: plain sums.
- Concurrency of voids, refunds of stock and token rotation: each call is one atomic step, as each is one transaction in the program.
- Cascade.CalculateCascadingTaxes: the strategy is a datatype, so the unknown-strategy error has no counterpart; rows are written at their sequence position where the program pushes and sorts; the totals of a priority are added up after its groups; the liable party and rate source are not carried.
- OrderTotals.ComputeOrderTotals: the ISO digits of the currency are a parameter. `DiscountedBasesExact` and `TotalNotBelowDiscounted` speak of stored snapshots: distinct item ids, non-negative amounts and discounts, which the tables guarantee.
- OrderTotals.ReplayPreservesTotals: the taxes of one line have distinct rates, as rates belong to one category and the categories of a line are distinct.
- Stock.LoadSaleDeductions: quantities are integers at the four stored decimals; each recipe requirement is positive, as the recipe table demands.
- CategoryEdits.StepKeeps: creating a category is one step, since the parent it looks up cannot go away before the insert.
- Catalog.BuildForest: children are kept in a map of lists and assembled into trees while sorting, in place of mutable nodes; menu items are not attached.
- Lockout.ThrottledInterval: the clock does not go back between challenges; PIN verification is a boolean of the challenge.
- CacheKeys.KeyIdentifiesQuery: characters are Unicode scalar values, so the escapes of lone surrogates are not modelled.
- KdsFeed.DeliveredIsLogSlice: sequence numbers are gapless per branch; token revalidation, authentication limits and malformed frames only show as drops or nothing.
- Cryptography, tokens and hashing are taken as injective or boolean; time zones, localized text, prices, workflow transitions, staff, platform and tax administration are not modelled.
