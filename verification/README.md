# Verified models of the shop's state machines

These Dafny modules model the state machines under the NestJS services of the shop: what the services keep
in Postgres, Redis and RabbitMQ, as maps, sequences and classes with those fields, with time as an integer
clock. Each module has the same shape:

- a `State`, a `Step` datatype with one constructor per operation or per atomic piece of one, and a function
  `Apply`; a step whose guard is false leaves the state alone, so a theorem over all sequences of steps is a
  theorem over all runs;
- the theorems, most of them of the form "for every run" or "if and only if";
- a class whose fields are the service's tables, caches and queues, whose methods follow the service's code,
  loops included, and whose postconditions equate the new state with `Apply`, so the theorems hold of it, and say
  row by row, with the source's own constants, what the call answered and changed.

| file | models | the hardest results |
|---|---|---|
| `PaymentWebhook.dfy` | webhook claiming, licence generation, order confirmation, as interleaved deliveries with program counters | `SafeInEveryInterleaving`, `LicencesAreFinal` |
| `SalesBuckets.dfy`, `UtcCalendar.dfy` | the sales series over UTC days, weeks and months, on a real civil calendar | `ReportConserves`, `ConservesExactly` |
| `PeriodRanges.dfy` | the dashboard's periods | `PeriodsTile` |
| `StockLedger.dfy` | time-limited stock holds | `NeverOversoldExactly`, `StepExact` |
| `FeaturedReplication.dfy` | featured lists replicated over a queue, with interruptible reconciles | `SyncedExactly`, `UnconsumedIsTimely` |
| `OrderNumbers.dfy` | order numbers under concurrent creation | `RefusalsAreOthersOrders`, `ParseFormat` |
| `Subscriptions.dfy` | the mirror of Stripe subscriptions | `LeavingIsFinal`, `AtMostOneWelcome` |
| `RefreshTokens.dfy` | refresh-token sessions | `AtMostFiveSessions`, `IssueKeepsNewest`, `StaysOutExactly` |
| `TwoFactorCodes.dfy` | two-factor codes | `OneAcceptanceFiveMisses`, `DeadForever` |
| `CartMerge.dfy` | merging a guest cart | `MergeTwice`, `CartMergesCommute`, `UserCartSurvivesExactly` |
| `CategoryCache.dfy` | the category list cache over the key-value store | `CoherentExactly`, `ReorderAcceptsExactly` |
| `RevenueShares.dfy` | revenue per category and per product type | `SharesAddUp` |

`dafny verify dfyconfig.toml` checks everything.

## Where the code falls short of the plain promise

Each of these is proved, most of them as an exact condition: the promise holds if and only if the condition does.

- Two success events about one order double the licences, since the claim is per event: two events of one
  payment intent, or one each of two intents when a repeated checkout replaced the order's intent
  (`SafeInEveryInterleaving`; `RaceDoublesLicences`, `ReattachDoublesLicences`).
- A reconcile of the featured flags is a snapshot request followed by two updates; a change that is published
  and consumed in between is undone (`SyncedExactly`; `StaleReconcileDiverges`).
- Refreshing a hold skips the availability check, confirming ignores expiry, and the stock can be set freely
  (`StepExact` gives the guard of each; `RefreshOversells`).
- A weekly series that starts on a later weekday than today's, and a monthly series of a week that crosses a
  month, lose the orders of their last bucket, in the totals too (`ReportConserves`; `MonthByWeekLosesMonday`).
- `Date.UTC` reads the years 0 to 99 as 1900 to 1999, so the periods of those years do not tile (`PeriodsTile`;
  `Year50DoesNotTile`).
- A created event handled after the activation mails the customer twice (`AtMostOneWelcome`;
  `LateCreatedMailsTwice`).
- A cart that carries both a user id and a session id deletes itself when its user merges the session
  (`UserCartSurvivesExactly`; `SharedCartVanishes`), and is deleted, its lines given away, when another user does
  (`OtherCartSurvivesExactly`; `SharedCartIsTaken`).
- Merging a sold-out product leaves a line of quantity 0 (`PositiveExactly`; `SoldOutLineStays`).
- A category with the slug `list`, `list:active` or `list:inactive` overwrites a cached list (`CoherentExactly`;
  `SlugListClobbers`).
- A refresh token revoked less than 30 seconds ago is still exchanged, even past its own expiry
  (`AcceptedExactly`), so revoking all sessions of a user may not last (`StaysOutExactly`; `RevokedUserComesBack`).

## Assumptions of the model

- A service call is one atomic step, except where the module says otherwise: webhook deliveries, order
  creation, the featured queue and reconciles are modelled step by step.
- Each payment intent is created for one order, and an order's items do not change once placed; an order may get
  any number of intents, one after the other. The purge of pending orders may take any of them at any time.
- Fresh row ids, refresh tokens and order positions are new; a hash is identified with what it hashes.
- Money is exact. Unit prices are whole cents, and `Math.round` is the floor of x + 1/2.
- Requests have passed the validation pipes (quantities at least 1, stock levels at least 0).
- Stripe, the product catalog and the user service answer anything at all: their replies are parameters.
- Rows of equal sort key stay in table order.

## Model

| member | source | states |
|---|---|---|
| `PaymentWebhook.SafeInEveryInterleaving` | apps/payment-service/src/services/webhook.service.ts:145-223 | For every table of Stripe events and every assignment of payment intents to orders: no two success events are about one order, through one intent or through two, **if and only if** every run of interleaved deliveries, overwritten intents, purged orders, failures, crashes, lost messages and consumer steps is safe: each order ever placed has none or exactly its entitled licences, at most one delivery per event is past the claim, PAID orders and queued confirmations have complete licence sets, and no order gets its licence mail twice |
| `PaymentWebhook.LicencesInRows` | apps/payment-service/src/services/license.service.ts:54-84 | The same over every run, in plain rows: with at most one success event per order, an order ever placed has no licence row, or of each product exactly as many as the items of type "license" for that product ask for; a PAID one has the latter |
| `PaymentWebhook.RaceDoublesLicences` | apps/payment-service/src/services/webhook.service.ts:390-443 | Two success events about one order: an explicit interleaving passes the empty check twice and stores twice the entitlement, whether the intents are the same or the second replaced the first |
| `PaymentWebhook.ReattachDoublesLicences` | apps/order-service/src/services/order.service.ts:641-643 | A concrete run with one success event per intent: the intent of an order is overwritten while its delivery is under way, and two licence sets are stored |
| `PaymentWebhook.StepKeeps` | apps/payment-service/src/services/webhook.service.ts:145-223 | Each step of a delivery, of the order service or of the environment, overwriting an intent and purging an order included, keeps the inductive invariant that ties claims, program counters, licence rows, queue and order statuses together |
| `PaymentWebhook.AttachIntentKeeps` | apps/order-service/src/services/order.service.ts:641-643 | Overwriting the payment intent of an order keeps the invariant, whatever deliveries are under way |
| `PaymentWebhook.PurgeKeeps` | apps/order-service/src/cron/pending-orders-cleanup.cron.ts:38-46 | So does deleting a pending order, also one a delivery is working on |
| `PaymentWebhook.RunKeeps` | apps/payment-service/src/services/webhook.service.ts:145-358 | The invariant holds after every run from every state that satisfies it, not only from the empty one |
| `PaymentWebhook.LicencesAreFinal` | apps/payment-service/src/services/webhook.service.ts:390-443 | Once an order has licences, no continuation of the run adds to them or takes from them, also after its intent was replaced or its row purged |
| `PaymentWebhook.DistinctOrders` | apps/payment-service/src/services/webhook.service.ts:205-223 | With at most one success event per order, two deliveries that both hold a claim never work on the same order |
| `PaymentWebhook.SavedRows` | apps/payment-service/src/services/license.service.ts:54-84 | One save adds exactly the entitled rows to its own order and nothing to any other order |
| `PaymentWebhook.EntitledCount` | apps/payment-service/src/services/license.service.ts:54-84 | An entitlement has as many licences as the quantities of the licence items add up to; non-positive quantities give none |
| `PaymentWebhook.SendKeeps` | apps/payment-service/src/services/webhook.service.ts:288-318 | Queueing a confirmation is safe exactly because the order it names already has its complete licence set |
| `PaymentWebhook.SetStatusKeeps` | apps/order-service/src/services/order.service.ts:325-408 | PAID, CANCELLED or REFUNDED set by the consumer keeps the invariant, PAID only when the licences are complete |
| `PaymentWebhook.ConsumeSets` | apps/order-service/src/services/order.service.ts:325-408 | Consuming makes the order that carries the message's intent PAID for a confirmation, CANCELLED for a failure, REFUNDED for a refund; its items, every other order and everything but the queue stay |
| `PaymentWebhook.QueueAdvances` | apps/order-service/src/services/order.service.ts:325-408 | Over any run a message that waits behind n others is first once n messages were taken |
| `PaymentWebhook.ConfirmationPays` | apps/order-service/src/services/order.service.ts:338-344 | A confirmation that waits behind n messages, after any run in which these n were taken: consuming it makes the order that then carries its intent PAID, with exactly the licence rows its items ask for |
| `PaymentWebhook.AttachReplaces` | apps/order-service/src/services/order.service.ts:641-643 | Attaching an intent replaces the one the order had; every other order keeps its intent and nothing else changes |
| `PaymentWebhook.Backend.TryClaimEvent` | apps/payment-service/src/services/webhook.service.ts:205-219 | The primary-key insert: claims exactly when no row existed; equals the Claim step |
| `PaymentWebhook.Backend.ReleaseClaim` | apps/payment-service/src/services/webhook.service.ts:221-223 | Removes the claim row of the event and nothing else; equals the Release step |
| `PaymentWebhook.Backend.GenerateForOrder` | apps/payment-service/src/services/license.service.ts:54-84 | For each product the new rows are as many as the non-negative quantities of the items of type "license" for it add up to, all for this order, appended to the stored ones in one save |
| `PaymentWebhook.Backend.StoreLicences` | apps/payment-service/src/services/webhook.service.ts:414-443 | The save inside a delivery: the rows of that entitlement, product by product, appended; equals the SaveLicences step |
| `PaymentWebhook.Backend.FindByOrderId` | apps/payment-service/src/services/license.service.ts:122-124 | The query as a loop: a row is returned exactly when it is stored and belongs to the order, in storage order |
| `PaymentWebhook.Backend.FetchOrder` | apps/payment-service/src/services/webhook.service.ts:360-388 | The order whose intent the event carries, or the failing branch when no row resolves; equals the Fetch step |
| `PaymentWebhook.Backend.NeedsLicences` | apps/payment-service/src/services/webhook.service.ts:390-412 | True exactly when the order has an item of type "license" and no stored row is for it; equals the CheckExisting step |
| `PaymentWebhook.Backend.GenerateLicensesForOrder` | apps/payment-service/src/services/webhook.service.ts:390-443 | With a read failure, a save failure or none: what happens is a run of steps of this delivery only, ending in Generated or Failing |
| `PaymentWebhook.Backend.HandlePaymentIntentSucceeded` | apps/payment-service/src/services/webhook.service.ts:281-358 | A run of steps of this delivery only; the confirmation is queued once, and only when nothing threw |
| `PaymentWebhook.Backend.HandleOtherEvent` | apps/payment-service/src/services/webhook.service.ts:445-481 | A failed payment queues a failure message for its intent, a refund a refund message; every other kind queues none |
| `PaymentWebhook.Backend.Route` | apps/payment-service/src/services/webhook.service.ts:161-199 | By event kind: the one message that is queued, and only a success event can throw or store licences; it throws without a resolvable order and not without a fault |
| `PaymentWebhook.Backend.NotifyCustomer` | apps/payment-service/src/services/webhook.service.ts:321-358 | Mails exactly when the customer is reachable, something was issued and the intent still resolves, so an intent replaced meanwhile gets no mail; equals the Notify step |
| `PaymentWebhook.Backend.HandleWebhookEvent` | apps/payment-service/src/services/webhook.service.ts:145-199 | A whole delivery refines the step machine; a failed delivery gives its claim back, a duplicate changes nothing, and a first successful delivery leaves exactly one new queued confirmation and, per product, the licence rows the order asks for; it throws only for a success event with a fault or without an order |
| `PaymentWebhook.Backend.ConsumeOrderMessage` | apps/order-service/src/services/order.service.ts:325-408 | The head is popped; if its intent resolves, that order becomes PAID, CANCELLED or REFUNDED by the kind of message and no other order changes, otherwise none does; equals the Consume step |
| `FeaturedReplication.SyncedExactly` | apps/catalog-service/src/services/product.service.ts:81-113 | Over every run of list changes, consumed messages and reconciles, each split into its snapshot request and its two updates in any interleaving: replaying the pending messages gives exactly the union of the lists at every moment **if and only if** every list change drops cleanly and each product an update sets against the current lists, that is one that changed since its snapshot, still has a pending message |
| `FeaturedReplication.StepExact` | apps/catalog-service/src/services/product.service.ts:1272-1338 | For each kind of step: the services stay in step exactly under its guard |
| `FeaturedReplication.UnconsumedIsTimely` | apps/catalog-service/src/services/product.service.ts:81-113 | A reconcile update is timely as long as nothing published after its snapshot has been consumed, whatever the lists did meanwhile |
| `FeaturedReplication.QueueIsFifo` | apps/content-service/src/services/top-products.service.ts:272-301 | What is pending is what was there and was published, less what was consumed, in order |
| `FeaturedReplication.ChangesAreMentioned` | apps/content-service/src/services/top-products.service.ts:220-301 | Every product whose wanted flag a run changes is mentioned by a message the run published |
| `FeaturedReplication.DisjointRunIsSynced` | apps/content-service/src/services/top-products.service.ts:220-301 | With type-disjoint lists and timely reconciles the services are in step at every moment |
| `FeaturedReplication.RunKeepsLimit` | apps/content-service/src/services/top-products.service.ts:220-301 | Over any run no list exceeds eight ids and the catalog neither gains nor loses products |
| `FeaturedReplication.DrainedFlagsAreTheLists` | apps/catalog-service/src/services/product.service.ts:1272-1301 | Whenever the queue of a guarded run is empty, a known product is flagged if and only if some list names it |
| `FeaturedReplication.ChangeKeeps` | apps/content-service/src/services/top-products.service.ts:220-301 | A toggle or list update keeps the services in step **if and only if** it drops no product that stays listed under another type (or it was refused) |
| `FeaturedReplication.DisjointDropsCleanly` | apps/content-service/src/services/top-products.service.ts:220-301 | With type-disjoint lists every drop is clean |
| `FeaturedReplication.ConsumeKeeps` | apps/catalog-service/src/services/product.service.ts:1272-1301 | Consuming a message neither creates nor repairs a divergence |
| `FeaturedReplication.ReconcileExact` | apps/catalog-service/src/services/product.service.ts:1303-1338 | Each of the two updates of a reconcile, with a snapshot of any age, keeps the services in step **if and only if** every product it sets against the current lists is still mentioned by a pending message |
| `FeaturedReplication.ResyncRepairs` | apps/catalog-service/src/services/product.service.ts:81-113 | An uninterrupted reconcile turns any flags into the configured lists; the services are in step after it **if and only if** the latest pending message about each product agrees with the lists |
| `FeaturedReplication.HonestRunExactly` | apps/content-service/src/services/top-products.service.ts:220-301 | For every run from any flags, right or wrong, with any reconciles in it: pending messages agree with the lists at every moment **if and only if** every list change drops cleanly |
| `FeaturedReplication.ResyncAfterRun` | apps/catalog-service/src/services/product.service.ts:81-113 | So after every cleanly dropping run, from any flags, an uninterrupted reconcile puts the services in step |
| `FeaturedReplication.CorruptionIsRepaired` | apps/catalog-service/src/services/product.service.ts:81-113 | Services in step whose flags are then changed at will are in step again after an uninterrupted reconcile |
| `FeaturedReplication.StaleReconcileDiverges` | apps/catalog-service/src/services/product.service.ts:81-113 | A concrete run: a change published and consumed between the snapshot and the updates is undone |
| `FeaturedReplication.FeaturedServices.ToggleFeatured` | apps/content-service/src/services/top-products.service.ts:220-270 | A no-op exactly when already so, refused exactly for a new id on a list of eight or more; otherwise the list names the id as asked, new ids last, other ids and lists as before, and the one message queued carries exactly this id on its side; equals the Toggle step |
| `FeaturedReplication.FeaturedServices.PersistConfig` | apps/content-service/src/services/top-products.service.ts:272-301 | Accepted exactly up to eight ids: the list becomes the ids given and one message carries exactly the ids that are new and the ids that left; otherwise nothing changes; equals the Persist step |
| `FeaturedReplication.FeaturedServices.ConsumeNext` | apps/catalog-service/src/services/product.service.ts:1272-1301 | The head of the queue is taken; a known product is flagged afterwards exactly when it is not among the removed ids and is among the added ones or was flagged |
| `FeaturedReplication.FeaturedServices.GetFullSyncSnapshot` | apps/content-service/src/services/top-products.service.ts:101-116 | A product is in the snapshot exactly when the list of some type names it |
| `FeaturedReplication.FeaturedServices.SyncFeaturedFromTopProducts` | apps/catalog-service/src/services/product.service.ts:1272-1301 | A known product is flagged afterwards exactly when it is not removed and is added or was flagged; unknown ids add nothing |
| `FeaturedReplication.FeaturedServices.SwitchSnapshotOn` | apps/catalog-service/src/services/product.service.ts:1308-1318 | A known product is flagged after the first update exactly when it was or the snapshot names it; equals the SwitchOn step |
| `FeaturedReplication.FeaturedServices.SwitchOthersOff` | apps/catalog-service/src/services/product.service.ts:1320-1332 | A known product is flagged after the second update exactly when it was and the snapshot names it; equals the SwitchOff step |
| `FeaturedReplication.FeaturedServices.ReconcileFeaturedFromContent` | apps/catalog-service/src/services/product.service.ts:81-113 | Uninterrupted, the three steps leave exactly the configured products flagged |
| `StockLedger.NeverOversoldExactly` | apps/catalog-service/src/services/stock.service.ts:148-341 | For every run: at no moment does the unexpired held quantity of a product exceed its stock **if and only if** every step of the run is guarded |
| `StockLedger.StepExact` | apps/catalog-service/src/services/stock.service.ts:148-374 | For every kind of step: coverage survives **if and only if** its guard holds; only the refresh of a hold, the confirmation of an expired hold and a stock update have a guard |
| `StockLedger.RefreshOversells` | apps/catalog-service/src/services/stock.service.ts:176-193 | A concrete run from an empty ledger: one unit in stock, held, and the hold refreshed to two |
| `StockLedger.ReserveExact` | apps/catalog-service/src/services/stock.service.ts:148-236 | A new hold is always covered; a refresh, which skips the availability check, is covered exactly when its quantity fits in the stock not held by others |
| `StockLedger.ConfirmExact` | apps/catalog-service/src/services/stock.service.ts:282-341 | Confirming keeps coverage exactly when each expired hold of the cart finds its quantity unheld (or nothing is held) |
| `StockLedger.UpdateExact` | apps/catalog-service/src/services/stock.service.ts:46-96 | Setting the stock keeps coverage exactly when the new level is at least what is held |
| `StockLedger.CarefulIsGuarded` | apps/catalog-service/src/services/stock.service.ts:148-341 | Refreshing only unexpired holds for no more than they hold, confirming before expiry and never setting stock below what is held imply every guard |
| `StockLedger.CarefulRunIsSafe` | apps/catalog-service/src/services/stock.service.ts:148-341 | So after every prefix of a careful run the held quantities are covered |
| `StockLedger.ClampNeverFires` | apps/catalog-service/src/services/stock.service.ts:282-341 | A careful confirmation deducts every hold in full: the clamp at zero never fires |
| `StockLedger.AlwaysInv` | apps/catalog-service/src/services/stock.service.ts:148-374 | Over any run no two holds share product and cart, quantities are positive and only physical products are held |
| `StockLedger.DeductAllAt` | apps/catalog-service/src/services/stock.service.ts:282-341 | Deducting a cart: products without a hold keep their stock, each held product loses its hold once, down to zero |
| `StockLedger.ConfirmAt` | apps/catalog-service/src/services/stock.service.ts:282-341 | Effect of a confirmation on one product: stock minus its hold (clamped), held quantity minus the unexpired part of that hold, other products untouched |
| `StockLedger.ConfirmInRows` | apps/catalog-service/src/services/stock.service.ts:282-341 | A confirmation, row by row: each hold of the cart is taken off its product once, down to zero, other products stay, and exactly the cart's holds are gone |
| `StockLedger.HeldFades` | apps/catalog-service/src/services/stock.service.ts:402-413 | Moving the clock forward never increases a held quantity |
| `StockLedger.HeldAppend` | apps/catalog-service/src/services/stock.service.ts:402-413 | An unexpired hold adds its quantity to its own product; an expired hold, and one of another product, add nothing |
| `StockLedger.StockService.GetActiveReservedQuantity` | apps/catalog-service/src/services/stock.service.ts:402-413 | The sum over unexpired holds of the product |
| `StockLedger.StockService.ReserveStock` | apps/catalog-service/src/services/stock.service.ts:148-236 | Each of the six answers exactly under its condition; a new hold is appended with the quantity asked for and expires after the configured time, which raises the held quantity of this product by that quantity and of no other; a refresh replaces the cart's hold by such a one and keeps the others; any other answer changes nothing |
| `StockLedger.StockService.ReleaseReservation` | apps/catalog-service/src/services/stock.service.ts:238-280 | A hold stays exactly when it is not the cart's, the returned holds are exactly the cart's, and for every product the held quantity splits between the two |
| `StockLedger.StockService.DeductEach` | apps/catalog-service/src/services/stock.service.ts:282-325 | The loop that writes back product copies loaded before it equals deducting the holds one by one: no copy is stale when written |
| `StockLedger.StockService.ConfirmReservation` | apps/catalog-service/src/services/stock.service.ts:282-341 | Found exactly when the cart has a hold; each held product loses its hold's quantity once, down to zero, every other product is unchanged, and exactly the cart's holds are gone; equals the Confirm step |
| `StockLedger.StockService.CleanupExpiredReservations` | apps/catalog-service/src/services/stock.service.ts:343-374 | A hold stays exactly when it is not past its expiry, no held quantity changes, and the count is what was removed |
| `StockLedger.StockService.SetStock` | apps/catalog-service/src/services/stock.service.ts:46-96 | Accepted exactly for a known physical product and a level not below zero, whose stock becomes that level; otherwise nothing changes |
| `PeriodRanges.PeriodsTile` | apps/analytics-service/src/services/dashboard.service.ts:255-309 | For every period kind and instant: `prevEnd` is one millisecond before `start` and the period of `prevEnd` starts at `prevStart` **if and only if** the clock is not between year 0 and the first period start after the first day of year 100, where `Date.UTC` reads years 0 to 99 as 1900 to 1999 |
| `PeriodRanges.Year50DoesNotTile` | apps/analytics-service/src/services/dashboard.service.ts:255-309 | At a clock in year 50 no period kind tiles |
| `PeriodRanges.PeriodsPartition` | apps/analytics-service/src/services/dashboard.service.ts:255-309 | Every day from a period's first day up to a day of that period lies in the same period |
| `PeriodRanges.StartIsFirst` | apps/analytics-service/src/services/dashboard.service.ts:255-309 | Outside years 0 to 99 the computed start is the midnight of the clock's day, of its Monday, or of the first day of its month, quarter or year |
| `PeriodRanges.StartIsCivil` | apps/analytics-service/src/services/dashboard.service.ts:255-309 | Outside years 0 to 99 the computed start is the civil calendar's start of day, Monday week, month, quarter or year |
| `PeriodRanges.PrevStartIsCivil` | apps/analytics-service/src/services/dashboard.service.ts:255-309 | The computed previous start is the civil start of the period that contains the millisecond before |
| `PeriodRanges.TwoDigitPeriodIsInterval` | apps/analytics-service/src/services/dashboard.service.ts:255-309 | The clocks whose ranges fail to tile form one interval, given by constants |
| `PeriodRanges.GetDateRange` | apps/analytics-service/src/services/dashboard.service.ts:255-309 | The assignments and in-place date shifts compute the range the lemmas speak about, for all five kinds |
| `UtcCalendar.MonthLengthIs` | apps/analytics-service/src/services/dashboard.service.ts:255-309 | The lengths of the twelve months, February by the leap-year rule |
| `UtcCalendar.DayZero` | apps/analytics-service/src/services/dashboard.service.ts:255-309 | Day 0 is Thursday, 1 January 1970 |
| `UtcCalendar.NextDay` | apps/analytics-service/src/services/dashboard.service.ts:255-309 | From one day to the next the date counts up, or a month, or a year, begins, and the weekday moves on: with the above this fixes every calendar field |
| `UtcCalendar.YearFromDay` | apps/analytics-service/src/services/dashboard.service.ts:255-309 | The year whose first day is the last one not after the day, for every integer day number (section 21.4.1 of ECMA-262) |
| `UtcCalendar.MonthUnique` | apps/analytics-service/src/services/dashboard.service.ts:255-309 | Each day lies in exactly one month of the proleptic Gregorian calendar |
| `UtcCalendar.SetDateShifts` | apps/analytics-service/src/services/sales.service.ts:818-841 | `setUTCDate(getUTCDate() + k)` moves the instant by k days, across month and year ends |
| `UtcCalendar.SetMonthShifts` | apps/analytics-service/src/services/sales.service.ts:818-841 | `setUTCMonth(getUTCMonth() + 1)` lands on the same date of the next month or overflows past it |
| `SalesBuckets.ReportConserves` | apps/analytics-service/src/services/sales.service.ts:164-206 | For every clock, period and grouping: whatever the orders, series totals equal the totals of the paid orders in range **if and only if** the range is empty or the combination is neither a weekly series starting on a later weekday than the clock's nor a monthly series of a week that crosses a month |
| `SalesBuckets.MonthByWeekLosesMonday` | apps/analytics-service/src/services/sales.service.ts:818-841 | A concrete report: on Monday 5 January 1970 the month by week leaves out an order paid that day |
| `SalesBuckets.ConservesExactly` | apps/analytics-service/src/services/sales.service.ts:164-206 | For every non-empty range and grouping: nothing is lost for any orders **if and only if** the end lies no earlier in its bucket than the start does and no month between is shorter than the start's date |
| `SalesBuckets.CoversExactly` | apps/analytics-service/src/services/sales.service.ts:818-859 | Every instant of the range has its label among the generated buckets exactly under that condition |
| `SalesBuckets.AlignedStartsConserve` | apps/analytics-service/src/services/sales.service.ts:818-859 | Starts at midnight (day), on a Monday (week) or on a first (month), and ranges inside one bucket, never lose an order |
| `SalesBuckets.GapSkipsBucket` | apps/analytics-service/src/services/sales.service.ts:818-841 | When the condition fails, some bucket of the range is never generated |
| `SalesBuckets.LabelIsBucketLabel` | apps/analytics-service/src/services/sales.service.ts:843-859 | The printed label of an instant is the label of the day, Monday week or month that contains it |
| `SalesBuckets.LabelInDates` | apps/analytics-service/src/services/sales.service.ts:843-859 | A day's label is its date, a month's its year and month, and a week's the date of the Monday at most six days before |
| `SalesBuckets.LabelsInjective` | apps/analytics-service/src/services/sales.service.ts:843-859 | Different buckets have different labels |
| `SalesBuckets.WalkIncreases` | apps/analytics-service/src/services/sales.service.ts:818-841 | The loop terminates and visits buckets in strictly increasing order |
| `SalesBuckets.WalkLabelsDistinct` | apps/analytics-service/src/services/sales.service.ts:818-841 | So the generated labels are distinct and the map built from them has one entry per bucket |
| `SalesBuckets.SeriesTotal` | apps/analytics-service/src/services/sales.service.ts:188-206 | The series adds up to exactly the sales whose label is a bucket, each counted once |
| `SalesBuckets.PaidTally` | apps/analytics-service/src/services/sales.service.ts:165-173 | What is counted is, for every list of orders, the sum of the totals and the number of exactly those created in the range with a status paid, completed, shipped or delivered |
| `SalesBuckets.PaidTallyAt` | apps/analytics-service/src/services/sales.service.ts:176-187 | The same for each label: the totals and the number of the sold orders whose date has it |
| `SalesBuckets.ReportInOrders` | apps/analytics-service/src/services/sales.service.ts:152-206 | For every clock, period and grouping: each entry of the series is what was sold in its bucket, and for a combination that loses nothing the totals are what was sold in the range |
| `SalesBuckets.GenerateDateBuckets` | apps/analytics-service/src/services/sales.service.ts:818-841 | The bucket loop terminates and returns the labels of the walk |
| `SalesBuckets.CountSales` | apps/analytics-service/src/services/sales.service.ts:176-187 | Each sale is added to the entry of its label and dropped without one |
| `SalesBuckets.GetSales` | apps/analytics-service/src/services/sales.service.ts:152-206 | Each entry of the report is the revenue and count of the sold orders with its label, the totals are the sums of the entries and, for a combination that loses nothing at this clock, the revenue and count of all orders sold in the range |
| `RevenueShares.SharesAddUp` | apps/analytics-service/src/services/sales.service.ts:274-309 | For every list of items: group revenues shown add up to within n/2 cents of the items' revenue; with a positive total the n percentages add up to within n/2 hundredths of 100; the list is sorted by revenue |
| `RevenueShares.GroupsConserve` | apps/analytics-service/src/services/sales.service.ts:274-299 | Before rounding the groups add up to the items' revenue exactly |
| `RevenueShares.ReportInItems` | apps/analytics-service/src/services/sales.service.ts:274-385 | For every list of items and table of keys, from the items alone: one row per key that an item has, where an item of an unknown product has the key "unknown"; its revenue is the rounded sum of unit price times quantity with tax over the items of that key, its count their units, where a quantity of 0 counts as 1, and its percentage the share of the sum over all items |
| `RevenueShares.SortedStays` | apps/analytics-service/src/services/sales.service.ts:300-306 | Groups already in order, ties included, stay as they are |
| `RevenueShares.RoundDivError` | apps/analytics-service/src/services/sales.service.ts:293-306 | Rounding is within half a unit, upwards on ties |
| `RevenueShares.SortDescSorts` | apps/analytics-service/src/services/sales.service.ts:300-306 | Sorting permutes the groups and puts the largest revenue first |
| `RevenueShares.KeysInDistinct` | apps/analytics-service/src/services/sales.service.ts:363-385 | Each key gets one group and every item has a group |
| `RevenueShares.Accumulate` | apps/analytics-service/src/services/sales.service.ts:363-385 | The accumulating loop: per key the exact revenue and count, and the running total |
| `RevenueShares.Aggregate` | apps/analytics-service/src/services/sales.service.ts:274-309 | The report has exactly the rows of ReportInItems, sorted by revenue |
| `Subscriptions.LeavingIsFinal` | apps/payment-service/src/services/subscription.service.ts:119-283 | Over any run of webhook handlers, customer and admin actions and sweeps: a subscription that left INCOMPLETE is never deleted and never INCOMPLETE again, and one with a recorded end stays ended |
| `Subscriptions.OverIsFinal` | apps/payment-service/src/services/subscription.service.ts:119-283 | Over any run a recorded end is never cleared, whatever the status was |
| `Subscriptions.EndedIsNeverReactivated` | apps/payment-service/src/services/subscription.service.ts:183-242 | After its end, in every continuation, a reactivation is refused and changes nothing; the refusal says already terminated, except to callers refused anyway and for a row deleted while INCOMPLETE |
| `Subscriptions.DeletionsExactly` | apps/payment-service/src/cron/incomplete-subscriptions-cleanup.cron.ts:36-50 | A step deletes a row **if and only if** the row is INCOMPLETE and the step is the sweep of a stale row or Stripe's deletion of it |
| `Subscriptions.CreatedIncomplete` | apps/payment-service/src/services/payment.service.ts:395-412 | A new subscription is INCOMPLETE, without end or scheduled cancellation, under a fresh id, and changes no other row; a Stripe id that has a row is refused |
| `Subscriptions.WelcomeMails` | apps/payment-service/src/services/webhook.service.ts:556-619 | In every reachable state a mailed subscription exists and is not INCOMPLETE, and its mails are exactly its activation with an address, which happens at most once, plus its late created events |
| `Subscriptions.AtMostOneWelcome` | apps/payment-service/src/services/webhook.service.ts:556-619 | For every run: at most one mail **if and only if** no created event is handled late, or exactly one is and the activation was never mailed |
| `Subscriptions.LateCreatedMailsTwice` | apps/payment-service/src/services/webhook.service.ts:556-619 | With one there can be two: a concrete run |
| `Subscriptions.SubscriptionServices.CancelSubscription` | apps/payment-service/src/services/subscription.service.ts:119-170 | Each refusal exactly under its condition and without a change; at period end the schedule and the cancellation time are recorded and the status kept, otherwise the row is CANCELLED and ended now; no other row changes |
| `Subscriptions.SubscriptionServices.ReactivateSubscription` | apps/payment-service/src/services/subscription.service.ts:183-242 | Refused for a row that is missing, foreign, terminated or without a schedule, and when Stripe fails, without a change; otherwise the schedule and the cancellation time are cleared and status and dates kept |
| `Subscriptions.SubscriptionServices.SyncFromStripe` | apps/payment-service/src/services/subscription.service.ts:244-283 | Status by the map, given value by value, where an unmapped one keeps the local status; period, cancellation and end dates overwritten only when present; no other row changes |
| `Subscriptions.SubscriptionServices.UpdateTerms` | apps/payment-service/src/services/subscription.service.ts:289-346 | Refused for a missing row, unchanged when Stripe fails; otherwise status, schedule and period end follow Stripe's reply |
| `Subscriptions.SubscriptionServices.CancelAllForCustomer` | apps/payment-service/src/services/subscription.service.ts:351-381 | Exactly the rows of the listed subscriptions Stripe accepts become CANCELLED and ended now, every other row is unchanged, and the count is the accepted entries of the list |
| `Subscriptions.SubscriptionServices.HandleSubscriptionUpdated` | apps/payment-service/src/services/webhook.service.ts:587-619 | Syncs the row with that Stripe id and no other; mails exactly on INCOMPLETE to ACTIVE with an address |
| `Subscriptions.SubscriptionServices.HandleSubscriptionCreated` | apps/payment-service/src/services/webhook.service.ts:556-585 | Mails exactly when the row exists and has left INCOMPLETE |
| `Subscriptions.SubscriptionServices.HandleSubscriptionDeleted` | apps/payment-service/src/services/webhook.service.ts:653-688 | Deletes an INCOMPLETE row, otherwise records the end |
| `Subscriptions.SubscriptionServices.HandleInvoicePaid` | apps/payment-service/src/services/webhook.service.ts:483-533 | Records the paid period and the invoice when given; leaves the status and every other field and row alone |
| `Subscriptions.SubscriptionServices.HandleInvoicePaymentFailed` | apps/payment-service/src/services/webhook.service.ts:535-554 | Sets PAST_DUE on that row and changes nothing else, or throws exactly when there is no row |
| `Subscriptions.SubscriptionServices.CleanupIncomplete` | apps/payment-service/src/cron/incomplete-subscriptions-cleanup.cron.ts:36-50 | A row stays, as it was, exactly when it is not INCOMPLETE or was changed in the last 24 hours, and the count is what was deleted |
| `OrderNumbers.RefusalsAreOthersOrders` | apps/order-service/src/services/order.service.ts:256-299 | In every reachable state each charge of a creator is a different order, carrying the refused number and committed between the read that proposed it and the refused insert; so a creator gives up only after at least five other orders were committed since it started |
| `OrderNumbers.ChargeIsExplained` | apps/order-service/src/services/order.service.ts:271-294 | For every run and every charge: the step of the read, the step of the refused insert, and the order committed in between |
| `OrderNumbers.ProposedByRead` | apps/order-service/src/services/order.service.ts:81-97 | A pending proposal is the number some earlier step of the run read off the table as it was then |
| `OrderNumbers.RefusalIsCharged` | apps/order-service/src/services/order.service.ts:271-294 | A refusal is charged to an order with that number committed after the creator's last read |
| `OrderNumbers.ProposalIsLarger` | apps/order-service/src/services/order.service.ts:81-97 | A proposed number has the asked year and a larger sequence than every live number of that year at the read, whatever was deleted |
| `OrderNumbers.ParseFormat` | apps/order-service/src/services/order.service.ts:81-97 | The third dash-separated field of a formatted number parses back to its sequence, for every size |
| `OrderNumbers.FormatShape` | apps/order-service/src/services/order.service.ts:81-97 | A number is the prefix, the year, and the digits of the sequence behind zeros up to five places; longer sequences are not cut |
| `OrderNumbers.MaxSequenceAttained` | apps/order-service/src/services/order.service.ts:81-97 | The maximum is the sequence of a live order of the year, or 0 without one |
| `OrderNumbers.FormatInjective` | apps/order-service/src/services/order.service.ts:81-97 | Different year or sequence, different number |
| `OrderNumbers.OfYearExactly` | apps/order-service/src/services/order.service.ts:81-97 | The LIKE pattern of a year selects exactly the numbers of that year |
| `OrderNumbers.RunKeeps` | apps/order-service/src/services/order.service.ts:256-299 | Every run keeps the invariant over log, live set and all creators |
| `OrderNumbers.OrderTable.GenerateOrderNumber` | apps/order-service/src/services/order.service.ts:81-97 | The number after the largest live sequence of the year, which some live order has unless it is 0, formatted |
| `OrderNumbers.OrderTable.SaveWithRetry` | apps/order-service/src/services/order.service.ts:256-299 | The retry loop refines the protocol whatever other clients do between each read and insert; it fails only if five orders were committed meanwhile |
| `OrderNumbers.OrderTable.Insert` | apps/order-service/src/services/order.service.ts:271-294 | Stores, or is refused when a live order has the number; the fifth refusal gives up |
| `CartMerge.MergeTwice` | apps/order-service/src/services/cart.service.ts:382-445 | Merging two guest carts in turn equals merging their line-wise maximum at once |
| `CartMerge.MergeCommutes` | apps/order-service/src/services/cart.service.ts:382-445 | For contents: the order of two merges does not matter, and merging the same lines again changes nothing |
| `CartMerge.CartMergesCommute` | apps/order-service/src/services/cart.service.ts:382-445 | For the whole table of carts: merging the guest carts of two sessions gives the same carts in either order, when neither is the user's own cart |
| `CartMerge.PositiveExactly` | apps/order-service/src/services/cart.service.ts:414-434 | A merge keeps every quantity at least one **if and only if** no guest line's product is physical with a known stock below one |
| `CartMerge.SoldOutLineStays` | apps/order-service/src/services/cart.service.ts:414-434 | A concrete merge: one item of a physical product with stock 0 becomes a line of quantity 0 |
| `CartMerge.MergeEachIsMerged` | apps/order-service/src/services/cart.service.ts:394-434 | The row-by-row loop gives, per line, the larger quantity clamped to stock, in whatever order the rows are returned |
| `CartMerge.MergedInFull` | apps/order-service/src/services/cart.service.ts:394-434 | Line by line: a guest line whose product resolves gets the larger of both quantities, or the known stock of a physical product when that is smaller; every other line is the user's, and there are no further lines |
| `CartMerge.MergeTouches` | apps/order-service/src/services/cart.service.ts:382-445 | Without a guest cart, or with an empty one, nothing changes; otherwise the user's cart, or a new one of the user without a session, holds the merged lines, the guest cart is deleted and every other cart stays |
| `CartMerge.MergeRespectsStock` | apps/order-service/src/services/cart.service.ts:394-434 | A merged physical line never exceeds the stock; a line whose product does not resolve, or that the guest does not have, is unchanged |
| `CartMerge.UserCartSurvivesExactly` | apps/order-service/src/services/cart.service.ts:382-445 | The merging user has a cart afterwards **if and only if** the guest cart was not the user's own cart; then it holds the merged lines. The guest cart is gone, whoever it belonged to, and every cart but these two is as it was |
| `CartMerge.OtherCartSurvivesExactly` | apps/order-service/src/services/cart.service.ts:382-445 | Any other user's cart is kept as it was **if and only if** it is not the merged session's cart, which it is when one cart carries both that user's id and the session id |
| `CartMerge.SharedCartIsTaken` | apps/order-service/src/services/cart.service.ts:140-155 | A concrete run: the cart one user asked for with both ids is deleted, and its lines become another user's, when that other user merges the session |
| `CartMerge.SharedCartVanishes` | apps/order-service/src/services/cart.service.ts:140-155 | A concrete run: a cart asked for with both ids carries both, and its own merge leaves no cart at all |
| `CartMerge.MergeKeepsUniqueOwners` | apps/order-service/src/services/cart.service.ts:140-155 | Merging keeps one cart per user and per session |
| `CartMerge.CartService.GetOrCreateCart` | apps/order-service/src/services/cart.service.ts:140-155 | For an owner with a user id, a session id or both: the found cart, a new one carrying every id of the owner, or the refusal of the table for no id and for a session that has a cart |
| `CartMerge.CartService.MergeContent` | apps/order-service/src/services/cart.service.ts:394-434 | The loop merges the guest rows into the target cart and touches nothing else |
| `CartMerge.CartService.MergeGuestCart` | apps/order-service/src/services/cart.service.ts:382-445 | The whole merge, including the empty and missing guest cart and the deletion of the guest cart |
| `RefreshTokens.AtMostFiveSessions` | apps/auth-service/src/services/auth.service.ts:446-631 | Over any run of logins, refreshes, grace refreshes, logouts, revocations and cleanups no user has more than five unrevoked tokens |
| `RefreshTokens.IssueKeepsNewest` | apps/auth-service/src/services/auth.service.ts:596-631 | Issuing leaves exactly the newest four unrevoked tokens (or fewer) plus the new one, however many there were; other users keep theirs |
| `RefreshTokens.RevocationIsWriteOnce` | apps/auth-service/src/services/auth.service.ts:446-594 | Over any run a revocation time is never changed or cleared |
| `RefreshTokens.RevokedIsRefused` | apps/auth-service/src/services/auth.service.ts:446-546 | A token revoked at t is refused in every continuation from 30 seconds after t on, and the refusal changes nothing |
| `RefreshTokens.AcceptedExactly` | apps/auth-service/src/services/auth.service.ts:446-546 | A stored token is exchanged **if and only if** it belongs to an active user and is unexpired, or was revoked less than 30 seconds ago; otherwise which refusal it meets, by its row |
| `RefreshTokens.ExchangeInRows` | apps/auth-service/src/services/auth.service.ts:446-564 | An accepted exchange, row by row: the user gets one new unrevoked token dated now; the presented one is revoked now, or keeps its earlier revocation time; of the other rows only unrevoked ones of the user can change, by being revoked now |
| `RefreshTokens.LogoutInRows` | apps/auth-service/src/services/auth.service.ts:566-581 | A logout with an unrevoked token stamps its row now and changes no other |
| `RefreshTokens.UsedTokenIsRefused` | apps/auth-service/src/services/auth.service.ts:446-581 | A token that was exchanged, or logged out with, is refused from 30 seconds later on in every continuation |
| `RefreshTokens.RevokeAllLeavesNone` | apps/auth-service/src/services/auth.service.ts:588-594 | Right after revoking all, the user has no active token |
| `RefreshTokens.StaysOutExactly` | apps/auth-service/src/services/auth.service.ts:446-498 | Over every run in which the user does not log in: the user stays without an active token **if and only if** no step exchanges a token of the user revoked less than 30 seconds before |
| `RefreshTokens.RevokedUserComesBack` | apps/auth-service/src/services/auth.service.ts:459-498 | A concrete run: a token revoked with all of them is exchanged at once and the user has a session again |
| `RefreshTokens.AuthService.CreateRefreshToken` | apps/auth-service/src/services/auth.service.ts:596-631 | One new unrevoked row with its dates; of the user's unrevoked rows before it the newest four stay so, older ones are stamped now, and no other row changes |
| `RefreshTokens.AuthService.RefreshToken` | apps/auth-service/src/services/auth.service.ts:446-564 | Each answer by the presented token's row, invalid without one; accepted, the rows are exchanged as above, refused, none changes; equals the Refresh step |
| `RefreshTokens.AuthService.LogoutSession` | apps/auth-service/src/services/auth.service.ts:566-581 | The presented token's row is stamped now exactly when it is unrevoked; every other row stays |
| `RefreshTokens.AuthService.RevokeAllUserRefreshTokens` | apps/auth-service/src/services/auth.service.ts:588-594 | Each row is stamped exactly when it is the user's and unrevoked, every other row is unchanged, and the user has no active token |
| `RefreshTokens.AuthService.CleanupExpiredTokens` | apps/auth-service/src/services/auth.service.ts:633-652 | A row stays exactly when it is not past its expiry, and the count is what was deleted |
| `TwoFactorCodes.OneAcceptanceFiveMisses` | apps/auth-service/src/services/two-factor.service.ts:37-102 | Over any run each code is accepted at most once, and acceptances plus wrong guesses are at most five |
| `TwoFactorCodes.RunKeeps` | apps/auth-service/src/services/two-factor.service.ts:37-102 | Over any run an admin has at most one unused code and an unused code fewer than five attempts |
| `TwoFactorCodes.DeadForever` | apps/auth-service/src/services/two-factor.service.ts:54-94 | A dead code is never accepted nor compared in any continuation |
| `TwoFactorCodes.Deadly` | apps/auth-service/src/services/two-factor.service.ts:37-94 | Acceptance, the fifth wrong guess, a newer code and an invalidation each kill a code |
| `TwoFactorCodes.ExpiredNeverAccepted` | apps/auth-service/src/services/two-factor.service.ts:54-102 | A code is never accepted after its expiry, however the run continues |
| `TwoFactorCodes.TwoFactorService.CreateCode` | apps/auth-service/src/services/two-factor.service.ts:37-52 | Exactly the admin's unused rows go; one fresh row comes last: unused, no attempts, expiring after the lifetime; equals the Create step |
| `TwoFactorCodes.TwoFactorService.ValidateCode` | apps/auth-service/src/services/two-factor.service.ts:54-87 | Valid exactly when the admin has an unused, unexpired row with the code. Only the admin's newest unused row can change, before its expiry: the right code uses it up now, a wrong one adds an attempt and the fifth uses it up |
| `TwoFactorCodes.TwoFactorService.InvalidatePreviousCodes` | apps/auth-service/src/services/two-factor.service.ts:89-94 | A row stays exactly when it is not an unused one of the admin, and no guess of the admin can match any more |
| `TwoFactorCodes.TwoFactorService.CleanupExpiredCodes` | apps/auth-service/src/services/two-factor.service.ts:96-102 | A row stays exactly when it is unexpired or used, and which guesses are accepted does not change |
| `TwoFactorCodes.AcceptedExactly` | apps/auth-service/src/services/two-factor.service.ts:54-87 | A guess is accepted **if and only if** the admin has an unused, unexpired row with that code |
| `CategoryCache.CoherentExactly` | apps/catalog-service/src/services/category.service.ts:25-275 | For every operation on a coherent cache: every cached category list still equals a fresh query **if and only if** the operation does not cache a category under a slug that is a list key |
| `CategoryCache.SlugListClobbers` | apps/catalog-service/src/services/category.service.ts:88-117 | A concrete run, on either kind of store: a category with the slug "list", fetched by it, replaces the cached list |
| `CategoryCache.AlwaysCoherent` | apps/catalog-service/src/services/category.service.ts:25-275 | Over any run without such slugs every cached list equals a fresh query, also on a store where pattern deletion does nothing |
| `CategoryCache.InvalidateClearsLists` | apps/catalog-service/src/services/category.service.ts:258-275 | Invalidation empties all three list keys on every store |
| `CategoryCache.FreshIsSortedFilter` | apps/catalog-service/src/services/category.service.ts:59-86 | A fresh query holds each matching row as often as the table does, and no other, in display order |
| `CategoryCache.ReorderAcceptsExactly` | apps/catalog-service/src/services/category.service.ts:222-234 | The size check accepts **if and only if** the ids are duplicate-free and all exist |
| `CategoryCache.ReorderAssigns` | apps/catalog-service/src/services/category.service.ts:236-243 | After an accepted reorder the i-th listed category has display order i and every other row is unchanged |
| `CategoryCache.SavingReorders` | apps/catalog-service/src/services/category.service.ts:236-243 | Saving the renumbered rows gives the reordered table with unique ids |
| `CategoryCache.Numbered` | apps/catalog-service/src/services/category.service.ts:236-241 | The numbering loop gives each loaded row the position of its id |
| `CategoryCache.CategoryService.ReorderCategories` | apps/catalog-service/src/services/category.service.ts:222-252 | Accepted exactly for duplicate-free lists of existing ids: each row takes the place of its id as display order, the others stay, the caches are emptied and the table is returned in its new order; otherwise nothing changes |
| `CategoryCache.CategoryService.FindAllCategories` | apps/catalog-service/src/services/category.service.ts:59-86 | On a coherent cache, hit or miss, the answer is the fresh query, and it is what the key of that query holds afterwards |
| `CategoryCache.CategoryService.FindCategoryBySlug` | apps/catalog-service/src/services/category.service.ts:88-117 | A hit returns what the key holds and changes nothing; a miss stores and returns a row with that slug, if there is one |
| `CategoryCache.CategoryService.FindCategoryById` | apps/catalog-service/src/services/category.service.ts:119-144 | The same by id, under the id key |
| `CategoryCache.CategoryService.CreateCategory` | apps/catalog-service/src/services/category.service.ts:25-57 | Refused, without a change, exactly when some row has the slug; otherwise the row is appended and the list keys are gone |
| `CategoryCache.CategoryService.UpdateCategory` | apps/catalog-service/src/services/category.service.ts:146-188 | Refused, without a change, exactly for a missing row or a new slug some row has; otherwise that row takes the values the request carries, the others stay, and the keys of the lists, the id, the old slug and the new slug are gone |
| `CategoryCache.CategoryService.DeleteCategory` | apps/catalog-service/src/services/category.service.ts:190-220 | Refused, without a change, exactly for a missing row or one with products; otherwise exactly this row is gone, with the keys of the lists, its id and its slug |
| `CategoryCache.CategoryService.InvalidateCategoryCache` | apps/catalog-service/src/services/category.service.ts:258-275 | Exactly which keys go: the three list keys, the id and slug keys when given, and every category key on a store with scans; all others hold what they held |
| `Cache.CacheStore.View` | libs/common/src/cache/cache.service.ts:23-36 | The cache as its users see it is the namespaced store with the namespace stripped |
| `Cache.CacheStore.Get` | libs/common/src/cache/cache.service.ts:23-36 | The value under the key, or a miss |
| `Cache.CacheStore.Set` | libs/common/src/cache/cache.service.ts:44-51 | Changes exactly one key of the view, and of the store the one under the namespace |
| `Cache.CacheStore.Delete` | libs/common/src/cache/cache.service.ts:57-64 | Removes exactly one key of the view, and of the store the one under the namespace |
| `Cache.CacheStore.DelByPattern` | libs/common/src/cache/cache.service.ts:71-98 | Whatever batches the scan returns, removes exactly the keys with the prefix; does nothing on a store without scans |
| `Cache.CacheStore.GetOrSet` | libs/common/src/cache/cache.service.ts:107-116 | A hit is the cached value, a miss stores and returns the factory's |

## Left out

- Liveness: the webhook controller swallows errors and the queues are not acknowledged, so no delivery is promised; the model lets messages be lost at any time.
- The admin status override of orders and the automatic confirmation in development, which set PAID without the webhook (apps/order-service/src/services/order.service.ts:571-664).
- Licence keys, activation tokens, activation and revocation of licences: the model counts and attributes licence rows only.
- Invoices, receipts and the resolution of an invoice for a purchase inside the webhook handlers, and the metadata fallbacks that find an order's contact: a parameter says whether the customer can be reached.
- PaymentWebhook.Backend.HandleWebhookEvent: describes one uninterrupted delivery; the interleavings of several are covered by the step machine it refines, not by running methods side by side.
- `ProductService.update`, which loads a possibly cached product and saves it whole, and `ProductService.create`, which toggles a new product and then saves its row whole: both can write back a stale featured flag, the first also a stale stock level.
- FeaturedReplication.FeaturedServices.ToggleFeatured: load, save and publish are one step, as in PersistConfig; two changes of one list that both load before either saves would lose an id and leave its flag on.
- FeaturedReplication.FeaturedServices.GetFullSyncSnapshot: the three lists are read in one step, where the service runs three queries.
- FeaturedReplication.FeaturedServices.SyncFeaturedFromTopProducts: the two updates for one message are one step; the attempts and delays of a failed reconcile are new reconciles at any time.
- Stock alerts, availability checks without a hold, and the product caches the stock service invalidates.
- StockLedger.StockService.ReserveStock: the check and the insert are one step; two calls at once could both pass the check.
- Order subtotals, tax and address snapshots, and Postgres' INTEGER range in the sequence cast: sequences are unbounded.
- OrderNumbers.OrderTable.SaveWithRetry: the local year is read from the clock once per attempt and is a parameter here; errors other than a unique violation are not modelled.
- Cart responses and their cache, adding, updating, removing and clearing items, and the expiry of guest carts.
- RefreshTokens.AuthService.RefreshToken: loading the token and saving it are one step; two refreshes with one token at once would both save its revocation time, the later one winning, and both get a new token.
- Admin refresh tokens, which another service issues without a cap; login failure counters, password and verification tokens, JWT signing and hashing.
- Subscriptions.SubscriptionServices.SyncFromStripe: the period start, the product name, the price and the language of a subscription are not part of the row.
- Random generation and hashing of two-factor codes: a code is identified with its hash.
- The MRR, average-cart and stock-status metrics, metric caches, and the percentages of change: members of one line each.
- The limits of time values (plus or minus 8.64e15 milliseconds) and the expanded year format outside years 0 to 9999: labels are built from the year, month and date.
- RevenueShares.Aggregate: the items of the paid orders in the range are given; the filter is the one of the sales series. JavaScript adds the amounts in floating point; the model adds them exactly.
- The caches of single categories by slug and by id are modelled but not claimed to be coherent: a read that started before an update can store what it read after the invalidation.
- CategoryCache.CategoryService.FindAllCategories: reading the table and storing the answer are one step, so a slow reader that stores a stale list is not modelled; product counts joined into the query are left out.
- Cache errors, which the service swallows: cache operations succeed here. Expiry of an entry can happen between any two steps.
- The api gateway, controllers, validators, migrations, seeds, mail rendering, file storage and Stripe calls.
