# Warehouse order and stock engine: a verified model

This project models, in Dafny, how the warehouse system moves orders and stock through its database tables, and proves what every run of its handlers keeps. A handler is a method over the tables it updates, proved equal to a function on table values. Where interleaving matters it is also a state machine whose steps are the handler's SQL statements. Properties are stated over those functions and over every run of those machines. Where a promised property does not hold for all inputs, the condition under which it holds is proved, in both directions where the table says "exactly"; the direction that fails is a run that breaks the property.

| file | what it covers |
|---|---|
| `Wrappers.dfy`, `Sums.dfy`, `Decimal.dfy` | options, sums over table rows, decimal numerals |
| `PosModel.dfy`, `PosStore.dfy` | POS checkout, refund, reference ingest, validate-cart: as functions on tables, and as the source's loops and rollbacks |
| `PosStockGate.dfy` | the line-by-line stock gate and validate-cart |
| `PosLedger.dfy`, `PosRuns.dfy`, `PosPlaces.dfy` | stock and refund ledgers over whole runs, per item and per bin |
| `PosMachine.dfy`, `PosPlans.dfy`, `PosConcurrency.dfy`, `PosDeadlock.dfy` | interleaved checkouts, refunds and ingests: sequence, unique indexes, row locks; serializability, and when they can deadlock |
| `Dockd.dfy`, `DockdRuns.dfy`, `DockdKeys.dfy` | ship and void-ship, alone and interleaved, with the 72-hour sentinel cleanup |
| `Polling.dfy`, `Acks.dfy` | event paging behind the visibility gate; racing cursor acknowledgements |
| `Receiving.dfy`, `ReceivingLedger.dfy`, `ReceivingRaces.dfy`, `ReceivingStatuses.dfy` | receipts and their reversal; racing cancels, and the order statuses they leave |
| `ChannelAvailability.dfy` | the reconciliation sweep, overlapping sweeps, and the publisher |
| `Base64Url.dfy`, `Snapshot.dfy`, `SnapshotScans.dfy`, `SnapshotRaces.dfy` | keyset paging with an encoded cursor, frozen and live; racing first pages and the keeper |
| `LoginLockout.dfy`, `LoginRaces.dfy` | login attempts, lockout, cleanup; logins that overlap |
| `Connector.dfy` | retry loop, circuit breaker, rate-limit state |
| `Ean.dfy`, `ProvisionalSku.dfy`, `BinLayout.dfy`, `PreferredBins.dfy` | check digit, SKU search, layout mirror, preferred bins |

Conventions. A handler that fails leaves the committed tables as they were (`api/middleware/db.py:13-29`); order ids come in from the sequence, which leaves gaps. Request bodies stand for their own SHA-256. Times are integers or reals handed in by the caller. Field bounds checked before a handler starts are preconditions (`ValidCheckout`, `ValidRefund`, `ValidEntries`).

Where the code and its documentation disagree the model follows the code:

- Refunds accrue per item, not per bin: stock goes "back to the original bin", but two partial refunds can return more to one bin than it sold (`PosPlaces.PlaceBoundExactly` says exactly when).
- A finished refund sets the sale to REFUNDED; a comment on the second-refund gate (`api/routes/pos.py:1553`) still speaks of CANCELLED.
- The dockd replay check compares endpoint and body, not the order number, so one key used on a second order replays the first order's answer (`Dockd.ReplayIgnoresTheOrder`).
- A dockd key is meant to take effect once; the cleanup frees it, and then it can ship the same order again (`DockdKeys.OnceExactlyUnlessPruned`).
- The visibility gate of migration 020 does not by itself give exactly-once paging; stamps must also rise with event ids (`Polling.NothingMissedExactlyWhenInOrder`).
- Only what the token can read can be acked, but an event committed below an id already committed slips past (`Acks.OnlyReadableExactly`).
- Two cancels of one receipt can both read it before either deletes it, and both reverse it (`ReceivingRaces.RaceIsHarmlessExactly`).
- Two cancels of different lines of one order can each see the other's line as still received; both then write PARTIAL, although every line is at zero (`ReceivingStatuses.TwoCancelsSettleExactly`, `ReceivingStatuses.EmptyOrderStaysPartial`).
- A token may have one snapshot scan in flight; the count and the insert are not locked together, so that cap holds exactly while no two of its first-page requests overlap in between (`SnapshotRaces.OneScanPerToken`).
- The login limit is read before the password is checked and counted after, so each login in flight beyond the first can add one password check to MAX_LOGIN_ATTEMPTS (`LoginRaces.RacesBoundedExactly`, `LoginRaces.BoundIsReached`).
- Row locks are sorted to prevent deadlock; a refund and a replacement of its sale under one key block each other all the same (`PosDeadlock.RivalsDeadlockExactly`).
- A receiving cancel that reverses nothing still rewrites the order's status and so reopens a closed purchase order (`ReceivingLedger.ClosedOrderReopens`).
- Snapshot paging promises the whole table; a page that ends between two lots of one (item, bin) loses the second (`Snapshot.WholeTableExactlyWhenUnique`).
- The breaker opens "after 5 consecutive failures", but a call that ends in three network errors counts four, and a call still answered 429 at the end counts as a success.

## Model

| member | source | states |
|---|---|---|
| PosStockGate.GateMeaning | api/routes/pos.py:1113-1240 | the line-by-line gate, updating stock as it goes, accepts exactly when at every location the summed demand fits, and then charges exactly the sums |
| PosStockGate.GateOrderIrrelevant | api/routes/pos.py:1113-1158 | any processing order of the lines gives the same verdict and the same stock |
| PosStockGate.SortedIsOrderedPermutation | api/routes/pos.py:1116-1120 | the lock order is a sorted permutation of the lines |
| PosStockGate.CheckoutGateMeaning | api/routes/pos.py:1113-1240 | what checkout does to stock, said without the sort and without the loop |
| PosStockGate.AcceptedExactly | api/routes/pos.py:697-882 | a counter or phone sale under a free key and number succeeds exactly when all lines are in scope, resolve, and fit together |
| PosStockGate.ConflictsComplete | api/routes/pos.py:461-560 | validate-cart reports every bad line, with its reason, and no good one |
| PosStockGate.NoConflictsMeansAllClear | api/routes/pos.py:315-352 | an empty report means each line alone is in scope, active, resolvable and covered by stock |
| PosStockGate.VerdictsAgreeExactly | api/routes/pos.py:492-555 | validate-cart and checkout agree on every stock exactly when no location repeats in the cart |
| PosStockGate.ValidateCartPredictsCheckout | api/routes/pos.py:461-560 | checkout succeeding implies a clear report; a clear report implies checkout succeeds if no location repeats |
| PosLedger.GateBalance | api/routes/pos.py:1113-1240 | a passed gate moves exactly the demanded units per item and keeps 0 <= reserved <= on hand on every row |
| PosLedger.PutBackBalance | api/routes/pos.py:1862-1932 | a restock adds exactly the refunded units per item and keeps the row bounds |
| PosLedger.CheckoutAccepted | api/routes/pos.py:1047-1240 | an accepted checkout adds one order with one key and one number, with the lines, status and stock its mode asks for |
| PosLedger.CheckoutKeepsInv | api/routes/pos.py:623-1370 | checkout, accepted or not, keeps all tables consistent (lines match the cart, rows in bounds, indexes agree) |
| PosLedger.RefundAccepted | api/routes/pos.py:1552-1765 | an accepted refund passed every gate on the original order and books one memo for what was asked |
| PosLedger.GuardCoversAllItems | api/routes/pos.py:1664-1765 | the guard, which loops only over requested items, bounds every item of the sale; it completes exactly when every item is equal |
| PosLedger.RefundKeepsInv | api/routes/pos.py:1436-2024 | refund, accepted or not, keeps all tables consistent |
| PosLedger.ReferenceKeepsInv | api/routes/pos.py:2041-2189 | reference ingest keeps all tables consistent |
| PosRuns.RunKeepsInv | api/routes/pos.py:623-2189 | every run of checkouts, refunds and reference ingests keeps the tables consistent |
| PosRuns.StockIsConserved | api/routes/pos.py:1047-1070 | over every run, on hand plus shipped POS quantity (memos negative) is constant per item, reserved grows exactly by phone-line reservations, and every row stays in bounds |
| PosRuns.RefundsNeverExceedTheSale | api/routes/pos.py:1724-1765 | in every reached state each sale's memos per item lie between zero and what was sold, and the sale is REFUNDED exactly when every item is equal |
| PosRuns.RefundedIsFinal | api/routes/pos.py:1552-1577 | from then on the sale never changes and every refund of it under a new key is refused |
| PosRuns.RetriesReplay | api/routes/pos.py:663-691 | a retry at any later time changes nothing and returns the stored receipt; another body under the key is refused |
| PosPlaces.PlaceBoundExactly | api/routes/pos.py:1664-1720 | no run returns more to a bin than it sold there exactly when every item of the cart came from one place |
| PosPlaces.OnePlaceIsSafe | api/routes/pos.py:1664-1720 | with one place per item no bin ever gets back too much |
| PosPlaces.TwoPlacesOverflow | api/routes/pos.py:1664-1765 | with an item from two places, two accepted refunds push one bin past what it sold |
| PosPlaces.FullRefundRestoresStock | api/routes/pos.py:1862-1963 | a counter sale and its full refund leave the shelf exactly as it was and the sale REFUNDED |
| PosPlaces.TakeThenPutBack | api/routes/pos.py:1862-1932 | restocking what a passed gate took restores every row |
| PosPlaces.PutBackMeaning | api/routes/pos.py:1862-1932 | the restock loop adds, at each location, the sum of its lines |
| PosStore.Store.CheckLines | api/routes/pos.py:697-882 | the validation loops answer exactly as the specification, in its order of errors |
| PosStore.Store.SellLines | api/routes/pos.py:1113-1240 | the locked loop writes lines and stock as the gate on the sorted lines does, or fails when it does |
| PosStore.Store.Checkout | api/routes/pos.py:623-1370 | the handler with its rollbacks has exactly the state and reply of the checkout function |
| PosStore.Store.ReturnLines | api/routes/pos.py:1862-1932 | the restock loop writes negative memo lines and puts stock back as specified |
| PosStore.Store.CheckPlaces | api/routes/pos.py:1664-1720 | the per-place loop accepts exactly when each requested place sold at least what is asked |
| PosStore.Store.CheckRemainder | api/routes/pos.py:1724-1765 | the cumulative loop accepts exactly when booked memos plus this request fit what was sold, per item |
| PosStore.Store.Refund | api/routes/pos.py:1436-2024 | the handler with its rollbacks has exactly the state and reply of the refund function |
| PosStore.Store.Book | api/routes/pos.py:1790-2024 | memo order, lines, restock, status and key are written together or not at all |
| PosStore.Store.ReferenceOrders | api/routes/pos.py:2041-2189 | an ingest writes the known lines once per order number |
| PosStore.TallyLines | api/routes/pos.py:1664-1720 | the dictionaries filled by the loop hold the sums per place and per item |
| PosStore.ValidateCart | api/routes/pos.py:461-560 | the loop collects exactly the specified conflicts, in line order |
| PosConcurrency.KeysTakeEffectOnce | api/routes/pos.py:884-1040 | in every interleaving a key (for an ingest, a number) commits at most once, every 200 carries that commit's receipt, a 409 means another body holds the key, no committed row lacks its cached body, and only a commit takes a key |
| PosConcurrency.RunsAreSerializable | api/routes/pos.py:1113-1370 | in every interleaving the tables are those of the whole checkout, refund and ingest handlers run one after another in commit order; each commit has the effect and the answer of its handler at that moment |
| PosConcurrency.StockIsConservedInterleaved | api/routes/pos.py:1047-1070 | on hand plus shipped and reserved minus promised stay constant per item, and rows in bounds, in every interleaving |
| PosConcurrency.RefundsNeverExceedInterleaved | api/routes/pos.py:1722-1765 | however refunds of a sale race, also of one made during the run, its memos stay within what it sold and it is REFUNDED exactly when all is given back |
| PosConcurrency.ChildNumbersAreCurrent | api/services/sales_order_service.py:99-122 | the unlocked count that numbers a child cannot get a stale number in: whoever is past the insert has a free number, the one a count taken now gives |
| PosConcurrency.RefusalsAreTheHandlers | api/routes/pos.py:663-1240 | a refusal in the middle of a race is the one the whole handler would give then, unless a peer took the key meanwhile or the number was taken since it was minted |
| PosPlans.CarriedOut | api/routes/pos.py:1790-2024 | committing what a request prepared from earlier reads is one step of its handler, if key, number, id and stock still allow it |
| PosPlans.PlanAfter | api/services/sales_order_service.py:99-105 | another request's commit leaves those reads valid, or has taken the very number they led to |
| PosConcurrency.LostInsertFindsAnswer | api/routes/pos.py:1000-1040 | after losing the blocking insert the re-read always finds a committed answer |
| PosConcurrency.CommittedKeyAnswersAtOnce | api/routes/pos.py:663-691 | the warm read answers from the committed row and from nothing else |
| PosConcurrency.FailedKeyIsFree | api/routes/pos.py:884-1010 | a failed attempt leaves the key free for the next one |
| PosDeadlock.NoDeadlock | api/routes/pos.py:1113-1140 | with sale rows, keys, numbers, parent rows and sorted inventory rows locked, some unfinished request can always run its next statement, as long as no refund shares its key with a replacement or exchange |
| PosDeadlock.RivalsDeadlockExactly | db/migrations/056_sales_orders_pos_columns.sql:75-81 | a refund and a replacement of its sale, retried at will, can stop for good exactly when they come under one key |
| Dockd.Server.Claim | api/routes/dockd.py:440-577 | replay, operator check, sentinel insert and order lock answer as specified and otherwise claim exactly one row |
| Dockd.Server.ShipOrder | api/routes/dockd.py:388-706 | the ship handler has exactly the state and reply of its specification; a failure leaves no sentinel |
| Dockd.Server.VoidShip | api/routes/dockd.py:710-955 | the void handler likewise; it voids the latest SHIPPED fulfillment and restores its recorded status |
| DockdKeys.KeysTakeEffectOnce | api/routes/dockd.py:440-577 | in every interleaving of ships, voids, retries and aborts, of any length, a (token, key) the cleanup has not touched takes effect at most once |
| DockdKeys.SecondEffectNeedsPrune | api/jobs/cleanup_tasks.py:408-421 | between two effects of one key its sentinel was pruned |
| DockdKeys.RetryBeforePruneReplays | api/routes/dockd.py:370-386 | until then every request with the key gets the stored response, or a refusal of another endpoint or body |
| DockdKeys.OnceExactlyUnlessPruned | api/jobs/cleanup_tasks.py:408-421 | a key that can ship an order which another key can void takes effect at most once in every run exactly when the cleanup is kept from it |
| DockdKeys.PrunedKeyShipsAgain | api/jobs/cleanup_tasks.py:408-421 | the run that does it: ship, retention, cleanup, void under another key, ship again |
| DockdRuns.AnswersReportEffects | api/routes/dockd.py:440-577 | with a cleanup that deletes rows past 72 hours two effects of a key are more than 72 hours apart, every sentinel holds the response of its key's latest effect, and every success reports an effect of its own key |
| DockdRuns.CommitsAreHandlers | api/routes/dockd.py:440-706 | each commit equals one whole handler run on the committed tables |
| DockdRuns.OrdersFollowTheirHistory | api/routes/dockd.py:873-955 | ships and voids of an order strictly alternate, a void restores the status its ship found, and a SHIPPED order has exactly one SHIPPED fulfillment unless it was SHIPPED from the start |
| DockdRuns.ShipFollowsHistory | api/services/shipping_service.py:235-470 | a ship leaves exactly one live fulfillment, remembering the status it replaced |
| DockdRuns.VoidFollowsHistory | api/services/shipping_service.py:725-800 | a void follows a ship, restores its remembered status and leaves no live fulfillment |
| DockdRuns.PrunedIsOld | api/jobs/cleanup_tasks.py:408-421 | the cleanup deletes a key only after the retention has passed for all its effects |
| Polling.NothingMissedExactlyWhenInOrder | api/routes/polling.py:65-113 | no client, whatever its start, limits and poll times, misses or repeats an event if and only if events in its scope become readable in id order |
| Polling.ReceivedExactlyOnce | api/routes/polling.py:235-249 | then it has received exactly the in-scope events up to its cursor, once each, in id order |
| Polling.GateGivesOrder | db/migrations/020_integration_events.sql:19-27 | stamps that do not fall with ids and commits within the two seconds give that order |
| Polling.GateAloneIsNotEnough | db/migrations/020_integration_events.sql:86-98 | a lower id stamped later is lost to a poll in between |
| Polling.OvertakenIsMissed | api/routes/polling.py:79-83 | any pair that becomes readable out of order is lost by some poll |
| Polling.PartialPageMeansCaughtUp | api/routes/polling.py:10-14 | a page shorter than the limit means everything readable at that moment was received |
| Polling.PollingCatchesUp | api/routes/polling.py:245-249 | one poll more than there are rows always catches up, for every limit |
| Polling.NoSilentIntersection | api/routes/polling.py:192-203 | a filter outside the token's scope is refused, and an accepted page holds only what was asked |
| Polling.InPage | api/routes/polling.py:79-113 | a page holds exactly the readable matching rows between the cursor and its own next_cursor |
| Acks.Outbox.AckCursor | api/routes/polling.py:263-367 | the handler has exactly the effect and reply of its specification |
| Acks.Outbox.AnyOutOfScope | api/routes/polling.py:323-343 | the EXISTS query finds exactly whether some event in the range is out of scope |
| Acks.CursorsNeverGoBack | api/routes/polling.py:347-353 | in every interleaving a stored cursor never decreases |
| Acks.CursorIsFurthestAck | api/routes/polling.py:305-353 | the cursor is the maximum of its start and the accepted acks and never passes the greatest event id |
| Acks.OnlyReadableIsPassed | api/routes/polling.py:305-353 | every event a cursor passed was in scope of a token whose ack covered it, or was committed below an id already committed |
| Acks.NothingIsLate | api/routes/polling.py:305-314 | over a table whose ids rise in commit order there is no such exception |
| Acks.LateEventEscapes | api/routes/polling.py:323-353 | any event committed below an id already committed is passed by an ack, of any token, checked just before |
| Acks.OnlyReadableExactly | api/routes/polling.py:305-353 | over a commit order no run of a token's acks, from any start, passes an event outside its scope exactly when every event committed below an id already committed is in its scope |
| Acks.NothingEscapesExactly | api/routes/polling.py:305-353 | with acks of any tokens, every event passed was covered by an ack of a token that may read it exactly when ids rise in commit order |
| Acks.ConnectorsAreIsolated | api/routes/polling.py:294-299 | a token bound to a connector never moves another connector's group |
| Acks.AckOfAPage | api/routes/polling.py:235-249 | acking a page's next_cursor succeeds exactly when the token could read every event in between, whatever the subscription filtered out |
| Receiving.Desk.ReceiveItems | api/routes/receiving.py:116-420 | the handler has exactly the state and receipt ids of its specification; an error rolls back |
| Receiving.Desk.ReceiveEntries | api/routes/receiving.py:183-310 | the per-item loop, stopping at the first error |
| Receiving.Desk.ReceiveEntry | api/routes/receiving.py:183-310 | one turn of it: an error changes nothing, otherwise receipt, line and stock of the entry |
| Receiving.Desk.CheckEntry | api/routes/receiving.py:191-243 | bin, line and over-receipt checks, with the bin memo changing no verdict |
| Receiving.Desk.TakeIn | api/routes/receiving.py:245-310 | receipt row, line quantity and status, and stock of one entry |
| Receiving.Desk.CancelReceiving | api/routes/receiving.py:444-580 | the handler has exactly the state of its specification and reports the number of receipts removed |
| ReceivingLedger.RunKeepsBooks | api/routes/receiving.py:183-310 | over every run, each line's received quantity is the sum of its live receipts, line statuses follow, and stock from other sources is untouched |
| ReceivingLedger.ClampsNeverBite | api/routes/receiving.py:521-542 | at every reversal shelf and line hold at least the received quantity |
| ReceivingLedger.StatusesStaySettled | api/routes/receiving.py:401-420 | an order status that says what its lines say does so after every run of whole handlers |
| ReceivingLedger.ReceiveTakesIn | api/routes/receiving.py:246-420 | a receive adds exactly one receipt per entry and touches no other order |
| ReceivingLedger.CancelKeeps | api/routes/receiving.py:461-563 | a cancel is refused exactly when a visible listed receipt belongs to another order, and otherwise removes exactly the listed receipts in scope |
| ReceivingLedger.CancelUndoesReceive | api/routes/receiving.py:444-580 | cancelling a batch's ids in any order and with repeats restores receipts, lines, statuses and stock |
| ReceivingLedger.IdleCancelIsHarmlessExactly | api/routes/receiving.py:549-563 | a cancel that reverses nothing leaves the state alone exactly when the order is unknown or its status already fits its lines |
| ReceivingLedger.ClosedOrderReopens | api/routes/receiving.py:549-563 | an unknown receipt id reopens a closed purchase order |
| ReceivingLedger.PutAwayThenCancelLeavesStock | api/routes/receiving.py:521-528 | goods put away before the cancel stay in stock though their receipt is gone |
| ReceivingRaces.FreshCancelsKeepBooks | api/routes/receiving.py:485-563 | in every interleaving of cancels, read by read, with receives, the books stay right while every cancel that commits finds what it read |
| ReceivingRaces.StaleExactlyWhenRaced | api/routes/receiving.py:489-545 | a receipt a cancel has read is gone at its commit exactly when another cancel that had read it committed in between |
| ReceivingRaces.RaceIsHarmlessExactly | api/routes/receiving.py:518-545 | however many cancels of one receipt race, it is reversed at most once exactly when it is all there is on its shelf and its line |
| ReceivingStatuses.StatusesStayRight | api/routes/receiving.py:549-563 | in every interleaving, also with receipts reversed twice, a settled order stays settled as long as no other cancel of it commits, and no receive of it runs, between a cancel's status read and its commit |
| ReceivingStatuses.CommitSettlesExactly | api/routes/receiving.py:549-563 | a commit leaves an order settled exactly when the status it recorded is what the lines say with its reversals taken off the lines now committed |
| ReceivingStatuses.TwoCancelsSettleExactly | api/routes/receiving.py:549-563 | two cancels of one order, each of a receipt of its own, leave its status right in every run exactly when the receipts are of one line or the order has the same status with either or both reversed |
| ReceivingStatuses.EmptyOrderStaysPartial | api/routes/receiving.py:549-563 | the last two receipts of an order, on different lines: a run of their two cancels ends with every line at zero and the order PARTIAL |
| ReceivingLedger.ReceiptsDecideTheState | api/routes/receiving.py:521-545 | equal live receipts mean equal lines and equal stock |
| ChannelAvailability.Channel.Recompute | api/services/channel_availability_service.py:57-154 | the upsert writes the live number with fresh, distinct, higher versions on exactly the changed rows |
| ChannelAvailability.Channel.Upsert | api/services/channel_availability_service.py:138-152 | one row written; an update draws two versions, an insert one |
| ChannelAvailability.FullSweepAgrees | api/services/channel_availability_service.py:112-137 | a full sweep makes every published item's row equal live stock, bumping only rows whose number moved |
| ChannelAvailability.SecondSweepIsIdle | api/services/channel_availability_service.py:23-27 | an immediate second sweep bumps nothing and draws no version |
| ChannelAvailability.RestrictedSweepIsEnough | api/services/channel_availability_service.py:57-66 | if the table agreed and stock moved only at given items, the sweep restricted to them bumps the same rows as a full sweep |
| ChannelAvailability.RestrictedSweepExactly | api/services/channel_availability_service.py:121-137 | a restricted sweep reaches agreement exactly when nothing stale lies outside its items |
| ChannelAvailability.OlderSweepLast | api/services/channel_availability_service.py:112-154 | an overlapping sweep with an older snapshot that writes last leaves agreement exactly when no published item it upserts moved between the snapshots |
| ChannelAvailability.NewerSweepLast | api/services/channel_availability_service.py:112-154 | when the newer one writes last, agreement is lost exactly at items the older upserts and the newer took to be right |
| ChannelAvailability.NothingIsDropped | api/services/connector_publisher/publish.py:80-102 | in every interleaving of overlapping sweeps and publishing, a row whose number the sink does not hold is dirty |
| ChannelAvailability.VersionsRiseWithTheNumber | api/services/channel_availability_service.py:23-27 | versions never fall and strictly rise when the number moves |
| Base64Url.StrippedRoundTrip | api/routes/snapshot.py:72-82 | decoding after stripping and restoring the padding gives the bytes back |
| Base64Url.RoundTrip | api/routes/snapshot.py:72-82 | the padded encoding round-trips for every byte string |
| Snapshot.CursorRoundTrip | api/routes/snapshot.py:72-91 | every cursor decodes to what was encoded |
| Snapshot.CursorCodecRoundTrips | api/routes/snapshot.py:72-91 | the cursor's encoding meets what the scans below ask of it |
| Snapshot.WholeTableExactlyWhenUnique | api/routes/snapshot.py:341-415 | the pages of every limit join to the sorted table exactly when its (item, bin) keys are unique |
| Snapshot.NoRowTwice | api/routes/snapshot.py:341-415 | no row is returned twice |
| Snapshot.EveryKeyReached | api/routes/snapshot.py:341-415 | every key is reached, also where several lots share it |
| Snapshot.PagesAreFew | api/routes/snapshot.py:247-268 | paging ends, with at most one page more than rows |
| Snapshot.LiveKeysRise | api/routes/snapshot.py:127-159 | in live mode, however rows move between pages, no key is returned by two pages |
| Snapshot.LiveReachesSteadyKeys | api/routes/snapshot.py:127-159 | a live scan that ended returned every key present throughout |
| SnapshotScans.SnapshotApi.SnapshotInventory | api/routes/snapshot.py:101-283 | the handler's reply and scan row match the specification on every branch |
| SnapshotScans.SnapshotApi.LiveInventory | api/routes/snapshot.py:118-159 | the live branch's reply matches its specification on every cursor |
| SnapshotScans.FollowLiveServesThePages | api/routes/snapshot.py:118-159 | through any encoding that round-trips a live client receives exactly the live keyset pages, whatever the rows do in between |
| SnapshotScans.WholeScan | api/routes/snapshot.py:161-283 | following every cursor, through any encoding that round-trips, yields exactly the keyset pages and ends the scan as done |
| SnapshotScans.FollowServesThePages | api/routes/snapshot.py:161-268 | the same from any cursor of an active scan |
| SnapshotRaces.InFlightWithinOverlap | api/routes/snapshot.py:185-225 | in every interleaving of count, insert, poll, time-out, crash, later pages and the keeper's promotions, reaps and restarts, a token's scans in flight never exceed the largest number of its first-page requests that were between count and insert at once (or the scans it had at the start) |
| SnapshotRaces.OverlapShows | api/routes/snapshot.py:189-225 | k requests that all count before the first inserts end with k scans in flight, for every k |
| SnapshotRaces.CapHoldsExactly | api/routes/snapshot.py:189-225 | with at most k such requests overlapping, a token keeps to c scans in every run exactly when k <= c |
| SnapshotRaces.OneScanPerToken | api/routes/snapshot.py:185-211 | the documented cap of one is kept in every run exactly when no two such requests overlap |
| SnapshotRaces.ActiveScansAreHeld | api/services/snapshot_keeper.py:182-251 | in every interleaving at most four scans are active, and the keeper holds the exporting transaction of each |
| SnapshotRaces.SoloRunIsBegin | api/routes/snapshot.py:185-283 | run alone, the steps can all be taken and end with the scans and the reply of the handler's first page |
| LoginLockout.LoginAttempts.CheckRateLimit | api/routes/auth.py:45-58 | locked exactly while locked_until lies ahead |
| LoginLockout.LoginAttempts.RecordFailure | api/routes/auth.py:61-97 | the row after a failure, whether it locked, and the attempts remaining |
| LoginLockout.LoginAttempts.Authenticate | api/routes/auth.py:110-153 | the login handler has exactly the rows and reply of its specification |
| LoginLockout.LoginAttempts.CleanUp | api/jobs/cleanup_tasks.py:61-71 | a row stays exactly when it is not expired, unchanged, and the count returned is the number of rows gone |
| LoginLockout.WindowBoundedExactly | api/routes/auth.py:45-97 | in every half-open window of the lockout length without a success at most MAX_LOGIN_ATTEMPTS passwords are checked per key, with cleanup interleaved, exactly when rows are retained for at least the lockout or one failure locks |
| LoginRaces.RacesBoundedExactly | api/routes/auth.py:110-140 | with check and record as separate steps, in every interleaving of logins and cleanup such a window without a recorded success sees at most MAX_LOGIN_ATTEMPTS password checks per key, and one more for each login in flight beyond the first at the busiest time, exactly under the same condition |
| LoginRaces.BoundIsReached | api/routes/auth.py:110-140 | that bound is reached for every number of logins in flight |
| LoginRaces.InTurnAgrees | api/routes/auth.py:110-153 | logins taken in turn leave the rows and make the password checks of the whole handlers |
| LoginLockout.ChecksAreGuarded | api/routes/auth.py:45-97 | the bound, with the row that guards the rest of the window |
| LoginLockout.EarlyCleanupForgets | api/jobs/cleanup_tasks.py:61-71 | a retention shorter than the lockout allows nearly twice the bound |
| LoginLockout.OnlyLockKeysLock | api/routes/auth.py:61-72 | a username-only key never locks |
| LoginLockout.OthersCannotLock | api/routes/auth.py:116-127 | other (IP, username) pairs never touch this pair's row, except by its expiry |
| LoginLockout.UserAndLockKeysDiffer | api/routes/auth.py:38-42 | a username key never equals an (IP, username) key, hashed or not |
| LoginLockout.LockKeysDiffer | api/routes/auth.py:38-42 | different pairs have different keys |
| Connector.BaseConnector.MakeRequest | api/connectors/base.py:171-272 | the call's state, outcome, request count and sleeps are those specified, and the trailing return is never taken |
| Connector.BaseConnector.RetryLoop | api/connectors/base.py:221-272 | the retry loop refines the recursive specification |
| Connector.BaseConnector.TakeAnswer | api/connectors/base.py:236-265 | one answer: rate-limit headers, Retry-After consumed, breaker updated |
| Connector.BaseConnector.NoteFailure | api/connectors/rate_limiter.py:166-177 | a failure counts, and opens or re-opens the breaker |
| Connector.NeverFallsThrough | api/connectors/base.py:267-272 | the return behind the loop is unreachable and a call sends at most three requests |
| Connector.OneWaitPerRetry | api/connectors/base.py:223-257 | exactly one sleep between two requests of a call and none after the last |
| Connector.FailingServerIsSpared | api/connectors/rate_limiter.py:139-177 | against a server that only fails, calls starting within a stretch D are at most threshold + D / cooldown and send at most three requests each |
| Connector.OpenAtThresholdExactly | api/connectors/rate_limiter.py:159-181 | in every run the breaker is open exactly at failures >= threshold, if and only if the threshold is at least one |
| Connector.FailedCallCounts | api/connectors/base.py:223-270 | a failed call records one failure per network error and one more |
| Connector.ExhaustedRateLimitClosesBreaker | api/connectors/base.py:244-265 | a call still rate limited on its last attempt resets the breaker |
| Ean.IsSearchableEan | api/routes/catalog_discovery.py:24-34 | the loop accepts exactly the four lengths with the right check digit |
| Ean.ValidMeaning | api/routes/catalog_discovery.py:30-34 | the check digit is right exactly when the full weighted sum is a multiple of ten |
| Ean.OneCheckDigit | api/routes/catalog_discovery.py:30-34 | exactly one check digit completes each body |
| Ean.SingleChangeIsCaught | api/routes/catalog_discovery.py:30-34 | every single-digit change is rejected |
| Ean.SwapIsMissedExactly | api/routes/catalog_discovery.py:30-34 | a swap of neighbours is missed exactly when they are congruent modulo five |
| Ean.LeadingZeros | api/routes/catalog_discovery.py:21-34 | leading zeros change nothing |
| ProvisionalSku.FreeSku | api/routes/inventory.py:345-353 | the probe loop ends within two probes more than there are SKUs, on the first free SKU of its sequence |
| ProvisionalSku.CandidatesDiffer | api/routes/inventory.py:350-353 | suffixed candidates are pairwise distinct despite truncation |
| ProvisionalSku.FreeSkuFits | api/routes/inventory.py:345-353 | in a catalogue below 10^49 - 2 items the SKU found fits the column |
| ProvisionalSku.BaseSkuFits | api/routes/inventory.py:60-66 | the base SKU has 6 to 50 characters, all safe |
| BinLayout.Warehouse.StorageBins | api/routes/inbound.py:813-967 | refusals, counts, zone and bins of a request; a dry run or a refusal changes nothing |
| BinLayout.Warehouse.Validate | api/routes/inbound.py:813-837 | a request is refused exactly when a row is invalid or two codes fold alike |
| BinLayout.Warehouse.Mirror | api/routes/inbound.py:893-943 | the loop over the rows produces the specified layout and counts |
| BinLayout.DryRunPredicts | api/routes/inbound.py:893-943 | a dry run predicts the counts of the real run, also when the zone is still to be created |
| BinLayout.Count | api/routes/inbound.py:886-943 | created, updated and unchanged add up to the desired rows |
| BinLayout.SecondRunIsIdle | api/routes/inbound.py:893-943 | the same request again creates and updates nothing and leaves every bin as it is |
| BinLayout.ReplaceLeavesExactlyTheRequested | api/routes/inbound.py:868-881 | after a replace the active codes are exactly the requested ones, up to case |
| PreferredBins.PutAway.Update | api/routes/putaway.py:419-512 | the handler has exactly the rows and reply of its specification |
| PreferredBins.PutAway.SuggestBin | api/routes/putaway.py:209-303 | the visible bin of least priority, else the default bin if visible |
| PreferredBins.PromoteMovesToFront | api/routes/putaway.py:481-508 | set-as-primary is one move to front: the others keep their order and priority 1 is unique |
| PreferredBins.HistoryIsMoveToFront | api/routes/putaway.py:481-508 | over every history the priority order is the promoted bins, latest first, then all others as before |
| PreferredBins.SuggestsMostRecentlyPromoted | api/routes/putaway.py:221-266 | put-away suggests the first bin of that list in the user's warehouses |
| Decimal.DigitsInjective | api/routes/inventory.py:350-353 | different numbers have different numerals |

## Left out

- HTTP, authentication decorators, response headers, rate-limit middleware and audit hash chain: plumbing around the handlers.
- SQL text and Postgres: tables are maps or sequences, row locks and unique constraints are guards of steps, SELECT aggregates are functions; isolation is read committed, one statement a step.
- Lots: one inventory row per (item, bin), except in snapshot paging.
- Money columns, tender details beyond equality, exchange returns and `returned_items`: archival or defined elsewhere.
- Event emission from the handlers, Teams notifications and the release of waiting backorders by a receive.
- Picking, packing and inbound mapping: in `DockdRuns` they appear as arbitrary status changes of unshipped orders.
- Sequence gaps: a failed receive leaves `nextId` where it was, although the database would have drawn from the sequence; an id a refused checkout or refund has drawn is simply not used.
- Lock timeouts: an abort may strike any unfinished request at any step.
- PosStore.Store.Checkout: an exchange's `returned_items`, with their two refusals and the return order they create, are left out.
- PosConcurrency.RunsAreSerializable: every check a handler makes on the locked sale, and a child's parent lookup and count, are one step each; order lines become visible with their order at the commit; an ingest passes through the same steps.
- PosDeadlock.NoDeadlock: a bin belongs to one warehouse; an INSERT takes its key and number together, then checks its parent.
- PosPlaces.PlaceBoundExactly: for counter sales that have not been refunded yet.
- DockdKeys.KeysTakeEffectOnce: the cleanup is a step of its own that may strike any sentinel past the retention.
- DockdRuns.OrdersFollowTheirHistory: the latest fulfillment is found by list position, not by timestamp; corrective ships by an administrator are left out.
- Polling.ReceivedExactlyOnce: one scope for the whole run; the heartbeat column and its throttle are not modelled.
- Acks.OnlyReadableIsPassed: weaker for events committed below an id already committed, which the code does let through; `Acks.OnlyReadableExactly` says when that happens.
- Receiving.Desk.ReceiveItems: one line per item on an order, where the source takes an arbitrary one; warnings are not returned.
- ReceivingRaces.FreshCancelsKeepBooks: the writes of one cancel appear together at its commit, as its row locks keep others off until then; its receipts are all read before its writes; receives are one step; order statuses are the subject of `ReceivingStatuses`.
- ReceivingLedger.StatusesStaySettled: whole handlers only; `ReceivingStatuses` has the racing cancels.
- ReceivingStatuses.StatusesStayRight: the line statuses a receive reads for its order status are read with its commit; a cancel that meets a lock conflict waits before its status read.
- ReceivingStatuses.TwoCancelsSettleExactly: two cancels with one receipt each by administrators.
- ChannelAvailability.NothingIsDropped: one publisher with one batch in flight; backoff times are not modelled, and a dead-lettered row is dirty but not claimed until its number moves.
- Base64Url.RoundTrip: decoding is strict, where the library skips foreign characters in a malformed cursor.
- Snapshot.CursorRoundTrip: JSON encoding is a pair of library functions taken to be inverse on cursors.
- Snapshot.CursorCodecRoundTrips: the same hypothesis on JSON.
- SnapshotScans.SnapshotApi.SnapshotInventory: count, insert and the keeper's promotion of a waiting scan are one step of the caller; `SnapshotRaces` takes them apart.
- SnapshotRaces.ActiveScansAreHeld: a keeper's close, and its crash with the next boot, are one step each; a request for a later page is one step.
- SnapshotScans.WholeScan: the keeper's promotion is one step; idle expiry is a separate step that ends the scan.
- LoginLockout.WindowBoundedExactly: one clock reading per login, sequential logins (`LoginRaces` has the overlapping ones); user names arrive lower-cased and stripped.
- LoginRaces.RacesBoundedExactly: one clock reading per step; the failure is recorded under both keys in one step; a login that dies before its record counts as in flight.
- LoginLockout.UserAndLockKeysDiffer: the digest is any 64-character hex function that does not collide on the two keys.
- Connector.BaseConnector.MakeRequest: URL guard and DNS pinning are left out; delays are reals instead of floats, jitter is an input.
- Ean.IsSearchableEan: the code arrives as digits; trimming and the digit pattern are left out.
- BinLayout.Warehouse.StorageBins: existing bins come in one fixed order; column widths and the refusals of a malformed payload or an out-of-scope warehouse are not modelled; codes are compared by a given fold function.
- PreferredBins.PromoteMovesToFront: priorities start at 1 or above, as every write path sets them.
- Viscosity and image extraction, webhook dispatch, encryption, admin and mobile front ends, bootstrap scripts: no hard property here.
