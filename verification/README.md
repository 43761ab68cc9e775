# Orders, stock and their neighbours: a verified model

A Dafny model of the order and inventory core of the application, of the low-stock alerts that leave it, and of the
smaller algorithms beside it (rate limiter, restock suggestions, product search, order codes, assistant budget).
`dafny verify dfyconfig.toml` checks all of it.

| file | what it models |
|---|---|
| `Domain.dfy`, `Inventory.dfy`, `Orders.dfy` | the tables; what each inventory call and each order transition does to them, as functions; the invariants every one of them keeps |
| `Refusals.dfy` | what every refused request answers with |
| `Services.dfy` | `InventoryService` and `OrderService` over one database session, in the imperative form of the code: staged writes, commit, rollback, pending alerts, loops over items |
| `Operations.dfy` | runs of the whole system, one step per commit: a manual stock move is two steps and a creation of a row three (commit, read back, second commit), so they interleave with everything else |
| `Alerts.dfy` | the alert column and the alerts of a row over all runs, creations and their two commits included |
| `Guarantees.dfy` | what else holds over all runs: overselling, the life of an order, closed reservations, consumption |
| `ConfirmRuns.dfy` | confirms of different orders interleaved row lock by row lock, with each other and with commits that write one stock row |
| `StockAlerts.dfy` | commit, notification, deduplicating queue, worker |
| `TokenBucket.dfy` | the Redis script of the rate limiter, its runs, and the headers |
| `Replenishment.dfy` | restock suggestions over exact rationals |
| `Text.dfy`, `ProductSearch.dfy`, `OrderCode.dfy` | search patterns under `LIKE`; order lookup codes |
| `Assistant.dfy` | the agent loop, its meter and the daily counter, against an arbitrary language model |

How the layers meet: the functions of `Inventory.dfy` and `Orders.dfy` are the specification. Every method in
`Services.dfy` is proved to commit exactly what its function says (or to leave no trace), every step of
`Operations.dfy` applies the same function, and the lemmas say what those functions and their runs guarantee.
The n-th clock reading taken while a request runs is `clock(n)`, an arbitrary function.

Where the code differs from its documentation, the model follows the code:

- `docs/modules/orders.md` draws a cancellation out of CREATED; `OrderService.cancel_order` refuses everything but
  CONFIRMED (app/orders/service.py:128), and so does the model.
- `docs/modules/inventory.md` says a removal cannot go below zero. That holds of the removal itself
  (`Inventory.MoveIsAccepted`), but it checks the quantity and not what is reserved (app/inventory/service.py:407), so a
  later completion can leave a negative quantity: `Guarantees.RemovalCanOversell` gives the run,
  `Guarantees.NeverOversoldIff` the exact condition.
- `docs/modules/assistant.md` says the request budget bounds how far a user can pass the daily quota. The budget is
  checked before a call and not after it (app/assistant/service.py:112): `Assistant.RequestStaysInBudgetIff` says
  exactly when a request stays within it, `Assistant.MostARequestIsCharged` what it can be charged at most, and
  `Assistant.DayIsBounded` the bound that does hold over a day.

Creating a stock row takes two commits (app/inventory/service.py:346-351), and what happens between them decides whether
its alerts are right. The first commit alone leaves a low row without its alert set (`Alerts.FirstCommitIsUnseen`).
If another request alerts for the row before the second commit, the same drop is alerted twice
(`Alerts.CreationCanAlertTwice`); if the row recovers before it, the alert is set on a row that is not low, a job
emails about it, and the next drop is never told (`Alerts.LateFlagLosesADrop`, `StockAlerts.LateFlagLosesTheEmail`).
The properties of the alert column, of the number of alerts and of lost drops are therefore stated with their exact
conditions, told by the request and the state it finds (`Alerts.FlagHoldsIff`, `Alerts.AlertsAreTheRisesIff`,
`StockAlerts.NotLostIff`, `StockAlerts.EmailsAreAlarmingIff`). They hold without any for a row that is left alone while
it is created (`Alerts.AlertsAreTheRises`); that no drop is lost and that emails are about low rows already follows if
the creation's second commit still finds the row low (`StockAlerts.NoDropIsLost`, `StockAlerts.OnTimeReads`).

## Model

| member | source | states |
|---|---|---|
| `Inventory.Sync` | app/inventory/service.py:292-310 | after the sync the alert column is set exactly while the row is low, with the present time if it was not set; nothing else changes, and a row already in agreement keeps its time stamp |
| `Inventory.OpenReservation` | app/inventory/service.py:681-695 | the guards shared by release and fulfill pass exactly for a RESERVED reservation on an existing row |
| `Inventory.MoveIsAccepted` | app/inventory/service.py:359-469 | a manual move is accepted exactly when its row exists, its amount is positive and it does not itself make the quantity negative; its movement then tells the row's change in direction and distance |
| `Inventory.CreatedRow` | app/inventory/service.py:319-351 | a row is created exactly when there is none, product and location exist and the quantity is not zero; it holds the absolute values and reserves nothing, and a creation that nothing interrupts flags it exactly if it is low |
| `Inventory.ReserveKeeps` | app/inventory/service.py:640-678 | reserving keeps every row's reserved quantity equal to the sum of its open reservations, and every row with a reservation from being low without its alert set |
| `Inventory.ReleaseKeeps` | app/inventory/service.py:680-702 | so does releasing |
| `Inventory.FulfillKeeps` | app/inventory/service.py:704-738 | so does fulfilling |
| `Orders.FirstOf` | app/orders/models/order.py:121-124 | the item that `remove_item` removes is the first of its product |
| `Orders.ReserveFirstExact` | app/orders/service.py:107-113 | if the confirmation loop gets through n items, each row reserves exactly the summed demand on it, each item has one open reservation of its quantity, and nothing else changed |
| `Orders.ReserveFirstIffFits` | app/orders/service.py:107-113 | the sequential loop succeeds if and only if each asked row exists and has the sum of its demands available at the start, although items share rows |
| `Orders.ConfirmIsTheAggregateTest` | app/orders/service.py:99-120 | confirming a CREATED order succeeds iff every product's summed demand fits, and then reserves exactly those sums and changes the status |
| `Orders.ReserveIgnoresItemOrder` | app/orders/service.py:107-113 | loading the items in another order changes neither the outcome nor the stock rows, alert times aside, nor the reservation table |
| `Orders.ReleaseFirstExact` | app/orders/service.py:132-136 | the cancellation loop never raises on open reservations and takes exactly what they hold off each row |
| `Orders.CancelReleasesAll` | app/orders/service.py:122-140 | cancelling a CONFIRMED order always succeeds, releases exactly what its items hold and closes every reservation as RELEASED |
| `Orders.FulfillFirstExact` | app/orders/service.py:151-155 | the completion loop never raises on open reservations; each row loses exactly what it held, and the movements chain |
| `Orders.CompleteFulfillsAll` | app/orders/service.py:142-161 | completing a CONFIRMED order always succeeds, with every reservation FULFILLED and quantity and reserved lowered by what it held |
| `Orders.CompleteRecordsEachItem` | app/inventory/service.py:721-735 | completing appends exactly one OUT movement per item, for the reservation's quantity on the reservation's row |
| `Orders.ConfirmKeeps` | app/orders/service.py:99-120 | confirming keeps the order/reservation correspondence and the stock invariant |
| `Orders.CancelKeeps` | app/orders/service.py:122-140 | so does cancelling |
| `Orders.CompleteKeeps` | app/orders/service.py:142-161 | so does completing |
| `Orders.AddItemKeeps` | app/orders/repository.py:63-73 | so does adding an item |
| `Orders.RemoveItemKeeps` | app/orders/repository.py:75-83 | so does removing the first item of a product |
| `Orders.CreateOrderKeeps` | app/orders/service.py:48-53 | so does creating an order |
| `Orders.NewOrderIsEmpty` | app/orders/models/order.py:78-84 | a new order is CREATED and empty, and nothing else changes |
| `Orders.AddedItemIsDemanded` | app/orders/models/order.py:107-115 | an item is added exactly to a CREATED order, for an existing product and a positive quantity; the order's demand grows by exactly that |
| `Orders.RemovedItem` | app/orders/models/order.py:117-126 | removing succeeds exactly on a CREATED order with such an item, and takes off the first one and nothing else |
| `Orders.AddThenRemove` | app/orders/repository.py:63-83 | removing a product just added to an order without it gives back the tables as they were |
| `Refusals.CreationRefusals` | app/inventory/service.py:325-344 | which of the four errors a creation answers with, each exactly under its own condition |
| `Refusals.MoveRefusals` | app/inventory/service.py:359-445 | the same for the three manual moves, whose checks come in different orders |
| `Refusals.ReserveRefusals` | app/inventory/service.py:647-665 | the same for reserving one item |
| `Refusals.ClosingRefusals` | app/inventory/service.py:681-719 | the same for releasing and fulfilling a reservation |
| `Refusals.ConfirmRefusals` | app/orders/service.py:99-113 | a confirmation is refused for a missing order, for one that is not CREATED, or else for the first item that the stock does not cover together with those before it: its row is missing, or has less available than their summed demand |
| `Refusals.ClosingOrderRefusals` | app/orders/service.py:122-149 | a cancellation or completion is refused for a missing order or one that is not CONFIRMED, and for nothing else |
| `Refusals.EditRefusals` | app/orders/models/order.py:107-126 | which error adding or removing an item answers with, each exactly under its own condition |
| `Orders.ConfirmThenCancel` | app/orders/service.py:107-137 | confirming and then cancelling gives every row back its quantity and reserved quantity; it gives back the whole row, alert time included, iff nothing was asked of it or its alert column agreed with it |
| `Orders.ConfirmThenComplete` | app/orders/service.py:107-157 | confirming and then completing lowers each row by exactly the demand, leaves reserved as before and available and alert column as after the confirmation |
| `Orders.ReserveRaisesOnRow` | app/orders/service.py:107-117 | the alerts that a confirmation's rounds note for a row whose column agreed are one if it makes the row low and none otherwise, however many items share the row |
| `Orders.AlertTimeIsOfRound` | app/inventory/service.py:298 | an alert raised by the n-th round carries the n-th clock reading |
| `Orders.ReleaseIsQuiet` | app/inventory/service.py:697-699 | releasing notes no alert, so none is lost because a cancellation does not flush |
| `Orders.CompletionRaisesNothing` | app/inventory/service.py:721-725 | neither does completing |
| `Operations.StepKeepsInv` | app/orders/service.py:79-161 | every committed step of either service, both commits of a creation included, keeps reserved quantities, reservations and orders in correspondence |
| `Operations.ReachableInv` | app/inventory/service.py:640-738 | in every reachable state reserved is the sum of the open reservations, no row with a reservation is low without its alert set, and orders and reservations correspond item by item with equal quantity and product |
| `Operations.ConfirmedOrdersCanClose` | app/orders/service.py:132-157 | in every reachable state exactly the CONFIRMED orders can be cancelled and completed; neither raises midway |
| `Operations.UninterruptedMove` | app/inventory/repositories/stock_repo.py:109-118 | the two commits of a manual move, with nothing between them, write its row, its movement and its alert |
| `Operations.UninterruptedCreation` | app/inventory/service.py:346-351 | the commits of a creation, with nothing between them, write the row, its alert column and its alert |
| `Operations.ReachableLedger` | app/inventory/service.py:371-387 | in every interleaving the committed changes chain every row from its initial to its current quantity, and are the recorded movements plus those of calls between their two commits |
| `Operations.LedgerBalances` | app/inventory/repositories/stock_repo.py:109-122 | a row's quantity is its initial one plus the recorded changes plus those of open calls; with none open, the recorded movements can be ordered into one chain per row |
| `Operations.MovementsAreConsistent` | app/inventory/service.py:376-461 | in every reachable state each recorded movement has the direction of its kind and the distance of its quantity |
| `Guarantees.OrdersOnlyAdvance` | app/orders/models/order.py:86-105 | orders are never lost, go CREATED, CONFIRMED, then CANCELLED or COMPLETED and no other way, and change their items only while CREATED |
| `Alerts.StepTouches` | app/inventory/service.py:292-310 | every manual move and order transition leaves each row as it was or with its alert column in agreement, and alerts for it exactly if it becomes low (or was low and not seen) |
| `Alerts.QuietSteps` | app/orders/service.py:132-159 | cancelling, completing and adding stock never make a row low; the first two alert nobody, and adding alerts only for a row still being created that was low and not seen |
| `Alerts.ReachableFlags` | app/inventory/service.py:346-351 | in every reachable state only a row still being created is low without its alert set, and none being created has it set wrongly |
| `Alerts.FlagHoldsIff` | app/inventory/service.py:292-351 | along a run the alert column of a row is exact whenever its creation is over iff the creation's second commit did not come when the row was no longer low |
| `Alerts.GuardsTell` | app/inventory/service.py:292-317 | told before it runs: a request that writes a row leaves its alert column in agreement and any other leaves the row alone; and the guards on the request, the row and the state of its creation hold exactly for the steps that alert without a drop or drop without an alert |
| `Alerts.StepAlerts` | app/inventory/service.py:297-317 | a step adds one alert for a row it makes low and none for any other iff it is not a request that lifts a row created low before it is read back, leaves low a row its creation will alert for, or takes to the reorder point (a confirmation: by its first item on the row) a row alerted too late |
| `Alerts.AlertsAreTheRisesIff` | app/inventory/service.py:292-351 | along a run the alerts of a row number the times it became low, being created low included, iff no such request comes |
| `Alerts.StaleIffLate` | app/inventory/service.py:346-351 | in every run a row is flagged without being low iff its creation's second commit came when it was not low and no accepted request has written it since |
| `Alerts.AlertsAreTheRises` | app/inventory/service.py:292-351 | along every run that leaves the row alone while it is created, its alerts number exactly the times it became low and its alert column is exact |
| `Alerts.FirstCommitIsUnseen` | app/inventory/service.py:346-348 | five units created with a reorder point of ten: the first commit alone is a low row without its alert |
| `Alerts.UnseenRowIsNotGivenBack` | app/orders/service.py:107-137 | confirming and cancelling one unit of that row leaves its alert set, so the row is not given back |
| `Alerts.CreationCanAlertTwice` | app/inventory/service.py:346-351 | a removal between the two commits makes two alerts of one drop |
| `Alerts.LateFlagLosesADrop` | app/inventory/service.py:346-351 | an addition between them leaves the alert set on a row of 25, and the next drop is never alerted |
| `Guarantees.AvailableSinksOnlyByHand` | app/inventory/service.py:659-667 | steps other than manual removals and adjustments never take available below the smaller of zero and what it was |
| `Guarantees.NeverOversoldIff` | app/inventory/service.py:395-463 | along a run 0 <= reserved <= quantity holds throughout exactly when every removal and adjustment leaves what is reserved |
| `Guarantees.RemovalCanOversell` | app/inventory/service.py:407 | a concrete run of accepted requests that ends with a quantity of -5 |
| `Guarantees.ClosedStaysClosed` | app/inventory/service.py:686-724 | a released or fulfilled reservation never changes again, so none is consumed twice |
| `Guarantees.ConsumptionIsWhatWasTaken` | app/inventory/repositories/stock_repo.py:159-177 | over any run the consumption since a time is what manual removals lowered quantities by and what fulfilled reservations held |
| `ConfirmRuns.ReserveFirstFrame` | app/inventory/repositories/stock_repo.py:43-55 | the confirmation loop reads and writes only the rows it locks: on other tables that agree on them it does the same |
| `ConfirmRuns.RaisesFrame` | app/inventory/service.py:292-304 | and notes the same alerts |
| `ConfirmRuns.WriteKeeps` | app/inventory/repositories/stock_repo.py:95-112 | a commit of one row that nobody has locked, by a manual move or a creation, leaves every running confirm in agreement with its own loop |
| `ConfirmRuns.LoopIsConfirm` | app/orders/service.py:107-117 | a transaction ready to commit has written what confirming its order on the committed tables writes, and noted exactly its alerts |
| `ConfirmRuns.CommitIsSerial` | app/orders/service.py:115-117 | a commit leaves, and sends, what confirming its order on the committed tables does |
| `ConfirmRuns.CommitKeeps` | app/infra/database/session.py:46-53 | a commit leaves the unfinished work of every other transaction in agreement with its own loop |
| `ConfirmRuns.InterleavedConfirmsAreSerial` | app/orders/service.py:99-120 | every interleaving of confirms of different orders with each other, with failures and aborts and retries, and with commits of single stock rows, commits what running the committed ones one by one in commit order commits, and sends the same alerts |
| `ConfirmRuns.EntryIsAStep` | app/orders/service.py:99-120 | each of those, run alone, is one step of a run of the whole system, tables and alerts, where a confirm may therefore be a single step |
| `ConfirmRuns.AloneIsConfirm` | app/orders/service.py:99-117 | a confirm that finds no lock goes through its items and commits, with its alerts, what the confirmation function says |
| `ConfirmRuns.AloneFails` | app/orders/service.py:99-117 | one that the stock does not cover fails at the item it stops at, with that error and no trace |
| `ConfirmRuns.UnlockedWriteIsPerformed` | app/inventory/repositories/stock_repo.py:109-112 | a write that finds its row unlocked is performed |
| `ConfirmRuns.FailedConfirmsFailAlone` | app/orders/service.py:99-120 | a confirm that fails at some step fails with the same error run alone on what is then committed |
| `StockAlerts.JobQueue.DeferLowStockAlert` | app/worker/tasks/stock_alert.py:78-93 | a job is queued unless one for the row is waiting already; the waiting rows grow by exactly this one |
| `StockAlerts.JobQueue.LowStockAlertJob` | app/worker/tasks/stock_alert.py:50-75 | for a missing or recovered row nothing; otherwise one email to each recipient in order, about this row, with its available units and its reorder point |
| `StockAlerts.ServeKeeps` | app/inventory/service.py:312-317 | a service step keeps: a low row not read since it became low has a notification, a waiting job or a running job to come; exactly unless it is a request that takes a row alerted too late to its reorder point when nothing of the row is to come |
| `StockAlerts.WorkerKeeps` | app/worker/tasks/stock_alert.py:50-86 | delivery with its deduplication, the start of a job and its read keep it always |
| `StockAlerts.AlertIsDelivered` | app/worker/tasks/stock_alert.py:50-93 | an alert that was sent can be delivered, its job started and its row read, after which the job has emailed what it read |
| `StockAlerts.NotLostIff` | app/worker/tasks/stock_alert.py:50-86 | along a run it holds throughout iff no such request comes |
| `StockAlerts.NoDropIsLost` | app/worker/tasks/stock_alert.py:50-86 | once nothing is pending, waiting or running for a row, a low row has been read as low since it became low: in every run without such a request, so in every one in which the creation's second commit finds the row low, and so in every one that leaves the row alone while it is created |
| `StockAlerts.LateFlagLosesTheEmail` | app/inventory/service.py:346-351 | a concrete run with a late alert: an email about 25 units over a reorder point of 10, and then a low row that nobody is told of |
| `StockAlerts.EmailsAreAlarmingIff` | app/worker/tasks/stock_alert.py:55-75 | along a run every email is about a row low when read iff no job with recipients runs between a late second commit of a creation and the next accepted request that writes the row |
| `StockAlerts.OnTimeReads` | app/worker/tasks/stock_alert.py:55-57 | a job emails only about a low row if the creation's second commit found the row low, and so if the row was left alone while it was created |
| `TokenBucket.Bucket.Run` | app/infra/rate_limit/bucket.py:17-55 | the script's entry, decision and expiry time |
| `TokenBucket.TokensStayInRange` | app/infra/rate_limit/bucket.py:34-46 | the tokens stay between zero and the capacity, whatever the clock does |
| `TokenBucket.DroppingIsUnobservable` | app/infra/rate_limit/bucket.py:29-47 | a key dropped after its time to live would have been full |
| `TokenBucket.TtlIsLeast` | app/infra/rate_limit/bucket.py:47 | the time to live is one second more than the least whole seconds that refill the bucket |
| `TokenBucket.WindowedRate` | app/infra/rate_limit/bucket.py:29-46 | the cost admitted between two times is at most capacity + refill * their distance, expiries included, whatever came and whatever the clock did before |
| `TokenBucket.ClockGoingBackBreaksTheBound` | app/infra/rate_limit/bucket.py:34-37 | with a clock that steps back and forth the same second is refilled twice: the clamp alone does not save the bound |
| `TokenBucket.BoundHoldsIff` | app/infra/rate_limit/bucket.py:34-38 | for a sequence of request times the bound holds, for every policy and all costs, between any two of them of which the second is not earlier, iff between no such two the clock goes back |
| `TokenBucket.OnlyBackKeepsTheBound` | app/infra/rate_limit/bucket.py:34-38 | so a clock that only goes back breaks no bound |
| `TokenBucket.SplitRefill` | app/infra/rate_limit/bucket.py:34-38 | in the bucket that is refilled as time passes, refilling in two goes is refilling once |
| `TokenBucket.DeniedLeavesNoTrace` | app/infra/rate_limit/bucket.py:34-46 | in the script's bucket a denied request, or one that costs nothing, splits a refill without changing any later level |
| `TokenBucket.LazyRefinesSimple` | app/infra/rate_limit/bucket.py:29-47 | the lazy expiring bucket stands at the level of one that never expires and is refilled as time passes, whatever was denied or dropped before |
| `TokenBucket.LazyAnswersAlike` | app/infra/rate_limit/bucket.py:40-54 | and both admit exactly the same requests |
| `TokenBucket.RetryAfterIsExact` | app/infra/rate_limit/bucket.py:49-52 | a denied request of at most the capacity is admitted after a delay iff the delay is at least `retry_after` |
| `TokenBucket.RateLimit` | app/infra/rate_limit/dependencies.py:45-77 | a request is admitted iff the level it finds covers its cost, which is then taken; the headers tell the capacity, the whole tokens left, and for a denied request the least positive whole seconds that refill what it lacks |
| `TokenBucket.RateLimitAnswersAlike` | app/infra/rate_limit/dependencies.py:45-53 | along any history the answer admits exactly the requests that the bucket refilled as time passes admits |
| `TokenBucket.RetryHeaderSuffices` | app/infra/rate_limit/dependencies.py:55-74 | waiting the whole seconds of the Retry-After header (section 10.2.3 of RFC 9110) always suffices |
| `TokenBucket.RetryHeaderIsLeast` | app/infra/rate_limit/dependencies.py:55 | of the positive whole seconds exactly those from the header on suffice |
| `TokenBucket.RemainingIsExact` | app/infra/rate_limit/dependencies.py:50-76 | an admitted request's remaining header is exactly the number of requests of cost one admitted at once afterwards; a denied one's is zero, though the whole tokens left are still admitted |
| `Replenishment.EvaluationTells` | app/inventory/replenishment.py:39-76 | every measured figure in whole numbers: available, daily consumption over the window, and days of coverage, told exactly if something was consumed |
| `Replenishment.CoverageTest` | app/inventory/replenishment.py:39-64 | the test on days of coverage is a comparison of two products of whole numbers |
| `Replenishment.SuggestionIsLeast` | app/inventory/replenishment.py:51-76 | a needed suggestion is the least quantity that lifts the row above its reorder point and covers the target days; an unneeded one is zero |
| `Replenishment.RestockingSettles` | app/inventory/replenishment.py:51-76 | evaluated again with the suggestion in stock, nothing is suggested |
| `Replenishment.SuggestionIsMonotone` | app/inventory/replenishment.py:51-76 | it falls with what is available and rises with consumption and horizon |
| `Replenishment.NeededButNothingSuggested` | app/inventory/replenishment.py:60-68 | the exact condition under which a restock is needed but zero is suggested; impossible when the target exceeds the horizon |
| `Replenishment.NeededForNothing` | app/inventory/replenishment.py:60-68 | it does happen: one unit, one consumed, window, horizon and target of thirty days |
| `Services.InventoryService.SyncLowStock` | app/inventory/service.py:292-310 | the row becomes the synced row, and is noted as pending exactly when it newly became low |
| `Services.InventoryService.FlushLowStockAlerts` | app/inventory/service.py:312-317 | every pending alert is sent once and none stays pending |
| `Services.InventoryService.InitializeStock` | app/inventory/service.py:319-357 | in one session: refused with its error, or committed with its alert if the row is created low |
| `Services.InventoryService.AddStock` | app/inventory/service.py:359-393 | refused without trace, or the new row, its movement and its alert |
| `Services.InventoryService.RemoveStock` | app/inventory/service.py:395-433 | the same, refused beyond the quantity |
| `Services.InventoryService.AdjustStock` | app/inventory/service.py:435-469 | the same, with the difference recorded |
| `Services.InventoryService.GetStockLevels` | app/inventory/repositories/stock_repo.py:136-157 | the rows of the location and of the product, or of any, each once, ordered by product and then location |
| `Services.InventoryService.GetConsumptionByStock` | app/inventory/repositories/stock_repo.py:159-177 | the totals are each row's consumption since the time, absent meaning zero |
| `Services.InventoryService.GetReplenishmentSuggestions` | app/inventory/service.py:508-546 | a horizon outside 1 to 30 is refused; otherwise exactly the rows of the location (that need a restock, if asked), each once, with every figure told from its quantities and what left it in 30 days, and in the order in which their stock runs out, by cross products |
| `Services.SortedByUrgency` | app/inventory/service.py:539-545 | the sort orders by days of coverage (none last) and then by falling suggestion, and only moves the results |
| `Services.UrgencyOfRows` | app/inventory/service.py:539-545 | the sort key compares two rows as their available and consumed units do, multiplied crosswise |
| `Services.LowRowIsSuggested` | app/inventory/service.py:508-546 | a low row is listed for its location with a suggestion of at least one, and adding that many clears its alert |
| `Services.AlertedRowsAreSuggested` | app/inventory/service.py:508-546 | in every reachable state so is a row with its alert set, unless its creation set the alert when it was no longer low; if it did not, the row is low |
| `Services.StaleRowIsNotSuggested` | app/inventory/service.py:508-546 | that exception happens: nothing is suggested for the row of 25 over a reorder point of 10 whose alert came late |
| `Services.InventoryService.ReserveForItem` | app/inventory/service.py:640-678 | the staged row, reservation and pending alert of the specification, or its error |
| `Services.InventoryService.ReleaseForItem` | app/inventory/service.py:680-702 | the same for a release |
| `Services.InventoryService.FulfillForItem` | app/inventory/service.py:704-738 | the same for a fulfilment, with its movement |
| `Services.OrderService.ConfirmOrder` | app/orders/service.py:99-120 | all items or none: committed as specified with exactly the alerts its rounds noted, or refused with the tables and alerts as they were |
| `Services.OrderService.CancelOrder` | app/orders/service.py:122-140 | committed as specified with no alert, or refused without trace |
| `Services.OrderService.CompleteOrder` | app/orders/service.py:142-161 | committed as specified; the final flush sends nothing |
| `Services.OrderService.AddItemToOrder` | app/orders/service.py:79-89 | the item appended, or the first failing check's error and no trace |
| `Services.OrderService.RemoveItemFromOrder` | app/orders/models/order.py:117-126 | the loop removes the first item of the product, or reports that there is none |
| `ProductSearch.ThreePassesAreOne` | app/inventory/repositories/product_repo.py:28-43 | the three replacements are one escaping character by character |
| `ProductSearch.EscapedMatchesItself` | app/inventory/repositories/product_repo.py:28-43 | an escaped string in front of a pattern matches itself and only itself (section 8.5 of ISO/IEC 9075-2) |
| `ProductSearch.SearchIsSubstringSearch` | app/inventory/repositories/product_repo.py:28-43 | a search returns exactly the products whose folded name or SKU contains the folded, stripped query, whatever wildcards it contains |
| `OrderCode.AlphabetTells` | app/orders/models/order.py:22 | the alphabet is the digits and the capital letters but for I, L, O and U, each once |
| `OrderCode.CodeTells` | app/orders/models/order.py:25-27 | a code is the eight drawn characters in order with a dash after the fourth; codes differ as draws do |
| `OrderCode.UpperTells` | app/orders/service.py:31 | each small letter becomes its capital and nothing else changes |
| `Text.StripTells` | app/orders/service.py:31 | stripping takes off all white space at both ends and nothing else |
| `Text.WhiteSpaceCharacters` | app/orders/service.py:31 | which characters are white space |
| `OrderCode.NormalizesIffSpelled` | app/orders/service.py:26-34 | a lookup resolves to eight characters with their dash iff the stripped input spells them |
| `OrderCode.RefusesIffNothingSpelled` | app/orders/service.py:32-33 | and is refused iff it spells no eight characters |
| `OrderCode.EverySpellingResolves` | app/orders/service.py:26-34 | any letter case, any spaces and dashes and any outer white space resolve to the code |
| `OrderCode.CodeResolves` | app/orders/models/order.py:25-27 | a generated code resolves to itself |
| `OrderCode.SpellingsAreDisjoint` | app/orders/service.py:26-34 | two codes never share a spelling |
| `Assistant.CostInTwentieths` | app/assistant/usage.py:18-21 | the weights of the four kinds of tokens, as whole twentieths of a unit |
| `Assistant.RoundIsNearest` | app/assistant/usage.py:42-49 | the units are the nearest integer to the exact cost, halves going to the even one |
| `Assistant.UsageMeter.Add` | app/assistant/usage.py:36-40 | the exact cost grows by the cost of the response |
| `Assistant.UsageMeter.CostUnits` | app/assistant/usage.py:42-49 | the units are the exact cost rounded |
| `Assistant.AssistantService.Chat` | app/assistant/service.py:56-84 | over quota nothing is called or charged; otherwise the outcome follows the opening or the model's replies, and on every exit the user's counter grows by exactly the rounded bill of the calls made, and no other counter changes |
| `Assistant.AssistantService.Loop` | app/assistant/service.py:86-171 | the loop ends as the conversation does, with its outcome, calls and cost |
| `Assistant.ConversationPaysItsBill` | app/assistant/service.py:111-171 | at most `max_iterations` calls, each below the budget and asked for; the cost is the bill of exactly those calls |
| `Assistant.LastReplyDecides` | app/assistant/service.py:117-166 | the outcome is told by the last reply, and an answer reports every call made and every tool called |
| `Assistant.RequestTells` | app/assistant/service.py:71-95 | a request overtaken or failing before its first call ends as such and costs nothing; any other follows the replies and pays their bill |
| `Assistant.RequestIsBounded` | app/assistant/service.py:112-127 | a request is charged at most the budget plus one call, and one less unless both are odd |
| `Assistant.MostARequestIsCharged` | app/assistant/service.py:111-127 | the exact maximum for every limit of calls, budget and cost of a call: no model can make a request cost more, and one makes it cost that |
| `Assistant.RequestStaysInBudgetIff` | app/assistant/service.py:111-127 | no model can make a request pass its budget exactly when all the calls it may make fit into it (or each costs at most one unit and the budget is even) |
| `Assistant.DayIsBounded` | app/assistant/usage.py:57-81 | any number of chats one after the other leaves a counter below the daily quota plus the most that a request can be charged |

## Left out

- Rows are values in maps keyed by their unique columns, not objects: aliasing of loaded rows and stale reads from the session's identity map are not captured; a locked read returns the committed row.
- Two requests for the same order at once, and cancellations or completions interleaved row by row: they are single steps of a run. Confirms of different orders are interleaved with each other and with commits of single stock rows.
- Crashes between commits, failed enqueues, job retries and the fail-open paths of Redis: assumed not to happen.
- Floating-point rounding in the suggestions, the Lua script and the cost weights, and Redis turning numbers into text: arithmetic is exact.
- The 32-bit width of the quantity columns.
- White space and upper-casing outside ASCII, and foldings that change a string's length or depend on neighbouring characters.
- Services.SortedByUrgency: that equal results keep their order is not stated.
- TokenBucket.RateLimit: the switch that turns limiting off and the derivation of the bucket's key are not modelled.
- Assistant.AssistantService.Chat: chats of one user running at once, the change of the counter's key at midnight UTC and what is said in the conversation; the model's replies, the deadline and exceptions are arbitrary.
- Services.OrderService.ConfirmOrder: its loop, like those of cancelling, completing and suggesting, is a method of its own (`ReserveItems`, `ReleaseItems`, `FulfillItems`, `SuggestEach`); the common end of the manual moves is `ChangeQuantity`.
- The reservation status FAILED, which no code sets.
- Retries on a colliding order code; the randomness of codes.
- HTTP, authentication, roles, users, mail, product, category and location maintenance, migrations: lookups and uniqueness checks.
