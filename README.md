# Order fulfilment saga, modelled in Dafny

This project models the order-fulfilment core of the orderflow demo. The demo is a set of Go
services:

- the orders service stores orders and publishes an `order.created` event;
- the inventory service keeps per-item `available`/`reserved` counters behind guarded SQL updates;
- the worker consumes the events and runs a saga over HTTP;
- the API gateway forwards client requests to both services.

The saga reserves each line item in order and stops at the first failure. On a failure it
releases what it had reserved, sets the order `cancelled` and mails a cancellation. When every
item is reserved it mails a confirmation first and then sets the order `confirmed`.

One module per source file:

- `InventoryRepo` (internal/inventory/repository.go) is a repository class over a ledger map. The
  guarded `UPDATE` statements are `ReserveUpdate` and `ReleaseUpdate`.
- `InventoryHttp` (internal/inventory/handler.go) models the four stock endpoints.
- `OrdersRepo` (internal/orders/repository.go) is a repository class over an orders table and an
  item-rows table. Its loops (`List`, `ListNPlus1`) are methods with invariants.
- `OrdersHttp` (internal/orders/handler.go) models the order endpoints, including the int64
  total, which wraps around.
- `OrdersMain` (cmd/orders/main.go) models the two mux patterns, the mux's redirect of paths that are not in clean form, and the producer's broker list.
- `Worker` (internal/worker/handler.go) is the saga.
  - `Cluster` is a class holding the two repositories and an outbox. Its methods are the four
    outbound calls.
  - `NotificationHandler.Handle` and its helpers are imperative methods. Each is proved equal to
    a pure function over a `World` value: `ReserveFrom`, `ReleaseAll`, `CancelPath`,
    `ConfirmPath` or `HandleOutcome`.
- `SagaProofs` holds the end-to-end lemmas about those functions:
  - ordering of calls;
  - compensation restoring the ledger;
  - the happy path;
  - redelivery;
  - a lost reply leaking a reservation.
- `Consumer` (internal/messaging/consumer.go) models the fetch / handle / commit loop.
- `Carrier` (internal/messaging/carrier.go) models the header carrier used for trace propagation.
- `Gateway` (internal/gateway/handler.go) models path rewriting and the proxy's reply.
- `Strings`, `Domain`, `Http` and `Wrappers` are shared helpers. They cover Go's `strings.Split`
  and `Trim`, `%d`, nil-versus-empty slices, and the status codes.

Every outbound call and every database statement takes its failure as a parameter:

- The worker's environment `Env` maps each outbound call number to a transport fault:
  - `Refused`: the request never reached the service;
  - `Lost`: the service acted, but the worker saw an error.

  It also says which database statements of each service fail.
- The worker runs against one of two wirings of the orders service:
  - `TestWiring`: the `{id}` patterns the integration tests register;
  - `MainWiring`: the closures of cmd/orders/main.go, which never set a path value.

Three behaviours of the code are reproduced as written:

- The inventory guard accepts a negative quantity. Available and reserved counts are therefore
  not kept non-negative for every input. `AtomicUpdatesNeverOversell` states the invariant for
  non-negative quantities, and `NegativeReserveLowersReserved` shows the exception. Orders accept
  any quantity, so the saga's restore properties also hold only for non-negative quantities.
  `NegativeQuantityDefeatsRestore` shows a cancelled saga that leaves a row changed.
- A reply lost after the inventory service applied a reservation leaves that reservation held
  after compensation (`LostReservationLeaks`). Compensation releases only what the worker saw succeed.
- Under the orders service's own routes, the worker's status update always answers 400, so
  `Handle` never succeeds (`MainWiringNeverSucceeds`). "## Findings" lists this defect.

## Model

| member | source | states |
|---|---|---|
| InventoryRepo.ReserveUpdate | internal/inventory/repository.go:66-86 | The guarded reserve succeeds exactly when the database answers, the row exists and `available >= q`. On success only that row changes, by moving `q` units to reserved. On failure nothing changes: `ErrInsufficientStock` when the database answered, a database error otherwise. |
| InventoryRepo.ReleaseUpdate | internal/inventory/repository.go:88-108 | The guarded release succeeds exactly when the row exists and `reserved >= q`. On success only that row moves `q` units back. Otherwise the ledger is unchanged, with `ErrInsufficientReserved` or a database error. |
| InventoryRepo.InventoryRepository.ListAll | internal/inventory/repository.go:21-46 | Fails exactly when the query fails. Otherwise it returns every row once, sorted by item id, and a nil slice exactly when the table is empty. |
| InventoryRepo.InventoryRepository.OrderedRows | internal/inventory/repository.go:22-26 | `ORDER BY item_id`: the rows of the table, each id present, strictly ascending. |
| InventoryRepo.InventoryRepository.GetStock | internal/inventory/repository.go:48-64 | The item's row, None without an error when there is no such row, or the database error. |
| InventoryRepo.InventoryRepository.Reserve | internal/inventory/repository.go:66-86 | The table and the returned error after the call are exactly `ReserveUpdate` of the table before it. |
| InventoryRepo.InventoryRepository.Release | internal/inventory/repository.go:88-108 | The table and the returned error after the call are exactly `ReleaseUpdate` of the table before it. |
| InventoryRepo.AtomicUpdatesNeverOversell | internal/inventory/repository.go:66-108 | Any interleaving of reserves and releases with non-negative quantities keeps both counters non-negative, keeps each row's `available + reserved`, and adds or removes no row. |
| InventoryRepo.ReserveThenReleaseRestores | internal/inventory/repository.go:66-108 | A successful reserve followed by a release of the same quantity restores the row exactly. |
| InventoryRepo.ReserveTenOfHundred | internal/inventory/repository.go:67-71 | Reserving 10 of 100 available leaves 90 available and 10 reserved. |
| InventoryRepo.NegativeReserveLowersReserved | internal/inventory/repository.go:67-71 | The guard admits a negative quantity, which drives `reserved` below zero. |
| InventoryRepo.UnknownItemIsInsufficientStock | internal/inventory/repository.go:70-83 | A missing row makes the reserve report insufficient stock, not a missing item. |
| InventoryHttp.ReserveOutcome | internal/inventory/handler.go:61-105 | Each status, stated as an if-and-only-if condition on the inputs: 400 for an empty id or an undecodable body, 404 for an unknown item, 409 for too little stock, 200 for a reserve that went through (with the updated row). The ledger either stays as it was or moves `q` units of that one item, and it changes only on 200 or 500. |
| InventoryHttp.ReleaseOutcome | internal/inventory/handler.go:111-139 | 400 for an empty id or an undecodable body. 200 exactly when the release went through and the re-read succeeded. Every repository error is 500, and there is no 404. |
| InventoryHttp.GetStockResponse | internal/inventory/handler.go:34-55 | 400 for an empty id, 404 for a missing row, 500 on a database error, otherwise 200 with the row. Each of these is an if-and-only-if. |
| InventoryHttp.HandleGetStock | internal/inventory/handler.go:34-55 | The handler's response is `GetStockResponse` of the table. |
| InventoryHttp.HandleListStock | internal/inventory/handler.go:22-32 | 500 exactly when the listing fails. Otherwise 200 with every row sorted by item id, and a nil list (JSON `null`) exactly when the table is empty. |
| InventoryHttp.HandleReserve | internal/inventory/handler.go:61-105 | The table after the call and the response are `ReserveOutcome` of the table before it. |
| InventoryHttp.HandleRelease | internal/inventory/handler.go:111-139 | The table after the call and the response are `ReleaseOutcome` of the table before it. |
| InventoryHttp.OverReleaseIsServerError | internal/inventory/handler.go:124-128 | Releasing more than is reserved answers 500 and changes nothing. |
| OrdersHttp.Wrap64 | internal/orders/handler.go:39-42 | The int64 in range that is congruent to `x` modulo 2^64. |
| OrdersHttp.WrapAdd | internal/orders/handler.go:39-42 | Wrapping each partial sum gives the same result as wrapping the exact sum once. |
| OrdersHttp.OrderTotal | internal/orders/handler.go:39-42 | The accumulated total is the exact sum of quantity × price, wrapped to int64. It equals the exact sum whenever that sum fits. |
| OrdersHttp.TwoAtThousand | internal/orders/handler.go:39-42 | Two units at 1000 make 2000. |
| OrdersHttp.TotalWrapsAround | internal/orders/handler.go:39-42 | A line of 2 × int64 max wraps to -2. |
| OrdersHttp.Producer.Publish | internal/orders/handler.go:58-68 | A publish that succeeds records exactly one event under its key. A publish that fails records nothing. |
| OrdersHttp.NewOrder | internal/orders/handler.go:44-50 | The new order is pending, with the request's customer and items and the creation time. |
| OrdersHttp.CreatedEvent | internal/orders/handler.go:58-64 | The event carries the stored order's id, customer, items and timestamp. |
| OrdersHttp.HandleCreate | internal/orders/handler.go:32-72 | 400 exactly for an undecodable body and 201 exactly when the store succeeded. Otherwise the answer is 500 and the tables are unchanged. On 201 the stored order is pending with the wrapped total. With a producer, its event is published; a failed publish still answers 201. |
| OrdersHttp.GetResponse | internal/orders/handler.go:74-95 | 400 for an empty id, 404 for an unknown id, 200 with the stored order and its items, 500 on a query failure. Each of these is an if-and-only-if. |
| OrdersHttp.HandleGet | internal/orders/handler.go:74-95 | The handler's response is `GetResponse` of the tables. |
| OrdersHttp.UpdateStatusOutcome | internal/orders/handler.go:101-128 | 400 for an empty id or a bad body, and 404 for an unknown id. Any status string is stored, whatever the current status. On 200 the answer is the order read back with the new status. |
| OrdersHttp.HandleUpdateStatus | internal/orders/handler.go:101-128 | The tables after the call and the response are `UpdateStatusOutcome` of the tables before it. |
| OrdersHttp.StatusIsNotChecked | internal/orders/handler.go:101-128 | A cancelled order can be set back to any status, and the answer is 200. |
| OrdersHttp.HandleList | internal/orders/handler.go:130-140 | 500 exactly when a query fails. Otherwise 200 with a listing of the whole store: newest first, each order with its items. |
| OrdersHttp.HandleListNPlus1 | internal/orders/handler.go:142-152 | Answers the same listing, but the body is nil for an empty store. 500 exactly when the first query or one of the per-order queries fails. |
| OrdersRepo.ItemsOf | internal/orders/repository.go:67-83 | The items of an order are exactly the items of the rows filed under its id: an item is listed if and only if such a row holds it. There is at most one item per row. |
| OrdersRepo.RowsFor | internal/orders/repository.go:38-47 | One item row per line item, in line order, each keyed by the order id. |
| OrdersRepo.Materialize | internal/orders/repository.go:52-90 | An order read back has exactly the stored row's fields and the given items. |
| OrdersRepo.Appended | internal/orders/repository.go:77-83 | A slice grown from nil by appends holds those elements, and is nil exactly when there were none. |
| OrdersRepo.Stored | internal/orders/repository.go:52-90 | The order read back for an id is absent exactly when there is no row. Otherwise it is the row with its items. |
| OrdersRepo.ItemsOfRowsFor | internal/orders/repository.go:38-47 | The rows inserted for an order hold exactly its line items, and none of any other order's items. |
| OrdersRepo.CreateKeepsTables | internal/orders/repository.go:21-50 | Storing an order with its item rows keeps every item row pointing at an existing order. |
| OrdersRepo.CreatedOrderReadsBack | internal/orders/repository.go:21-90 | A created order reads back with its id, its fields and its line items. Its items are nil when it has none. |
| OrdersRepo.CreateLeavesOthers | internal/orders/repository.go:21-90 | Creating an order does not change what any other id reads back as. |
| OrdersRepo.ListingCountsOrders | internal/orders/repository.go:113-175 | A listing has exactly as many orders as the table, and is empty exactly when the table is. |
| OrdersRepo.RowsNewestFirstCount | internal/orders/repository.go:114-118 | The newest-first query returns one row per stored order. |
| OrdersRepo.NewestExists | internal/orders/repository.go:114-118 | A non-empty set of orders has a newest one, so `ORDER BY created_at DESC` can always pick one. |
| OrdersRepo.ListingOfRows | internal/orders/repository.go:113-175 | Rows newest first, each completed with exactly its items, make a listing of the store. |
| OrdersRepo.GroupedListing | internal/orders/repository.go:124-172 | The orders `List` assembles form a listing. Each one's items are a non-nil list. |
| OrdersRepo.IndexRows | internal/orders/repository.go:124-135 | The first loop indexes one order per row, with an empty item list, keeping the row order of the ids. |
| OrdersRepo.GroupItems | internal/orders/repository.go:145-163 | The second loop gives each indexed order exactly the items stored for it, in row order. |
| OrdersRepo.Collect | internal/orders/repository.go:169-172 | The last loop returns the indexed orders in the order of their ids. |
| OrdersRepo.ScanRows | internal/orders/repository.go:188-195 | The first loop of `ListNPlus1` gives one order per row with nil items. The list is nil exactly when there are no rows. |
| OrdersRepo.OrderRepository.Create | internal/orders/repository.go:21-50 | Succeeds exactly when the id is new and no statement of the transaction fails. On success the order row and one item row per line item are added. On failure both tables are unchanged. |
| OrdersRepo.OrderRepository.ItemsQuery | internal/orders/repository.go:67-83 | The items of the order, appended to a nil slice. |
| OrdersRepo.OrderRepository.GetByID | internal/orders/repository.go:52-90 | Fails exactly when the row query fails, or when the items query fails for an existing order. Otherwise it returns the stored order, or None for an unknown id. |
| OrdersRepo.OrderRepository.UpdateStatus | internal/orders/repository.go:92-111 | The status of an existing order becomes the given one, and nothing else changes. An unknown id is None without an error. A success reads the order back with the new status. |
| OrdersRepo.OrderRepository.OrderRowsNewestFirst | internal/orders/repository.go:114-118 | The rows of every stored order, once each, newest first. |
| OrdersRepo.OrderRepository.List | internal/orders/repository.go:113-175 | Fails exactly when a query fails; the items query is skipped for an empty store. Otherwise it returns a non-nil listing of the store, with non-nil item lists. |
| OrdersRepo.OrderRepository.ListNPlus1 | internal/orders/repository.go:177-228 | Fails exactly when the first query or one of the per-order queries fails. Otherwise it returns a listing of the store that is nil when the store is empty, and each order's items are nil when it has none. |
| OrdersRepo.OrderRepository.FillItems | internal/orders/repository.go:201-225 | One items query per order, stopping at the first that fails. On success each order gets its stored items. |
| OrdersMain.RootRoute | cmd/orders/main.go:58-67 | `/orders` lists on GET, creates on POST, and answers 405 otherwise. Each is an if-and-only-if. |
| OrdersMain.SubtreeRoute | cmd/orders/main.go:68-80 | Under `/orders/`, GET reads exactly when the path lacks the `status` suffix, and PATCH updates exactly when it has it. Everything else is 405. |
| OrdersMain.Dispatch | cmd/orders/main.go:57-80 | A path that cleaning would change (an empty, `.` or `..` segment before the last, a `.` or `..` last segment, or no leading slash) gets the mux's 301 redirect, for every method except CONNECT. Otherwise the exact path `/orders` goes to the root pattern and other paths under `/orders/` to the subtree. Any other path matches no pattern. |
| OrdersMain.EmptySegmentRedirects | cmd/orders/main.go:57 | `/orders//{id}` is redirected, not routed to the subtree. |
| OrdersMain.DotSegmentRedirects | cmd/orders/main.go:57 | `/orders/.` and `/orders/..` are redirected, not routed to the subtree. |
| OrdersMain.DoubledSlashRedirects | cmd/orders/main.go:57 | Every path that starts with `//`, such as `//orders`, is redirected. |
| OrdersMain.SegmentsOfPath | cmd/orders/main.go:69-70 | Trimming slashes and splitting gives three segments for `/{a}/{id}/{c}`. It gives two for `/{a}/{id}`, or one when the id is empty. |
| OrdersMain.HasStatusSuffix | cmd/orders/main.go:69-70 | A path with the status suffix contains a slash. `StatusPathHasSuffix` and `OrderPathHasNoSuffix` give both directions on the service's own paths. |
| OrdersMain.StatusPathHasSuffix | cmd/orders/main.go:69-70 | `/orders/{id}/status` has the status suffix for every id without a slash. |
| OrdersMain.OrderPathHasNoSuffix | cmd/orders/main.go:69-70 | `/orders/{id}` never has the status suffix. |
| OrdersMain.ServeSubtree | cmd/orders/main.go:68-80 | Every request under `/orders/` answers 400 or 405 and changes no order, because no path value is ever set. |
| OrdersMain.GetOrderIsBadRequest | cmd/orders/main.go:73-74 | Reading an existing order through this mux answers 400. The path is routed to the read, unless the id is `.` or `..`, which is redirected. |
| OrdersMain.PatchStatusRoute | cmd/orders/main.go:75-76 | `PATCH /orders/{id}/status` is routed to the status update, unless the id is empty, `.` or `..`, which is redirected. |
| OrdersMain.UpdateStatusIsBadRequest | cmd/orders/main.go:75-76 | A status update through this mux answers 400 and leaves the order as it was. |
| OrdersMain.MismatchedMethodNotAllowed | cmd/orders/main.go:72-79 | PATCH without the suffix, or GET with it, answers 405. |
| OrdersMain.ProducerBrokers | cmd/orders/main.go:46-52 | No producer exactly when `KAFKA_BROKERS` is empty. Otherwise the brokers are its comma-separated parts, which join back to it. |
| Worker.Deliver | internal/worker/handler.go:96-99 | The worker sees the service's status exactly when the call meets no transport fault. |
| Worker.ReserveStep | internal/worker/handler.go:82-108 | One reserve call is logged. The ledger either stays as it was or moves `q` units of that item, and a 200 always moves them. |
| Worker.ReleaseStep | internal/worker/handler.go:117-142 | One release call is logged. The ledger either stays as it was or moves `q` units back. |
| Worker.StatusStep | internal/worker/handler.go:191-219 | One status call is logged. A 200 means the order now has that status. Under the orders service's own mux it never answers 200 and never changes the order. |
| Worker.EmailStep | internal/worker/handler.go:166-189 | One email call is logged. A 200 means the message is in the outbox, and nothing else is ever added. |
| Worker.ConfirmationEmail | internal/worker/handler.go:146-154 | The confirmation's body names the order id and, in decimal, its number of items. |
| Worker.CancellationEmail | internal/worker/handler.go:156-164 | The cancellation's body names the order id and gives "insufficient stock" as the reason. |
| Worker.ReserveFrom | internal/worker/handler.go:79-114 | The items are reserved in order, extending the reserved prefix and touching only the ledger. There is no failure exactly when every item was reserved. |
| Worker.ReleaseAll | internal/worker/handler.go:116-144 | One release call per reserved item, touching only the ledger. |
| Worker.CancelPath | internal/worker/handler.go:45-62 | The compensation path leaves the item rows unchanged and never reports a decode error. |
| Worker.ConfirmPath | internal/worker/handler.go:65-76 | The confirmation path leaves the item rows unchanged and never reports a decode error. |
| Worker.HandleOutcome | internal/worker/handler.go:37-77 | The result is a decode error exactly when the payload does not decode, and then nothing happens. No outcome changes the item rows. |
| Worker.Cluster.PostReserve | internal/worker/handler.go:89-108 | The cluster's state and the reply are `ReserveStep` of the state before the call. |
| Worker.Cluster.PostRelease | internal/worker/handler.go:125-142 | The cluster's state and the reply are `ReleaseStep` of the state before the call. |
| Worker.Cluster.PatchStatus | internal/worker/handler.go:201-216 | The cluster's state and the reply are `StatusStep` of the state before the call. |
| Worker.Cluster.PostEmail | internal/worker/handler.go:172-186 | The cluster's state and the reply are `EmailStep` of the state before the call. |
| Worker.NotificationHandler.Handle | internal/worker/handler.go:37-77 | The state after `Handle` and its error are `HandleOutcome` of the state before it. |
| Worker.NotificationHandler.ReserveStock | internal/worker/handler.go:79-114 | The reserved items, the failure and the state are `ReserveFrom` of the state before the call. |
| Worker.NotificationHandler.ReleaseStock | internal/worker/handler.go:116-144 | The state after the call is `ReleaseAll` of the state before it. |
| Worker.NotificationHandler.SendEmail | internal/worker/handler.go:146-189 | The state after the call is `EmailStep`'s. It succeeds exactly when that step answers 200. |
| Worker.NotificationHandler.UpdateOrderStatus | internal/worker/handler.go:191-219 | The state after the call is `StatusStep`'s. It succeeds exactly when that step answers 200. |
| SagaProofs.ReserveHead | internal/worker/handler.go:82-111 | One reservation step: a 200 continues with the item appended. Anything else stops with the state unchanged and a failure that names the item. |
| SagaProofs.ReservePrefix | internal/worker/handler.go:79-114 | What reserving returns is exactly the leading items, in order, with their quantities. |
| SagaProofs.ReserveStopsAt | internal/worker/handler.go:97-108 | A failed reservation stops at an item it did not reserve and names that item. |
| SagaProofs.ReserveLogComplete | internal/worker/handler.go:82-111 | A full reservation makes one reserve call per item, in order, and nothing else. |
| SagaProofs.ReserveLogStopped | internal/worker/handler.go:82-111 | A reservation that stops at item `k` called reserve for items 0..k only. |
| SagaProofs.ReleaseEachOnce | internal/worker/handler.go:116-144 | Every reserved item gets exactly one release call, in order, whatever the releases answer. |
| SagaProofs.CancelOutcome | internal/worker/handler.go:45-62 | A failed reservation takes the compensation path with exactly what was reserved. |
| SagaProofs.ConfirmOutcome | internal/worker/handler.go:65-76 | A full reservation takes the confirmation path. |
| SagaProofs.CancelPathLog | internal/worker/handler.go:45-62 | The calls are release, then `cancelled`, then the cancellation email. A failed status update returns its error and sends no email. |
| SagaProofs.CancellationSequence | internal/worker/handler.go:45-62 | After a reservation failure, the full call log is: the reserves up to the failure, one release per reserved item, the `cancelled` update, then the email. |
| SagaProofs.ConfirmPathLog | internal/worker/handler.go:65-76 | The confirmation email comes first, and `confirmed` is set only after it was accepted. A failed email leaves the status unchanged. |
| SagaProofs.ConfirmationSequence | internal/worker/handler.go:65-76 | After a full reservation, the call log is the reserves, then the email, then the status update, with no release. |
| SagaProofs.EmptyOrderTakesConfirmationPath | internal/worker/handler.go:82-113 | An order without items reserves nothing and goes straight to the confirmation email. |
| SagaProofs.EmptyOrderEmailBody | internal/worker/handler.go:150 | The confirmation of an order without items says it has 0 items. |
| SagaProofs.MainWiringNeverSucceeds | internal/worker/handler.go:51-54 | Under the orders service's own mux, every decodable event ends in an error. |
| SagaProofs.ConfirmationNamesOrder | internal/worker/handler.go:146-154 | The confirmation goes to the customer's address, and its subject contains "Confirmation" and the order id. |
| SagaProofs.CancellationNamesOrder | internal/worker/handler.go:156-164 | The cancellation goes to the customer's address, and its subject contains "Cancelled" and the order id. |
| SagaProofs.CancellationPromisesRefund | internal/worker/handler.go:160 | The cancellation body says the customer will be reimbursed. |
| SagaProofs.HealthyReserve | internal/inventory/handler.go:61-105 | A reserve call without faults is answered, and changes the ledger only when it answers 200. |
| SagaProofs.ReservedAreKnown | internal/worker/handler.go:79-114 | Without faults, every reserved item exists in the ledger. |
| SagaProofs.ReserveMoves | internal/worker/handler.go:79-114 | Without faults, the ledger after reserving differs from the one before by exactly the reserved quantities. |
| SagaProofs.ReserveAllHolds | internal/worker/handler.go:79-114 | Without faults, a full reservation holds exactly every item's quantity. |
| SagaProofs.ReleaseRestores | internal/worker/handler.go:116-144 | With non-negative quantities and no faults, releasing what was reserved brings every row back to its value before the saga. |
| SagaProofs.HealthyStatusUpdate | internal/worker/handler.go:191-219 | A status update of an existing order that meets no fault answers 200 under the `{id}` routes. |
| SagaProofs.HealthyConfirmPath | internal/worker/handler.go:65-76 | With no faults, the confirmation path sends one email, then confirms the order. |
| SagaProofs.HealthyCancelPath | internal/worker/handler.go:45-62 | With no faults, the compensation path restores the reserved units, cancels the order and sends one email. |
| SagaProofs.StockRejectionRestores | test/integration_test.go:509-645 | A stock rejection with non-negative quantities and nothing else failing ends in no error, with the order `cancelled`. Every ledger row is back at its value before the saga, and exactly one email is sent: the cancellation. |
| SagaProofs.HappySagaConfirms | test/integration_test.go:251-377 | With every item reserved and nothing failing, the result is no error, the order `confirmed`, the ledger holding every item's quantity, and exactly one email: the confirmation. |
| SagaProofs.OneItemOrderReserves | test/integration_test.go:357-364 | An order of five units of one item leaves `available - 5` and `reserved + 5`. |
| SagaProofs.RedeliveryReservesTwice | internal/worker/handler.go:37-77 | The handler keeps no state between events. The same event delivered twice reserves twice and sends two confirmations. |
| SagaProofs.LostReserve | internal/worker/handler.go:96-99 | A reserve whose reply is lost still moves the stock, while the worker sees a transport error. |
| SagaProofs.ReserveGranted | internal/inventory/handler.go:61-105 | A healthy reserve of a known item with enough stock answers 200 and moves `q` units of exactly that row. |
| SagaProofs.ReserveUnknown | internal/inventory/handler.go:61-105 | A healthy reserve of an item the ledger lacks answers 404 and changes no row. |
| SagaProofs.ReleaseGranted | internal/inventory/handler.go:111-139 | A healthy release with at least `q` units reserved moves them back to available. |
| SagaProofs.ReleaseRefused | internal/inventory/repository.go:88-108 | A healthy release of more units than are reserved changes no row. |
| SagaProofs.ReserveStopsAtThird | internal/worker/handler.go:82-111 | When the first two of three items reserve and the third does not, reserving stops with exactly the first two held. |
| SagaProofs.NegativeReservePhase | internal/worker/handler.go:82-111 | Reserving `A:5`, `A:-5` and an unknown `B` from `A` at (10, 0) holds both `A` items, fails at `B`, and leaves the ledger as it was. |
| SagaProofs.NegativeReleasePhase | internal/worker/handler.go:116-144 | Releasing `A:5` and then `A:-5` from `A` at (10, 0) refuses the first and applies the second, so `A` ends at (5, 5). |
| SagaProofs.NegativeQuantityDefeatsRestore | internal/worker/handler.go:45-62 | With a negative quantity among the items, a stock rejection can leave a row changed: `A` goes from (10, 0) to (5, 5). |
| SagaProofs.LostReservationLeaks | internal/worker/handler.go:45-62 | A reservation whose reply was lost is applied but never released. The order is cancelled and those units stay held. |
| Consumer.LastOptionWins | internal/messaging/consumer.go:37-39 | Each option overwrites the start offset, so the last one applied wins. |
| Consumer.StartOffsetIsLast | internal/messaging/consumer.go:37-39 | After a non-empty list of options, the start offset is the last option's. |
| Consumer.NewReaderConfig | internal/messaging/consumer.go:30-46 | The config carries the given brokers, topic and group. Its start offset is 0 without options, and the last option's otherwise. |
| Consumer.Run | internal/messaging/consumer.go:48-63 | The loop stops at the first position that is not clean, with that step's error. It is a fetch error exactly when the stream ended or the fetch failed. |
| Consumer.Values | internal/messaging/consumer.go:83 | The payloads handed to the handler are the messages' values, in order. |
| Consumer.CleanRunCommitsAll | internal/messaging/consumer.go:48-63 | With no failures, the loop commits every message and stops only when the context ends. |
| Consumer.HandlerErrorFirst | internal/messaging/consumer.go:55-57 | A handler error stops the loop at that message, which is not committed. |
| Consumer.Reader.FetchMessage | internal/messaging/consumer.go:50-53 | Returns the next message and advances, or returns the fetch error and stays. |
| Consumer.Reader.CommitMessages | internal/messaging/consumer.go:59-61 | A successful commit appends the message to the committed ones. A failed commit commits nothing. |
| Consumer.Consumer.ProcessMessage | internal/messaging/consumer.go:65-90 | The handler receives the message's value, and its error is returned unchanged. |
| Consumer.Consumer.Consume | internal/messaging/consumer.go:48-63 | Returns the error of the first failing step, never nil. Exactly the messages before the stopping point are committed, in order. The handler saw exactly the fetched values. |
| Carrier.FirstWith | internal/messaging/carrier.go:14-18 | The first header with the key, or the length when no header has it. |
| Carrier.KeysOf | internal/messaging/carrier.go:35-41 | One key per header, in header order. |
| Carrier.MessageCarrier.Get | internal/messaging/carrier.go:13-20 | The value of the first header with the key, or "" when none has it. |
| Carrier.MessageCarrier.Set | internal/messaging/carrier.go:22-33 | The first header with the key gets the new value; without one, a header is appended. |
| Carrier.MessageCarrier.Keys | internal/messaging/carrier.go:35-41 | The header keys, in order. |
| Carrier.GetAfterSet | internal/messaging/carrier.go:13-33 | `Get` after `Set` on a key answers the value just set. |
| Carrier.GetAbsent | internal/messaging/carrier.go:19 | `Get` on an absent key answers "". |
| Carrier.SetPresentKeepsShape | internal/messaging/carrier.go:23-28 | `Set` on a present key changes only the first match's value. Length, keys and every other header stay as they were. |
| Carrier.SetAbsentAppends | internal/messaging/carrier.go:29-32 | `Set` on an absent key appends exactly one header. |
| Carrier.SetIdempotent | internal/messaging/carrier.go:22-33 | Setting the same key and value twice equals setting it once. |
| Carrier.SetLeavesOtherKeys | internal/messaging/carrier.go:22-33 | `Set` on one key does not change what `Get` answers for any other key. |
| Gateway.ProxyReply | internal/gateway/handler.go:34-62 | A forwarding error is a 502 with the JSON error body. Otherwise the status and body pass through, and the Content-Type is copied exactly when it is non-empty. |
| Gateway.HandleOrders | internal/gateway/handler.go:25-27 | The orders request is forwarded with its path unchanged, and the reply is the proxy's. |
| Gateway.InventoryPath | internal/gateway/handler.go:30 | A path without `/inventory/` is forwarded unchanged. A path starting with `/inventory/` has that prefix replaced by `/stock/`, and the rest is kept. |
| Gateway.HandleInventory | internal/gateway/handler.go:29-32 | The inventory request is forwarded with the rewritten path, and the reply is the proxy's. |
| Gateway.InventoryPathWithoutMarker | internal/gateway/handler.go:30 | A path without "/inventory/" is forwarded unchanged. |
| Gateway.InventoryPrefixRewritten | internal/gateway/handler.go:30 | A leading "/inventory/" becomes "/stock/". |
| Gateway.OnlyFirstMarkerReplaced | internal/gateway/handler.go:30 | Only the first "/inventory/" is replaced. |
| Gateway.ItemRoutesKeepStockSegment | internal/gateway/handler.go:30 | `/inventory/stock/{itemId}` reaches the inventory service as `/stock/stock/{itemId}`. |
| Gateway.ListingRouteBecomesItemPath | internal/gateway/handler.go:30 | `/inventory/stock` reaches the inventory service as `/stock/stock`. |
| Gateway.IntendedInventoryPath | internal/gateway/handler_test.go:104-116 | Drops the leading `/inventory` segment of a path under `/inventory/` and leaves any other path as it is. |
| Gateway.IntendedRoutesReachStock | cmd/gateway/main.go:59-62 | Under the intended rewrite, every gateway inventory route reaches the inventory route of the same shape (cmd/inventory/main.go:48-51). |
| Gateway.ItemRouteMissesExpectedPath | internal/gateway/handler_test.go:107 | The rewrite as written sends `/inventory/stock/item-123` somewhere other than `/stock/item-123`, which the intended rewrite reaches. |
| Gateway.BadGatewayOnlyFromFailure | internal/gateway/handler.go:34-47 | The client sees 502 exactly when forwarding failed or the downstream itself said 502. |
| Gateway.NotFoundPassesThrough | internal/gateway/handler_test.go:132-154 | A downstream 404 reaches the client as 404, with its body and Content-Type. |
| Strings.Split | cmd/orders/main.go:49 | Split parts never contain the separator, and there is at least one part. |
| Strings.JoinSplit | cmd/orders/main.go:49 | Joining the parts of a split gives back the string. |
| Strings.SplitJoin | cmd/orders/main.go:69 | Splitting a join of separator-free parts gives back the parts. |
| Strings.TrimLeft | cmd/orders/main.go:69 | Only leading separators are dropped, and the result does not start with one. |
| Strings.TrimRight | cmd/orders/main.go:69 | Only trailing separators are dropped, and the result does not end with one. |
| Strings.DecimalRoundTrip | internal/worker/handler.go:150 | `%d` of a count reads back as that count. |
| Strings.ReplaceFirst | internal/gateway/handler.go:30 | `strings.Replace` with n = 1: the string is unchanged when the pattern does not occur. Otherwise the first occurrence, and only it, is replaced. |
| Strings.Trim | cmd/orders/main.go:69 | The result is a slice of the input, and everything around it is the trimmed character. The result neither starts nor ends with that character. |
| Strings.DecimalString | internal/worker/handler.go:150 | `%d` of a count is non-empty and made only of digits. |
| Strings.FirstIndex | internal/gateway/handler.go:30 | The first occurrence of the pattern, or none exactly when the pattern does not occur. |
| Strings.LexMinExists | internal/inventory/repository.go:25 | A non-empty set of item ids has a least id, so `ORDER BY item_id` can always pick one. |

## Findings

| source | as written | input that shows it | evidently intended | confidence | as-written member | corrected member |
|---|---|---|---|---|---|---|
| cmd/orders/main.go:68-80 | The `/orders/` pattern declares no `{id}`, so `PathValue("id")` is always empty. `HandleGet` and `HandleUpdateStatus` then answer 400 (internal/orders/handler.go:75-79, 102-106). | `PATCH /orders/{id}/status` for an existing order answers 400, so the worker's `Handle` never succeeds. `GET /orders/{id}` answers 400 too. | Register `GET /orders/{id}` and `PATCH /orders/{id}/status`, as the integration tests do (test/integration_test.go:272-274). | high; not executed | SagaProofs.MainWiringNeverSucceeds | SagaProofs.HappySagaConfirms |
| internal/gateway/handler.go:30 | `/inventory/` is replaced by `/stock/`. The gateway's own routes (cmd/gateway/main.go:59-62) already continue with `stock`, so every inventory route reaches the inventory service with the segment doubled. | `GET /inventory/stock/item-123` is forwarded as `/stock/stock/item-123`, but the gateway test expects `/stock/item-123` (internal/gateway/handler_test.go:107). `GET /inventory/stock` becomes `/stock/stock`. | Drop the leading `/inventory` segment, so each route reaches `/stock`, `/stock/{itemId}`, `/stock/{itemId}/reserve` or `/stock/{itemId}/release` (cmd/inventory/main.go:48-51). | high; not executed | Gateway.ItemRoutesKeepStockSegment | Gateway.IntendedRoutesReachStock |

`Gateway.HandleInventory` models the code as written. `Gateway.ItemRouteMissesExpectedPath` sets
the two rewrites side by side on the test's input. `OrdersMain.GetOrderIsBadRequest` and
`OrdersMain.UpdateStatusIsBadRequest` show the 400 answers of the orders mux. `HappySagaConfirms`
runs the saga against `TestWiring`, the corrected routes.

## Left out

- SQL execution and schema: statements are modelled by their effect on in-memory tables.
  - Each statement's failure is a boolean parameter. Scan errors and `rows.Err()` are folded into
    the failure of the query they belong to.
  - Column widths are unknown, so counters are unbounded integers.
  - `ORDER BY` on strings is code-point order. Rows of a query without `ORDER BY` come in
    insertion order.
- JSON encoding and decoding: a body that does not decode is `None`. A response body is the value
  it encodes. Field names, JSON `null` and number formats are not modelled.
- UUID generation and clocks: the new order id is a parameter, which must be fresh for success,
  and so is the creation time. Item-row ids and `updated_at` are not kept.
- Logging, tracing spans, metrics and the telemetry packages are left out. Trace-context
  propagation is covered only through the carrier's header operations.
- The Kafka producer's internals (internal/messaging/producer.go) are not part of this model.
  Publishing is a method that records the keyed event or fails.
- `ServiceProxy.ForwardRequest` (internal/gateway/proxy.go) is abstracted into a function from the
  forwarded path to a downstream response or a forwarding error. Request bodies, methods and
  request headers are not modelled.
- The email service's handler and its artificial delay are not modelled: it accepts every
  well-formed message.
- HTTP routing of the standard mux under the `{id}` patterns: `TestWiring` assumes ids without
  `/`. Empty ids and ids that contain `/` are not modelled there.
- OrdersMain.Dispatch: the redirect is a route of its own. Its `Location` header, the query
  string it keeps, and a client that follows it are not modelled. Host patterns and the
  trailing-slash redirect are not modelled: the orders mux registers neither.
- Worker.StatusStep: order ids are taken as plain path segments, as the service's own ids are.
  The model does not capture the mux's redirect for an empty, `.` or `..` order id.
- Kafka:
  - The stream a consumer group reads is a finite sequence. The context ending is modelled as the
    fetch after the last message failing.
  - A blocking fetch, rebalancing, partitions and committed group offsets are not modelled. The
    start offset is recorded in the reader config only.
  - The handler is a pure function of the payload.
- Consumer.Consumer.ProcessMessage: trace-context extraction and the span are left out. The
  contract covers only the handler's call and result.
- Carrier.MessageCarrier: the carrier owns its header list. Aliasing with the `kafka.Message` it
  wraps is not modelled, and header values are taken one character per byte.
- Concurrency: each repository statement is one atomic step. Interleavings are modelled only as
  sequences of reserve and release statements (`AtomicUpdatesNeverOversell`), not as concurrent
  HTTP handlers.
- Worker.Handle: the payload arrives already decoded, or `None` for malformed JSON. The error is
  a classification, not the wrapped error text. Marshalling the `{"quantity": q}` bodies cannot
  fail. Building a request can fail, for an item id that is not valid in a URL.
- Worker.ReserveStep, Worker.ReleaseStep: the item id is assumed to be a plain URL path segment.
  That means non-empty, without `/`, `?`, `#` or `%`, and not `.` or `..`. The id is placed in the
  URL unescaped (internal/worker/handler.go:89, 125), and the model hands it to the inventory
  handler as its path value unchanged. The model does not capture what Go does with other ids:
  - the mux decodes escapes such as `%2D`;
  - `/` misses the route (404);
  - `?` or `#` truncates the path;
  - an empty id or a dot segment is cleaned and redirected;
  - a malformed escape fails request construction before any call is made.
