# Offline-first order sync, modelled in Dafny

This project models the order side of OfflineFirstShoppingTestApp, a React
Native shop that keeps working without a connection. A shopper's cart is an
order kept in a local record store. Each change is written locally at once
and queued as an intent. A sync manager replays the intents against the
remote order API when the device is online, and a last-write-wins resolver
merges the server's copy back into the store.

The model covers, file by file:

- `database.dfy`: the local record store. It has four tables (orders,
  order line items, products, sync queue), each a sequence in insertion
  order, and a fresh-id counter standing for generated record ids. It is a
  class whose methods change its tables in place.
- `schema.dfy`, `wrappers.dfy`: record shapes, `Option`, `Result` and
  `Outcome`.
- `order_storage.dfy`: the order store. It covers create, update (items
  replaced by soft-delete plus re-create), soft delete, mark for deletion
  and mark synced. It also covers the read view (live items only, totals
  recomputed, status derived from `operation` and `synced`), the
  active-order and pending-order queries, and the name-keyed merge of an
  API response (`updateOrderWithApiData`).
- `product_storage.dfy`: the product catalog. It covers create, partial
  update, permanent delete, lookups, clearing, and the by-name product
  lookup the merge and the resolver use.
- `sync_queue.dfy`: the retry constants (3 retries, a 1000 ms base delay
  doubling per failure, the 500 ms debounce, the 30 s interval). It also
  covers the drain order (priority descending, then timestamp ascending),
  the counters, and what one drain step leaves in the queue.
- `order_sync.dfy`: what replaying one intent does. This covers the
  create, update and delete calls, the 409 re-fetch and the 404-as-success
  delete, and the run of a whole drain as a function.
- `conflict.dfy`: the winner test over the fallback chains of stamps, and
  the two outcomes' writes.
- `sync_manager.dfy`: the sync manager as a class. It holds the status
  record, subscribers, deferred retry writes, scheduled drains, the drain
  split at its await points, and the network, interval, debounce and retry
  timer events.
- `offline_order_actions.dfy`, `order_management.dfy`,
  `order_actions.dfy`: the three cart hooks.
- `order_slice.dfy`, `product_slice.dfy`: the two Redux slices.

Conventions:

- Prices are integers in minor units.
- `Date.now()` is a parameter `now`.
- Remote answers are values of `RemoteOutcome`: ok, 409, 404, or another
  failure. One `Reply` is given per replayed intent.
- The network state is a parameter of the event methods.

The drain sorts and replays the whole queue, exhausted entries included,
so the entries counted as failed are also counted as pending.

## Model

| member | source | states |
|---|---|---|
| Database.OrderIndex | src/services/storage/orderStorage.ts:184 | `find` on the orders table: the first row holding the id, and none exactly when no row holds it |
| Database.SameIdsSameIndex | src/services/storage/orderStorage.ts:81-89 | rewriting order rows without changing their ids does not change what `find` returns |
| Database.ItemsOf | src/services/storage/orderStorage.ts:95-97 | the query by order id holds exactly the table's rows of that order, deleted ones included |
| Database.Database.Contents | src/services/storage/database/index.ts:15-18 | the snapshot of all tables is well formed exactly when the store is |
| Database.Database.constructor | src/services/storage/database/index.ts:15-18 | a new store has empty tables and is well formed |
| Database.AppendOrderRow | src/services/storage/orderStorage.ts:41-47 | an order row created under the next fresh id is found at the end of the table |
| Database.InsertOrder | src/services/storage/orderStorage.ts:41-47 | `create` on the orders table appends the row and uses up one fresh id |
| Database.InsertLineItem | src/services/storage/orderStorage.ts:51-61 | `create` on the line-item table appends the row and uses up one fresh id |
| Database.SetLineItem | src/services/storage/orderStorage.ts:313-321 | `update` of one line-item row replaces that row only |
| Database.UpdateItemsOf | src/services/storage/orderStorage.ts:99-104 | the update loop over an order's rows leaves exactly the table that the field update gives |
| OrderStorage.OrderSyncStatusOf | src/services/storage/orderStorage.ts:205-210 | an order never reads as failed; it reads as pending deletion exactly when its operation is 'delete', and as synced exactly when it is not being deleted and its synced flag is set |
| OrderStorage.VisibleItems | src/services/storage/orderStorage.ts:187-189 | a row is among an order's items exactly when it belongs to that order and is not soft-deleted |
| OrderStorage.VisibleItemsAppend | src/services/storage/orderStorage.ts:187-189 | the item query of a table made of two parts is the query of the first part followed by that of the second, so rows keep table order |
| OrderStorage.VisibleItemsAllLive | src/services/storage/orderStorage.ts:187-189 | when every row belongs to the order and is live, the query returns the rows themselves, in order |
| OrderStorage.VisibleItemsNone | src/services/storage/orderStorage.ts:187-189 | when no row is a live row of the order, the query is empty |
| OrderStorage.OrderView | src/services/storage/orderStorage.ts:191-214 | the order view carries the row's id, timestamp, API id and derived status; its items are exactly the views of the order's live rows in table order, each with its total recomputed; `createdAt` and `updatedAt` fall back to `now` when unset |
| OrderStorage.GetOrderById | src/services/storage/orderStorage.ts:179-218 | succeeds exactly when the id names an order row (deleted or not) and then returns that row's view; otherwise the lookup error |
| OrderStorage.ActiveIndex | src/services/storage/orderStorage.ts:134-143 | picks the first order row that is not soft-deleted: every earlier row is deleted, and there is none exactly when all rows are |
| OrderStorage.GetActiveOrder | src/services/storage/orderStorage.ts:129-177 | there is no active order exactly when every order is soft-deleted; otherwise the result is the view of the first live order in table order |
| OrderStorage.GetPendingSyncOrders | src/services/storage/orderStorage.ts:369-422 | returns the views of exactly the orders whose synced flag is false, soft-deleted ones included (both directions) |
| OrderStorage.AppendItems | src/services/storage/orderStorage.ts:49-62 | appends one row per input with consecutive fresh ids and leaves the rest of the table as it was |
| OrderStorage.MarkedItemsInvisible | src/services/storage/orderStorage.ts:94-104 | once every row of an order has been soft-deleted, none of its items is shown |
| OrderStorage.ReplaceOrderKeepsValid | src/services/storage/orderStorage.ts:81-89 | rewriting one order row in place under the same id keeps the order table well formed and its ids unchanged |
| OrderStorage.FreshItemsVisible | src/services/storage/orderStorage.ts:49-62 | under a newly created order id exactly the rows created for it are shown |
| OrderStorage.NewRowsAreTheView | src/services/storage/orderStorage.ts:93-119 | once the order's old rows are all retired, the rows appended for a list are the order's whole view: same names, prices, quantities, images and products, in order |
| OrderStorage.CreatedOrderShowsInputs | src/services/storage/orderStorage.ts:27-69 | a created order is found under its fresh id and shows exactly its input items, in order |
| OrderStorage.UpdatedOrderShowsInputs | src/services/storage/orderStorage.ts:71-127 | after an update with a new item list, the order shows exactly that list |
| OrderStorage.CreateOrder | src/services/storage/orderStorage.ts:27-69 | adds one unsynced live order with operation 'create' and lastModified now, and one row per input item pointing at it; the returned value is what getOrderById reads for the new id, pending and without an API id |
| OrderStorage.UpdateOrder | src/services/storage/orderStorage.ts:71-127 | an unknown id fails and changes nothing; otherwise the order becomes unsynced with operation 'update', its timestamp changes only when given, and with a new item list every old row is retired and one row is created per item; the result reads as pending |
| OrderStorage.DeleteOrder | src/services/storage/orderStorage.ts:220-252 | an unknown id fails and changes nothing; otherwise the order and every one of its rows become soft-deleted, operation 'delete', unsynced, and the order shows no item |
| OrderStorage.MarkOrderForDeletion | src/services/storage/orderStorage.ts:254-275 | an unknown id fails; otherwise only operation and synced change, the order stays live and reads as pending deletion |
| OrderStorage.MarkOrderSynced | src/services/storage/orderStorage.ts:424-455 | an unknown id fails and changes nothing; otherwise the order and all its rows become synced with an empty operation |
| OrderStorage.NameMap | src/services/storage/orderStorage.ts:296-305 | every name of a row of the order (deleted rows included) maps to a row of the order with that name, and no later row of the order has that name |
| OrderStorage.LastNamedIndex | src/services/storage/orderStorage.ts:308-321 | finds the last response item with a name; there is none exactly when no item has it |
| OrderStorage.BuildNameMap | src/services/storage/orderStorage.ts:301-305 | the one-pass loop over the rows builds exactly the name map |
| OrderStorage.CreatedRows | src/services/storage/orderStorage.ts:322-344 | the created rows are at most one per response item, each synced, live, of the order, with consecutive fresh ids |
| OrderStorage.ApplyMappedItem | src/services/storage/orderStorage.ts:311-321 | a response item whose name is mapped overwrites exactly the mapped row |
| OrderStorage.ApplyUnmappedItem | src/services/storage/orderStorage.ts:322-344 | a response item whose name is not mapped leaves every existing row alone |
| OrderStorage.ApplyApiItem | src/services/storage/orderStorage.ts:308-345 | one pass of the loop moves the table from the state after i response items to the state after i + 1 |
| OrderStorage.UpdateMappedItem | src/services/storage/orderStorage.ts:311-321 | the mapped row takes the item's price, quantity and image, becomes synced and live, and keeps its product |
| OrderStorage.CreateUnmappedItem | src/services/storage/orderStorage.ts:322-344 | a new synced row of the order is appended for the item, its product found by name in the product table or else taken from the item's id |
| OrderStorage.ApplyApiItems | src/services/storage/orderStorage.ts:308-345 | the loop over all response items yields the updated rows followed by the created ones |
| OrderStorage.RetireUnlisted | src/services/storage/orderStorage.ts:347-359 | among the rows that existed before the merge, each row of the order whose name is not listed is soft-deleted and unsynced; every other row is unchanged |
| OrderStorage.MergeAssembles | src/services/storage/orderStorage.ts:296-359 | the three loops together give the merged old rows followed by the created ones |
| OrderStorage.UpdateOrderWithApiData | src/services/storage/orderStorage.ts:277-367 | an unknown id fails and changes nothing; otherwise the order becomes synced with an empty operation and the API id, its rows are merged by name, and the result is what getOrderById reads |
| OrderStorage.MergeApiItems | src/services/storage/orderStorage.ts:296-359 | the item part of the merge: the merged old rows followed by the created rows, with the id counter advanced by their number |
| OrderStorage.CreatedCarriesLast | src/services/storage/orderStorage.ts:322-344 | for a listed name no old row of the order carries, a created row holds the values of the last response item with that name, and its product id is that of the first catalog product with the name, else the response item's id |
| OrderStorage.CreatedNamesListed | src/services/storage/orderStorage.ts:322-344 | every created row is named after some response item |
| OrderStorage.MappedRowCarries | src/services/storage/orderStorage.ts:308-321 | the row a listed name maps to ends live and synced, holding the last response item with that name, and keeps its own product id |
| OrderStorage.MergedRowListed | src/services/storage/orderStorage.ts:347-359 | an old row of the order that is live after the merge has a listed name |
| OrderStorage.MergeShowsEveryListedName | src/services/storage/orderStorage.ts:296-359 | after the merge every name the response lists is shown by a live item of the order holding the values of the last response item with that name; its product id is the old row's own when the order had an item of that name, else the first catalog product's with the name, else the response item's id |
| OrderStorage.MergeDropsUnlistedNames | src/services/storage/orderStorage.ts:347-359 | after the merge no live row of the order carries a name the response does not list |
| OrderStorage.MergeKeepsOtherOrders | src/services/storage/orderStorage.ts:296-359 | rows of other orders come through the merge unchanged, and every created row belongs to the order |
| ProductStorage.ProductIndex | src/services/storage/productStorage.ts:53 | `find` on the products table: a row holding the id, and none exactly when no row holds it |
| ProductStorage.FirstNamedIndex | src/services/storage/orderStorage.ts:325-331 | the first product row carrying a name: every earlier row has another name, and there is none exactly when no row has it |
| ProductStorage.ProductIdByName | src/services/storage/orderStorage.ts:330-331 | the product id a new item gets is the id of the first catalog product with its name, and the fallback id when no product has that name |
| ProductStorage.ApplyUpdates | src/services/storage/productStorage.ts:56-64 | each field given in the partial update overwrites the product's, every other field and the id are kept |
| ProductStorage.NoUpdatesIsIdentity | src/services/storage/productStorage.ts:56-64 | an update with every field undefined changes nothing |
| ProductStorage.UpdatesIdempotent | src/services/storage/productStorage.ts:56-64 | applying the same partial update twice is applying it once |
| ProductStorage.GetProduct | src/services/storage/productStorage.ts:92-110 | returns a stored product with the id, and null exactly when no product has it |
| ProductStorage.GetProductsBySyncStatus | src/services/storage/productStorage.ts:132-154 | returns exactly the products whose status is the one asked for |
| ProductStorage.GetAfterAppend | src/services/storage/productStorage.ts:92-110 | a product appended under a fresh id is what getProduct then returns for that id |
| ProductStorage.CreateProduct | src/services/storage/productStorage.ts:16-45 | stores exactly the supplied fields under a fresh id at the end of the table and returns that record, which getProduct then finds |
| ProductStorage.UpdateProduct | src/services/storage/productStorage.ts:47-80 | an unknown id fails and changes nothing; otherwise only that row changes, to the partial update applied to it, and the result is the new row |
| ProductStorage.DeleteProduct | src/services/storage/productStorage.ts:82-90 | succeeds exactly when the id exists, then removes that row for good and keeps the others in order; afterwards getProduct finds nothing for the id |
| ProductStorage.ClearAllProducts | src/services/storage/productStorage.ts:156-168 | every product row is destroyed and the catalog ends empty |
| OrderSlice.Reduce | src/store/slices/orderSlice.ts:19-38 | field by field: the shown order changes only by setOrder and clearOrder, loading only by setLoading and setError (which ends it), the error is cleared by setOrder, clearOrder and clearError and set by setError |
| OrderSlice.ReduceIdempotent | src/store/slices/orderSlice.ts:19-38 | every reducer only assigns fields, so dispatching an action twice is dispatching it once |
| OrderSlice.ClearOrderForgetsSetOrder | src/store/slices/orderSlice.ts:20-27 | clearOrder after setOrder is clearOrder alone, and leaves no order and no error |
| OrderSlice.ErrorEndsLoading | src/store/slices/orderSlice.ts:28-34 | after setError the slice is not loading, whatever follows, until a setLoading |
| OrderSlice.NoLoadingStaysIdle | src/store/slices/orderSlice.ts:28-34 | a slice that is not loading stays so under any actions other than setLoading |
| OrderSlice.OrderChangesOnlyBySetOrClear | src/store/slices/orderSlice.ts:20-27 | under any actions other than setOrder and clearOrder the shown order is unchanged |
| ProductSlice.RejectionMessage | src/store/slices/productSlice.ts:49-52 | the stored error is never empty: the thrown message when there is a non-empty one, else 'Failed to fetch products' |
| ProductSlice.Reduce | src/store/slices/productSlice.ts:28-53 | field by field: items are replaced by a fulfilled fetch and emptied by clearProducts; loading starts on pending and ends on fulfilled or rejected; the error is cleared by pending and clearError and set by rejected |
| ProductSlice.FetchSettles | src/store/slices/productSlice.ts:38-52 | a fetch that starts and ends leaves the slice idle: with the fetched list and no error, or with the rejection's error and the old list |
| ProductSlice.ClearsCommute | src/store/slices/productSlice.ts:29-34 | the two plain reducers touch disjoint fields: their order does not matter and together they empty the list and the error |
| SyncQueue.RetryDelay | src/services/sync/offlineFirstSyncManager.ts:383 | the wait before the write recording a failure is never shorter than the base delay of 1000 ms |
| SyncQueue.RetryDelayDoubles | src/services/sync/offlineFirstSyncManager.ts:383 | each further failure doubles the wait |
| SyncQueue.PrecedesTotal | src/services/sync/offlineFirstSyncManager.ts:114-116 | of any two entries one may be replayed before the other (higher priority first, then older timestamp) |
| SyncQueue.Insert | src/services/sync/offlineFirstSyncManager.ts:114-116 | inserting an entry into the drain order adds exactly that entry |
| SyncQueue.InsertOrdered | src/services/sync/offlineFirstSyncManager.ts:114-116 | inserting into a list in drain order keeps it in drain order |
| SyncQueue.SortForDrain | src/services/sync/offlineFirstSyncManager.ts:114-116 | the drain query returns a permutation of the queue, sorted by priority descending and then timestamp ascending |
| SyncQueue.SortKeepsIdsDistinct | src/services/sync/offlineFirstSyncManager.ts:114-118 | sorting keeps the entry ids distinct, so no intent is replayed twice in one drain |
| SyncQueue.SortedHasEveryEntry | src/services/sync/offlineFirstSyncManager.ts:114-118 | every queued intent is in the drain list, and nothing else is |
| SyncQueue.CountExhausted | src/services/sync/offlineFirstSyncManager.ts:403-405 | the failed count never exceeds the queue's size |
| SyncQueue.WithoutExhausted | src/services/sync/offlineFirstSyncManager.ts:454-462 | an entry remains after clearing exactly when it was queued and its retry count is below 3 |
| SyncQueue.ClearingRemovesTheCounted | src/services/sync/offlineFirstSyncManager.ts:451-469 | clearing failed entries removes exactly as many entries as the failed count says, and leaves none counted |
| SyncQueue.RemoveEntry | src/services/sync/offlineFirstSyncManager.ts:122-124 | destroying an entry removes exactly the entries with its id |
| SyncQueue.RemoveEntryHas | src/services/sync/offlineFirstSyncManager.ts:122-124 | after destroying entry id, an entry is queued exactly when it was before and is not that one |
| SyncQueue.RemoveEntryKeepsIdsDistinct | src/services/sync/offlineFirstSyncManager.ts:122-124 | destroying an entry keeps the ids distinct |
| SyncQueue.QueueStepHas | src/services/sync/offlineFirstSyncManager.ts:118-128 | after one drain step an entry is queued exactly when it was before, unless it is the replayed entry and its step succeeded |
| SyncQueue.DrainKeepsExactlyFailures | src/services/sync/offlineFirstSyncManager.ts:118-128 | over a whole drain an entry of the drained list stays queued exactly when its own step failed, and entries outside the list are untouched |
| SyncQueue.QueueStepKeepsIdsDistinct | src/services/sync/offlineFirstSyncManager.ts:118-128 | one drain step keeps the ids distinct |
| SyncQueue.ExhaustingFailureRecorded | src/services/sync/offlineFirstSyncManager.ts:372-381 | the failure that reaches the limit is written at once on the entry itself, with the raised count and the message, and makes it count as failed |
| SyncQueue.DrainLeavesExactlyFailures | src/services/sync/offlineFirstSyncManager.ts:102-128 | after a drain over the sorted queue an entry is still queued exactly when it was queued and the step replaying it failed; no entry appears |
| OrderSync.RunSteps | src/services/sync/offlineFirstSyncManager.ts:118-128 | the drain's steps over a list, one after another, give one outcome per entry |
| OrderSync.RunStepsNext | src/services/sync/offlineFirstSyncManager.ts:118-128 | the run over one more entry is the run so far followed by that entry's step: its tables, its calls appended, its outcome and its deferred write |
| OrderSync.RanAll | src/services/sync/offlineFirstSyncManager.ts:118-128 | once every entry has run, the tables, calls, outcomes and deferred writes are those of the whole run |
| OrderSync.RanOneMore | src/services/sync/offlineFirstSyncManager.ts:118-128 | a step taken from the state after n steps yields the state after n + 1 |
| OrderSync.SyncOrderKeepsQueue | src/services/sync/offlineFirstSyncManager.ts:161-247 | replaying an intent never touches the queue, the catalog, or another order's row |
| OrderSync.StepQueueIsQueueStep | src/services/sync/offlineFirstSyncManager.ts:118-128 | whatever the replay wrote elsewhere, the queue changes only by removal on success or by the immediate failure write |
| OrderSync.StepKeepsTablesOk | src/services/sync/offlineFirstSyncManager.ts:118-128 | a drain step keeps every table well formed |
| OrderSync.StepKeepsQueueOk | src/services/sync/offlineFirstSyncManager.ts:122-127 | a queue step keeps the queue well formed |
| OrderSync.ConflictIsResolved | src/services/sync/offlineFirstSyncManager.ts:185-194 | a 409 on create or update is not a failure: the server copy is fetched under the order's API id (else the local id) and resolved against, and the replay succeeds |
| OrderSync.WriteSuccessSyncsOrder | src/services/sync/offlineFirstSyncManager.ts:169-225 | any successful replay of a create or update leaves the order reading as synced |
| OrderSync.DeleteOutcome | src/services/sync/offlineFirstSyncManager.ts:227-245 | a delete of an existing order succeeds exactly when the API answers ok or 404; a 404 changes nothing; an ok marks the order deleted and synced |
| OrderSync.RunStepsQueue | src/services/sync/offlineFirstSyncManager.ts:118-128 | over a whole run the queue goes through one queue step per entry |
| OrderSync.RunStepsKeepsTablesOk | src/services/sync/offlineFirstSyncManager.ts:118-128 | a whole run keeps every table well formed |
| ConflictResolution.ItemsNotOf | src/services/sync/offlineFirstSyncManager.ts:336-342 | destroying an order's rows never grows the table |
| ConflictResolution.ItemsNotOfKeepsOthers | src/services/sync/offlineFirstSyncManager.ts:336-342 | the rows left are exactly the rows of other orders |
| ConflictResolution.ItemsNotOfKeepsOrder | src/services/sync/offlineFirstSyncManager.ts:336-342 | the rows left keep their relative order in the table |
| ConflictResolution.RemoteRows | src/services/sync/offlineFirstSyncManager.ts:344-364 | one new synced, live row of the order per server item, with consecutive fresh ids and the product looked up by name, else the server item's product id |
| ConflictResolution.TieGoesLocal | src/services/sync/offlineFirstSyncManager.ts:268 | equal stamps resolve to the local copy |
| ConflictResolution.ResolveKeepsOrderIds | src/services/sync/offlineFirstSyncManager.ts:249-288 | resolution rewrites the order row in place: the order ids are unchanged |
| ConflictResolution.ResolveKeepsTablesOk | src/services/sync/offlineFirstSyncManager.ts:249-366 | resolution keeps every table well formed |
| ConflictResolution.SwappedItemsOk | src/services/sync/offlineFirstSyncManager.ts:336-364 | destroying the order's rows and creating the server's keeps the line-item table well formed |
| ConflictResolution.MarkingSyncedItemsChangesNothing | src/services/sync/offlineFirstSyncManager.ts:304-313 | marking rows synced that already are changes nothing |
| ConflictResolution.ResolveIdempotent | src/services/sync/offlineFirstSyncManager.ts:249-366 | resolving again against the same server copy changes nothing more |
| ConflictResolution.ResolvedOrderReadsSynced | src/services/sync/offlineFirstSyncManager.ts:296-302 | whichever side wins, the order then reads as synced and carries the server's id |
| ConflictResolution.SwappedItemsVisible | src/services/sync/offlineFirstSyncManager.ts:336-364 | after the swap the order's visible rows are exactly the new rows |
| ConflictResolution.RemoteWinsShowsRemoteItems | src/services/sync/offlineFirstSyncManager.ts:317-366 | when the server wins, the order shows exactly the server's items in the server's order: names, prices, quantities, images, totals, looked-up products, synced |
| ConflictResolution.ResolveKeepsOtherOrders | src/services/sync/offlineFirstSyncManager.ts:249-366 | resolution touches only the order it resolves and its rows: catalog, queue, other orders and other orders' rows are unchanged |
| SyncManager.WithCounts | src/services/sync/offlineFirstSyncManager.ts:397-413 | the pending count is the queue's size and the failed count never exceeds it |
| SyncManager.RemoveFirst | src/services/sync/offlineFirstSyncManager.ts:421-426 | `indexOf` then `splice(index, 1)`: a present handle loses exactly one occurrence, an absent one leaves the list as it is |
| SyncManager.UnsubscribeUndoesSubscribe | src/services/sync/offlineFirstSyncManager.ts:419-427 | the function addStatusListener returns undoes the subscription it made |
| SyncManager.RemoveFirstAt | src/services/sync/offlineFirstSyncManager.ts:421-426 | the occurrence removed is the first one |
| SyncManager.IndexOf | src/services/sync/offlineFirstSyncManager.ts:422 | -1 exactly when the handle is absent, else its first position |
| SyncManager.Unsubscribe | src/services/sync/offlineFirstSyncManager.ts:421-426 | the loop-based unsubscribe removes exactly the first occurrence |
| SyncManager.DestroyItemAt | src/services/sync/offlineFirstSyncManager.ts:341 | `destroyPermanently` of one line-item row removes that row only |
| SyncManager.DestroyItemsOf | src/services/sync/offlineFirstSyncManager.ts:336-342 | the loop destroys exactly the rows of the order and keeps the others in order |
| SyncManager.CreateRemoteItems | src/services/sync/offlineFirstSyncManager.ts:344-364 | one synced row of the order is appended per server item, with consecutive fresh ids |
| SyncManager.DestroyEntryAt | src/services/sync/offlineFirstSyncManager.ts:460 | `destroyPermanently` of one queue entry removes that entry only |
| SyncManager.DestroyExhausted | src/services/sync/offlineFirstSyncManager.ts:454-462 | the loop destroys exactly the entries whose retry count reached 3 |
| SyncManager.OfflineFirstSyncManager.constructor | src/services/sync/offlineFirstSyncManager.ts:25-43 | starts offline, idle, never synced, no error, zero counts, no subscribers, with the 30-second interval set |
| SyncManager.OfflineFirstSyncManager.GetSyncStatus | src/services/sync/offlineFirstSyncManager.ts:415-417 | returns a copy of the status record |
| SyncManager.OfflineFirstSyncManager.AddStatusListener | src/services/sync/offlineFirstSyncManager.ts:419-420 | the listener is appended to the subscribers |
| SyncManager.OfflineFirstSyncManager.RemoveStatusListener | src/services/sync/offlineFirstSyncManager.ts:421-426 | the returned unsubscribe removes the first occurrence of the listener |
| SyncManager.OfflineFirstSyncManager.AddSyncCompleteCallback | src/services/sync/offlineFirstSyncManager.ts:429-430 | the callback is appended |
| SyncManager.OfflineFirstSyncManager.RemoveSyncCompleteCallback | src/services/sync/offlineFirstSyncManager.ts:431-436 | the returned unsubscribe removes the first occurrence of the callback |
| SyncManager.OfflineFirstSyncManager.NotifyListeners | src/services/sync/offlineFirstSyncManager.ts:439-441 | each listener, in order, receives the current status |
| SyncManager.OfflineFirstSyncManager.NotifySyncComplete | src/services/sync/offlineFirstSyncManager.ts:132-138 | each callback, in order, is called once |
| SyncManager.OfflineFirstSyncManager.UpdatePendingCount | src/services/sync/offlineFirstSyncManager.ts:397-413 | the pending count becomes the queue's size and the failed count the number of entries with retry count at least 3; nothing else changes |
| SyncManager.OfflineFirstSyncManager.QueueAction | src/services/sync/offlineFirstSyncManager.ts:68-100 | appends one entry with a fresh id, the time now, retry count 0 and no error; recounts; while online schedules a drain 500 ms later |
| SyncManager.OfflineFirstSyncManager.ApplyLocalWinsAt | src/services/sync/offlineFirstSyncManager.ts:290-315 | the order becomes synced with an empty operation and the server id, and all its rows become synced; nothing else changes |
| SyncManager.OfflineFirstSyncManager.ApplyRemoteWinsAt | src/services/sync/offlineFirstSyncManager.ts:317-366 | the order takes the server's id, stamp and timestamp; its rows are destroyed and one synced row per server item is created |
| SyncManager.OfflineFirstSyncManager.ResolveOrderConflict | src/services/sync/offlineFirstSyncManager.ts:249-288 | fails and changes nothing when the local order is missing; otherwise writes the winner's tables |
| SyncManager.OfflineFirstSyncManager.TestConflictResolution | src/services/sync/offlineFirstSyncManager.ts:478-487 | does what resolveOrderConflict does |
| SyncManager.OfflineFirstSyncManager.AfterWriteReply | src/services/sync/offlineFirstSyncManager.ts:184-194 | after a create or update answer: resolve on success, re-fetch and resolve on 409, fail on anything else; calls logged, tables changed only on success |
| SyncManager.OfflineFirstSyncManager.SyncOrderAction | src/services/sync/offlineFirstSyncManager.ts:161-247 | the outcome, the calls made and the tables left are those of the replay of the intent; a failure leaves the tables unchanged |
| SyncManager.OfflineFirstSyncManager.SyncDeleteAction | src/services/sync/offlineFirstSyncManager.ts:227-245 | the delete branch: a missing local order fails; an ok marks the order deleted and synced; a 404 counts as done with nothing written; any other error fails |
| SyncManager.OfflineFirstSyncManager.ProcessSyncAction | src/services/sync/offlineFirstSyncManager.ts:149-159 | every entry is an order intent, replayed as syncOrderAction |
| SyncManager.OfflineFirstSyncManager.HandleSyncError | src/services/sync/offlineFirstSyncManager.ts:368-395 | the failure reaching 3 is written on the entry at once; a lower one is scheduled after 1000 * 2^(count-1) ms and the queue is left as it is |
| SyncManager.OfflineFirstSyncManager.FireDeferredWrite | src/services/sync/offlineFirstSyncManager.ts:385-393 | the timer writes its count and message on the entry with its id, if that entry is still queued, and is then gone |
| SyncManager.OfflineFirstSyncManager.StartDrain | src/services/sync/offlineFirstSyncManager.ts:102-116 | starts exactly when idle and online: marks syncing, clears the error, notifies, and reads the queue in drain order; otherwise changes nothing |
| SyncManager.OfflineFirstSyncManager.DrainStep | src/services/sync/offlineFirstSyncManager.ts:118-128 | replays the next entry, then destroys it on success or records the failure, and logs its calls and deferred write |
| SyncManager.OfflineFirstSyncManager.DrainEntries | src/services/sync/offlineFirstSyncManager.ts:118-128 | the loop replays every entry of the drain list in turn, giving the whole run |
| SyncManager.OfflineFirstSyncManager.FinishDrain | src/services/sync/offlineFirstSyncManager.ts:130-146 | stamps lastSync, calls every callback, clears the syncing flag, recounts and notifies |
| SyncManager.OfflineFirstSyncManager.SyncPendingActions | src/services/sync/offlineFirstSyncManager.ts:102-147 | while syncing or offline nothing changes; otherwise the tables, calls, outcomes and deferred writes are those of the run over the sorted queue, the status is stamped and recounted, and subscribers hear of the start, the completion and the end, in that order |
| SyncManager.OfflineFirstSyncManager.RunStartedDrain | src/services/sync/offlineFirstSyncManager.ts:118-146 | after the guard: the whole run over the drain list, then the end of the drain |
| SyncManager.OfflineFirstSyncManager.ForceSync | src/services/sync/offlineFirstSyncManager.ts:443-449 | offline it fails with 'Cannot sync while offline' and changes nothing; online it is syncPendingActions |
| SyncManager.OfflineFirstSyncManager.OnNetworkChange | src/services/sync/offlineFirstSyncManager.ts:45-58 | online means connected and reachable; going from offline to online starts a drain when idle; listeners are notified either way |
| SyncManager.OfflineFirstSyncManager.PeriodicTick | src/services/sync/offlineFirstSyncManager.ts:60-66 | the interval starts a drain exactly when it is still set and the manager is online and idle |
| SyncManager.OfflineFirstSyncManager.DebounceFires | src/services/sync/offlineFirstSyncManager.ts:92-96 | the scheduled drain fires once and starts a drain under the same guard as any other start |
| SyncManager.OfflineFirstSyncManager.ClearFailedActions | src/services/sync/offlineFirstSyncManager.ts:451-469 | destroys exactly the exhausted entries; the failed count becomes 0 and the pending count drops by the old failed count; listeners are notified |
| SyncManager.OfflineFirstSyncManager.Destroy | src/services/sync/offlineFirstSyncManager.ts:471-476 | the interval is cleared and the listeners dropped |
| OfflineOrderActions.BumpProduct | src/hooks/useOfflineOrderActions.ts:141-149 | items of the product get one more unit with the total recomputed as price times the new quantity; every other item is unchanged, position by position |
| OfflineOrderActions.MatchesCountsProduct | src/hooks/useOfflineOrderActions.ts:134-136 | the product has no item in the list exactly when `find` by product id finds nothing |
| OfflineOrderActions.QuantityAppend | src/hooks/useOfflineOrderActions.ts:162 | appending an item adds its units to its product's count only |
| OfflineOrderActions.BumpRaisesQuantity | src/hooks/useOfflineOrderActions.ts:141-149 | bumping raises the product's units by the number of its items and leaves other products' units alone |
| OfflineOrderActions.AddRaisesQuantity | src/hooks/useOfflineOrderActions.ts:133-169 | adding a product raises its units by one when it is new, or by one per item already carrying it; every other product keeps its units |
| OfflineOrderActions.AddKeepsOtherItems | src/hooks/useOfflineOrderActions.ts:133-169 | after an add the product is in the list; items of other products keep place and contents; the list grows only when the product is new, by one pending unit at the end linked to the order |
| OfflineOrderActions.AddBringsOnlyTheProduct | src/hooks/useOfflineOrderActions.ts:133-169 | an add never brings in or removes a product other than the one added |
| OfflineOrderActions.ApiItems | src/hooks/useOfflineOrderActions.ts:184-192 | the payload holds one item per stored item, at the same position, with its seven fields |
| OfflineOrderActions.PayloadListsTheLines | src/hooks/useOfflineOrderActions.ts:182-194 | the payload of an order the store shows as a list carries the order's timestamp and API id and those lines in order, with their totals and the store's fresh ids |
| OfflineOrderActions.NewOrderPayload | src/hooks/useOfflineOrderActions.ts:112-131 | a new order's payload is the single unit of the product, at its price, under the store's item id |
| OfflineOrderActions.CreatedOrderQueuesOneUnit | src/hooks/useOfflineOrderActions.ts:95-99 | the order createNewOrderWithItem stores, read back under its id, is queued with the time of the add, no API id and exactly one unit of the product |
| OfflineOrderActions.UpdatedOrderQueuesAddedLines | src/hooks/useOfflineOrderActions.ts:100-102 | after addItemToExistingOrder the stored order shows exactly the added lines, so the queued payload lists them in order |
| OfflineOrderActions.StaleSecondAddDropsFirst | src/hooks/useOfflineOrderActions.ts:100-102 | the update path does not put the stored order on screen, so of two new products added one after the other the stored list keeps only the second |
| OfflineOrderActions.FreshSecondAddKeepsFirst | src/hooks/useOfflineOrderActions.ts:133-169 | when each add starts from what the previous add stored, both products are kept |
| OfflineOrderActions.CreatePathAdds | src/hooks/useOfflineOrderActions.ts:95-99 | storing the order, showing it and queueing it as create together make the create path of addToOrder |
| OfflineOrderActions.OfflineOrderActionsHook.constructor | src/hooks/useOfflineOrderActions.ts:16-25 | the hook starts with no add and no sync running and the network last seen as down |
| OfflineOrderActions.OfflineOrderActionsHook.LoadActiveOrder | src/hooks/useOfflineOrderActions.ts:28-41 | the active order, when there is one, goes on screen; otherwise the screen is unchanged |
| OfflineOrderActions.OfflineOrderActionsHook.AddToOrder | src/hooks/useOfflineOrderActions.ts:88-109 | nothing happens while an earlier add runs; with no order shown a new order holding one unit is stored, shown and queued as create; with an order shown its lines with the product added replace the stored items and, if the order still exists, it is queued as update, while the screen keeps the old order |
| OfflineOrderActions.OfflineOrderActionsHook.AddToNewOrder | src/hooks/useOfflineOrderActions.ts:95-99 | the create path: the order and its single unit stored, shown, and queued once as create |
| OfflineOrderActions.OfflineOrderActionsHook.AddToShownOrder | src/hooks/useOfflineOrderActions.ts:100-102 | the update path: the stored items replaced by the added lines and one update queued, or nothing when the order is gone; the screen unchanged |
| OfflineOrderActions.OfflineOrderActionsHook.CreateNewOrderWithItem | src/hooks/useOfflineOrderActions.ts:112-131 | a new order stamped now, holding one unit of the product at its price, is stored and returned as the store reads it |
| OfflineOrderActions.OfflineOrderActionsHook.AddItemToExistingOrder | src/hooks/useOfflineOrderActions.ts:133-169 | an order no longer stored fails and nothing changes; otherwise the stored order's items become exactly the added lines |
| OfflineOrderActions.OfflineOrderActionsHook.QueueOrderAction | src/hooks/useOfflineOrderActions.ts:172-200 | one order entry for the order's id is queued at priority 1 with the order's snapshot as payload |
| OfflineOrderActions.OfflineOrderActionsHook.AddToOrderAndShow | src/hooks/useOfflineOrderActions.ts:88-109 | the corrected add: like addToOrder, but the stored order goes on screen after an update too, so the next add starts from what was stored |
| OfflineOrderActions.OfflineOrderActionsHook.OnNetInfo | src/hooks/useOfflineOrderActions.ts:46-86 | a drain is asked for exactly when the network went from not (connected and reachable) to connected and reachable and the hook is not syncing; the state seen is recorded either way |
| OfflineOrderActions.OfflineOrderActionsHook.ForceSyncAndReload | src/hooks/useOfflineOrderActions.ts:206-212 | fails offline and changes nothing; online, the drain runs and then the active order, if any, goes on screen |
| OfflineOrderActions.OfflineOrderActionsHook.ManualSync | src/hooks/useOfflineOrderActions.ts:202-219 | runs only when connected, reachable and not syncing: a forced drain, then the active order on screen unless the drain failed; the syncing flag ends as it began |
| OrderManagement.WithoutItem | src/hooks/useOrderManagement.ts:18-20 | no item with the id is left, and the list is shorter by exactly the number of items that had it |
| OrderManagement.WithoutItemKeepsOrder | src/hooks/useOrderManagement.ts:18-20 | the kept items keep their relative order: any two of them come from positions of the original list in the same order |
| OrderManagement.WithoutItemKeepsOthers | src/hooks/useOrderManagement.ts:18-20 | the filtered list holds exactly the items that do not carry the id |
| OrderManagement.WithQuantity | src/hooks/useOrderManagement.ts:33-41 | setting a quantity keeps the list's length |
| OrderManagement.WithQuantityChangesOnlyMatches | src/hooks/useOrderManagement.ts:33-41 | items carrying the id take the new quantity with the total recomputed as price times quantity; every other item is unchanged, position by position |
| OrderManagement.FindItemIsFirst | src/hooks/useOrderManagement.ts:62-64 | the item `find` returns is the first in the list with the id: every earlier item has another id |
| OrderManagement.FindItem | src/hooks/useOrderManagement.ts:62-64 | `find` returns an item of the list with the id, and nothing exactly when no item has it |
| OrderManagement.NoOccurrences | src/hooks/useOrderManagement.ts:18-22 | no item is removed exactly when no item carries the id |
| OrderManagement.RemoveRequest | src/hooks/useOrderManagement.ts:17-31 | removing an item asks to delete the order exactly when every item carries the id; otherwise the update lists only the other items, one item per removed occurrence shorter |
| OrderManagement.NonPositiveQuantityRemoves | src/hooks/useOrderManagement.ts:17 | any quantity of zero or less asks for the same thing as removing the item |
| OrderManagement.SetQuantityRoundTrip | src/hooks/useOrderManagement.ts:33-41 | on a list whose totals are price times quantity, setting another quantity and then the old one gives back the original list |
| OrderManagement.FindsTheItem | src/hooks/useOrderManagement.ts:62-64 | when the id names one item, `find` returns it |
| OrderManagement.RaisedIsOnly | src/hooks/useOrderManagement.ts:33-41 | after setting its quantity, the item stays the only one with its id, at the new quantity |
| OrderManagement.IncrementRaisesOne | src/hooks/useOrderManagement.ts:61-68 | stepping up the item asks to update the order with that item at one unit more |
| OrderManagement.DecrementUndoesIncrement | src/hooks/useOrderManagement.ts:61-79 | on an order as the store shows it, stepping down after stepping up asks for the list the order already had |
| OrderManagement.DecrementAtOneRemoves | src/hooks/useOrderManagement.ts:76-77 | at exactly one unit, stepping down asks for the same thing as removing the item |
| OrderManagement.UnknownItemAsksNothing | src/hooks/useOrderManagement.ts:61-79 | stepping up or down an unknown id asks for nothing, while setting its quantity still asks to update the order with the list unchanged |
| OrderManagement.OrderManagementHook.constructor | src/hooks/useOrderManagement.ts:6-9 | the hook starts not updating and with no request dispatched |
| OrderManagement.OrderManagementHook.UpdateItemQuantity | src/hooks/useOrderManagement.ts:11-55 | with no order shown nothing happens; otherwise exactly the quantity request is dispatched and the updating flag ends cleared |
| OrderManagement.OrderManagementHook.RemoveItem | src/hooks/useOrderManagement.ts:57-59 | is updateItemQuantity at zero |
| OrderManagement.OrderManagementHook.IncrementQuantity | src/hooks/useOrderManagement.ts:61-68 | dispatches the increment request when the item is found, nothing otherwise |
| OrderManagement.OrderManagementHook.DecrementQuantity | src/hooks/useOrderManagement.ts:70-79 | dispatches the decrement request when there is one (above one unit, or removal at one), nothing otherwise |
| OrderManagement.OrderManagementHook.ClearOrder | src/hooks/useOrderManagement.ts:81-93 | dispatches a delete of the shown order; nothing without one |
| OrderActions.RaisedById | src/hooks/useOrderActions.ts:71-79 | raising keeps the list's length |
| OrderActions.RaisedChangesOnlyMatches | src/hooks/useOrderActions.ts:71-79 | items whose id equals the product's get one more unit with the total recomputed; every other item is unchanged, position by position |
| OrderActions.UnitsAppend | src/hooks/useOrderActions.ts:104 | appending a line adds its units to its id's count only |
| OrderActions.RaisedUnits | src/hooks/useOrderActions.ts:71-79 | raising adds one unit per matching item to the product id's count and leaves other ids' counts alone |
| OrderActions.AddWithoutOrderCreates | src/hooks/useOrderActions.ts:34-52 | with no order shown, adding asks for a new order stamped now that holds one unit of the product and nothing else |
| OrderActions.AddRaisesUnits | src/hooks/useOrderActions.ts:54-114 | with an order shown, adding asks to update that order: the product id's units go up by one per matching item, or by one when none matches; every other id keeps its units |
| OrderActions.AddKeepsOtherLines | src/hooks/useOrderActions.ts:54-114 | items whose id is not the product's keep place and contents; the list grows only when no item carries the id, by the product's own line at the end |
| OrderActions.MatchesItemIdNotProduct | src/hooks/useOrderActions.ts:57-59 | items are matched by their own id, not by the product they carry: an item of the product stored under another id gets a second line for the same product |
| OrderActions.OrderActionsHook.constructor | src/hooks/useOrderActions.ts:13-16 | the hook starts not adding and with no request dispatched |
| OrderActions.OrderActionsHook.AddToOrder | src/hooks/useOrderActions.ts:18-32 | exactly one request is dispatched, the one the add calls for, and the adding flag ends cleared |
| OrderActions.OrderActionsHook.CreateNewOrderWithItem | src/hooks/useOrderActions.ts:34-52 | dispatches a create of one unit of the product, stamped now |
| OrderActions.OrderActionsHook.UpdateExistingItemQuantity | src/hooks/useOrderActions.ts:68-90 | dispatches an update of the order with the matching items raised by one |
| OrderActions.OrderActionsHook.AddNewItemToOrder | src/hooks/useOrderActions.ts:92-114 | dispatches an update of the order with the product's line appended |

## Left out

- HTTP transport (`orderService`, `baseApi`) is not part of this model. The API is an abstract answer per call, and a thrown error whose message names 409 or 404 is its own variant.
- NetInfo, `setInterval` and `setTimeout` are explicit event methods: `OnNetworkChange`, `PeriodicTick`, `DebounceFires` and `FireDeferredWrite` on the manager, and `OnNetInfo` on the hook. The model does not capture async interleaving.
  - `SyncPendingActions` runs a drain to completion.
  - The split methods `StartDrain`, `DrainStep` and `FinishDrain` let events fall between steps.
  - A deferred retry write is fire-and-forget, as in the code. Its timer cannot be cancelled, and firing on a destroyed entry changes nothing.
- SyncManager.OfflineFirstSyncManager.SyncPendingActions: the outer `catch` that stores 'Sync failed' in the status is not modelled. Its only triggers are a failing queue query or a failing record write, and the model treats store reads and writes as total.
- Status listener and sync-complete callback bodies are opaque handles. The model records the order in which they are called, and leaves out a callback's throw and its `console.error`.
- `useOrderManagement` and `useOrderActions` import `updateOrder`, `deleteOrder` and `createOrder` from the order slice, which does not export them. The model records the request each hook would dispatch (`OrderRequest` and `AddRequest` values), with the list each builds, and leaves out the result of dispatching it.
  - OrderManagement.OrderManagementHook.UpdateItemQuantity and the other editing methods: no store write or Alert is modelled. The undefined thunk would throw inside `try`, so the source as written ends in the error Alert.
  - OrderActions.OrderActionsHook.AddToOrder: likewise, and no success Alert is modelled.
- Alerts and `console.log` output are not modelled.
- Floating point is not modelled: `price` and `totalPrice` are integers.
- WatermelonDB's automatic refresh of `updated_at` on every record update is not modelled. `createdAt` and `updatedAt` are set once, when a record is created.
- `getAllProducts` returns the products table in row order. The model reads `db.products` directly and has no separate member for it.
- The product sync wrapper (`syncManager.ts`) is not part of this model. Its store effect is `ClearAllProducts` followed by `CreateProduct`.
- `useOfflineProducts`, the screens and the store setup are not part of this model.
- OfflineOrderActions.OfflineOrderActionsHook.OnNetInfo: `handleAutoSync` runs the drain inside the event. The hook's own `isSyncing` window therefore collapses, and the flag ends as it began.
- OfflineOrderActions.OfflineOrderActionsHook.ManualSync: same collapse of the `isSyncing` window.
- OfflineOrderActions.OfflineOrderActionsHook.AddToOrder: `isAddingToOrder` is set and cleared within the one call, so no reachable state has it set, and the no-op for an add already in progress is never exercised. Overlapping adds are not modelled.
- SyncManager.OfflineFirstSyncManager.DrainStep: the new retry count is computed from the entry as read when the drain started. The code reads the live record, so a deferred retry write fired between the start of the drain and this step is seen by the code and not by the model.
- A network change arriving mid-drain does not stop the remaining entries.

## Findings

| source | as written | input that shows it | evidently intended | confidence | as-written member | corrected member |
|---|---|---|---|---|---|---|
| src/hooks/useOfflineOrderActions.ts:100-102 | on the update path `addToOrder` stores the updated order but never dispatches `setOrder`, so `currentOrder` keeps the list shown before the add | an order on screen without products b and c; add b, then add c: the second add builds its list from the stale `currentOrder`, so the stored order loses b | each add starts from the order the previous add stored, so both b and c are kept | not executed | OfflineOrderActions.StaleSecondAddDropsFirst | OfflineOrderActions.OfflineOrderActionsHook.AddToOrderAndShow |
