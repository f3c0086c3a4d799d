/**
 * The local order store: orders and their line items in two tables,
 * soft deletion, the read view the UI and the sync engine consume, and
 * the name-keyed merge of an API response into an order.
 */
module OrderStorage {
  import opened Wrappers
  import opened Schema
  import opened Database
  import opened ProductStorage

  /** `StoredOrder.syncStatus`; the store never produces `OrderFailed`. */
  datatype OrderSyncStatus = OrderPending | OrderSynced | OrderFailed | PendingDeletion

  /** `StoredOrderLineItem.syncStatus`. */
  datatype ItemSyncStatus = ItemPending | ItemSynced | ItemFailed

  /** A line item as the store returns it and as callers pass it back in. */
  datatype StoredLineItem = StoredLineItem(
    id: Id,
    name: string,
    price: int,
    image: string,
    quantity: int,
    totalPrice: int,
    productId: Id,
    orderId: Option<Id>,  // `''` (no order yet) is `None`
    syncStatus: ItemSyncStatus)

  /** An order as the store returns it. */
  datatype StoredOrder = StoredOrder(
    id: Id,
    timestamp: nat,
    lineItems: seq<StoredLineItem>,
    syncStatus: OrderSyncStatus,
    createdAt: nat,
    updatedAt: nat,
    apiId: Option<Id>)

  const RecordNotFound := "Record not found"

  // ---------------------------------------------------------------------
  // Read view
  // ---------------------------------------------------------------------

  /** The order's status as the view derives it from `operation` and `synced`. */
  function OrderSyncStatusOf(o: OrderRecord): (st: OrderSyncStatus)
    ensures st != OrderFailed
    ensures st == PendingDeletion <==> o.operation == OpDelete
    ensures st == OrderSynced <==> o.operation != OpDelete && o.synced
  {
    if o.operation == OpDelete then PendingDeletion
    else if o.synced then OrderSynced
    else OrderPending
  }

  /** One line-item row as the view shows it, with its total recomputed. */
  function ItemView(r: LineItemRecord): (v: StoredLineItem)
    ensures v.id == r.id && v.name == r.name && v.productId == r.productId
    ensures v.price == r.price && v.quantity == r.quantity && v.image == r.image
    ensures v.totalPrice == r.price * r.quantity
    ensures v.orderId == Some(r.orderId)
    ensures v.syncStatus == (if r.synced then ItemSynced else ItemPending)
  {
    StoredLineItem(r.id, r.name, r.price, r.image, r.quantity, r.price * r.quantity,
                   r.productId, Some(r.orderId), if r.synced then ItemSynced else ItemPending)
  }

  /** The query `order_id == orderId AND is_deleted == false`, in row order. */
  function VisibleItems(s: seq<LineItemRecord>, orderId: Id): (r: seq<LineItemRecord>)
    ensures forall x :: x in r <==> x in s && x.orderId == orderId && !x.isDeleted
    ensures |r| <= |s|
  {
    if s == [] then []
    else
      var rest := VisibleItems(s[1..], orderId);
      if s[0].orderId == orderId && !s[0].isDeleted then [s[0]] + rest else rest
  }

  lemma {:induction false} VisibleItemsAppend(a: seq<LineItemRecord>, b: seq<LineItemRecord>, orderId: Id)
    ensures VisibleItems(a + b, orderId) == VisibleItems(a, orderId) + VisibleItems(b, orderId)
  {
    if a == [] {
      assert a + b == b;
    } else {
      assert (a + b)[0] == a[0];
      assert (a + b)[1..] == a[1..] + b;
      VisibleItemsAppend(a[1..], b, orderId);
    }
  }

  /** Rows that all belong to `orderId` and are live are all visible, in order. */
  lemma {:induction false} VisibleItemsAllLive(s: seq<LineItemRecord>, orderId: Id)
    requires forall k :: 0 <= k < |s| ==> s[k].orderId == orderId && !s[k].isDeleted
    ensures VisibleItems(s, orderId) == s
  {
    if s != [] {
      VisibleItemsAllLive(s[1..], orderId);
    }
  }

  /** No row of another order, and no deleted row, is visible. */
  lemma {:induction false} VisibleItemsNone(s: seq<LineItemRecord>, orderId: Id)
    requires forall k :: 0 <= k < |s| ==> s[k].orderId != orderId || s[k].isDeleted
    ensures VisibleItems(s, orderId) == []
  {
    if s != [] {
      VisibleItemsNone(s[1..], orderId);
    }
  }

  function ViewItems(rs: seq<LineItemRecord>): (vs: seq<StoredLineItem>)
    ensures |vs| == |rs|
    ensures forall k :: 0 <= k < |rs| ==> vs[k] == ItemView(rs[k])
  {
    seq(|rs|, k requires 0 <= k < |rs| => ItemView(rs[k]))
  }

  /**
   * The view of one order: its live items with `totalPrice = price * quantity`,
   * and `createdAt`/`updatedAt` falling back to `now` when unset.
   */
  function OrderView(o: OrderRecord, items: seq<LineItemRecord>, now: nat): (v: StoredOrder)
    ensures v.id == o.id && v.timestamp == o.timestamp && v.apiId == o.apiId
    ensures v.syncStatus == OrderSyncStatusOf(o)
    ensures forall k :: 0 <= k < |v.lineItems| ==>
      && v.lineItems[k].totalPrice == v.lineItems[k].price * v.lineItems[k].quantity
      && exists r :: r in items && r.orderId == o.id && !r.isDeleted && v.lineItems[k] == ItemView(r)
    ensures v.lineItems == ViewItems(VisibleItems(items, o.id))
    ensures v.createdAt == (if o.createdAt != 0 then o.createdAt else now)
    ensures v.updatedAt == (if o.updatedAt != 0 then o.updatedAt else now)
  {
    var live := VisibleItems(items, o.id);
    assert forall k :: 0 <= k < |live| ==> live[k] in live;
    StoredOrder(o.id, o.timestamp, ViewItems(live), OrderSyncStatusOf(o),
                if o.createdAt != 0 then o.createdAt else now,
                if o.updatedAt != 0 then o.updatedAt else now,
                o.apiId)
  }

  /** `getOrderById`: the view of the order, or the error `find` throws. */
  function GetOrderById(orders: seq<OrderRecord>, items: seq<LineItemRecord>, id: Id, now: nat): (r: Result<StoredOrder>)
    ensures r.Ok? <==> HasOrder(orders, id)
    ensures r.Ok? ==> r.value == OrderView(orders[OrderIndex(orders, id).value], items, now)
  {
    match OrderIndex(orders, id)
    case Some(k) => Ok(OrderView(orders[k], items, now))
    case None => Err(RecordNotFound)
  }

  /** The first order (in row order) that is not soft-deleted. */
  function ActiveIndex(orders: seq<OrderRecord>): (r: Option<nat>)
    ensures r.Some? ==> r.value < |orders| && !orders[r.value].isDeleted
    ensures r.Some? ==> forall j :: 0 <= j < r.value ==> orders[j].isDeleted
    ensures r.None? <==> forall j :: 0 <= j < |orders| ==> orders[j].isDeleted
  {
    if orders == [] then None
    else if !orders[0].isDeleted then Some(0)
    else match ActiveIndex(orders[1..])
      case None => None
      case Some(k) => Some(k + 1)
  }

  /** `getActiveOrder`: the view of the first live order, `None` exactly when every order is soft-deleted. */
  function GetActiveOrder(orders: seq<OrderRecord>, items: seq<LineItemRecord>, now: nat): (r: Option<StoredOrder>)
    ensures r.None? <==> forall j :: 0 <= j < |orders| ==> orders[j].isDeleted
    ensures r.Some? ==>
      exists j :: 0 <= j < |orders| && !orders[j].isDeleted && r.value == OrderView(orders[j], items, now)
        && forall i :: 0 <= i < j ==> orders[i].isDeleted
  {
    match ActiveIndex(orders)
    case Some(k) => Some(OrderView(orders[k], items, now))
    case None => None
  }

  /** `getPendingSyncOrders`: the view of every order whose `synced` is false, deleted ones included. */
  function GetPendingSyncOrders(orders: seq<OrderRecord>, items: seq<LineItemRecord>, now: nat): (r: seq<StoredOrder>)
    ensures forall v :: v in r ==> exists o :: o in orders && !o.synced && v == OrderView(o, items, now)
    ensures forall o :: o in orders && !o.synced ==> OrderView(o, items, now) in r
  {
    if orders == [] then []
    else
      var rest := GetPendingSyncOrders(orders[1..], items, now);
      assert forall o :: o in orders[1..] ==> o in orders;
      if !orders[0].synced then [OrderView(orders[0], items, now)] + rest else rest
  }

  // ---------------------------------------------------------------------
  // Creating line-item rows
  // ---------------------------------------------------------------------

  /** The fields a new line-item row copies from its source. */
  datatype ItemFields = ItemFields(name: string, price: int, quantity: int, image: string, productId: Id)

  function FieldsOf(x: StoredLineItem): ItemFields {
    ItemFields(x.name, x.price, x.quantity, x.image, x.productId)
  }

  function AllFieldsOf(xs: seq<StoredLineItem>): (fs: seq<ItemFields>)
    ensures |fs| == |xs|
    ensures forall k :: 0 <= k < |xs| ==> fs[k] == FieldsOf(xs[k])
  {
    seq(|xs|, k requires 0 <= k < |xs| => FieldsOf(xs[k]))
  }

  function NewItemRecord(f: ItemFields, id: Id, orderId: Id, synced: bool, op: Operation): LineItemRecord {
    LineItemRecord(id, orderId, f.name, f.price, f.quantity, f.image, f.productId, synced, op, false)
  }

  /** The rows created, one per element of `fs`, with consecutive fresh ids. */
  function NewItemRecords(fs: seq<ItemFields>, orderId: Id, firstId: Id, synced: bool, op: Operation): (r: seq<LineItemRecord>)
    ensures |r| == |fs|
    ensures forall k :: 0 <= k < |fs| ==> r[k] == NewItemRecord(fs[k], firstId + k, orderId, synced, op)
  {
    seq(|fs|, k requires 0 <= k < |fs| => NewItemRecord(fs[k], firstId + k, orderId, synced, op))
  }

  /** Creates one line-item row per element of `fs`, in order. */
  method AppendItems(db: Database, fs: seq<ItemFields>, orderId: Id, synced: bool, op: Operation)
    requires db.Valid() && orderId < db.nextId
    modifies db`lineItems, db`nextId
    ensures db.Valid()
    ensures db.lineItems == old(db.lineItems) + NewItemRecords(fs, orderId, old(db.nextId), synced, op)
    ensures db.nextId == old(db.nextId) + |fs|
  {
    ghost var before := db.lineItems;
    ghost var firstId := db.nextId;
    var i := 0;
    while i < |fs|
      invariant 0 <= i <= |fs|
      invariant db.nextId == firstId + i
      invariant db.lineItems == before + NewItemRecords(fs[..i], orderId, firstId, synced, op)
      invariant db.Valid()
    {
      var r := NewItemRecord(fs[i], db.nextId, orderId, synced, op);
      assert NewItemRecords(fs[..i + 1], orderId, firstId, synced, op)
          == NewItemRecords(fs[..i], orderId, firstId, synced, op) + [r];
      db.lineItems := db.lineItems + [r];
      db.nextId := db.nextId + 1;
      i := i + 1;
    }
    assert fs[..i] == fs;
  }

  /** After `c` marks every item of `orderId` deleted, none of them is visible. */
  lemma MarkedItemsInvisible(s: seq<LineItemRecord>, orderId: Id, c: ItemChange)
    requires c != SyncedMark
    ensures VisibleItems(MapItemsOf(s, orderId, c), orderId) == []
  {
    VisibleItemsNone(MapItemsOf(s, orderId, c), orderId);
  }

  /** Replacing one order row by a row with the same id keeps the table well formed. */
  lemma ReplaceOrderKeepsValid(s: seq<OrderRecord>, k: nat, o: OrderRecord, bound: nat)
    requires OrdersOk(s, bound) && k < |s| && o.id == s[k].id
    ensures OrdersOk(s[k := o], bound)
    ensures OrderIds(s[k := o]) == OrderIds(s)
  {
    assert forall i :: 0 <= i < |s| ==> s[k := o][i].id == s[i].id;
  }

  /** Only the rows created for a fresh order id are visible under it. */
  lemma FreshItemsVisible(s: seq<LineItemRecord>, created: seq<LineItemRecord>, orderId: Id)
    requires forall k :: 0 <= k < |s| ==> s[k].orderId < orderId
    requires forall k :: 0 <= k < |created| ==> created[k].orderId == orderId && !created[k].isDeleted
    ensures VisibleItems(s + created, orderId) == created
  {
    VisibleItemsAppend(s, created, orderId);
    VisibleItemsNone(s, orderId);
    VisibleItemsAllLive(created, orderId);
  }

  /** The rows created for `inputs` under `orderId`, unsynced, operation 'create'. */
  function NewRows(inputs: seq<StoredLineItem>, orderId: Id, firstId: Id): seq<LineItemRecord> {
    NewItemRecords(AllFieldsOf(inputs), orderId, firstId, false, OpCreate)
  }

  /**
   * A view lists exactly `inputs`, in order: same name, price, quantity,
   * image and product, fresh consecutive ids from `firstId`, the total
   * recomputed, attached to the order and pending sync.
   */
  predicate ShowsInputs(v: StoredOrder, inputs: seq<StoredLineItem>, firstId: Id) {
    && |v.lineItems| == |inputs|
    && forall k :: 0 <= k < |inputs| ==>
      var x, y := v.lineItems[k], inputs[k];
      && x.name == y.name && x.price == y.price && x.quantity == y.quantity
      && x.image == y.image && x.productId == y.productId
      && x.totalPrice == y.price * y.quantity
      && x.id == firstId + k && x.orderId == Some(v.id) && x.syncStatus == ItemPending
  }

  /** Rows appended after the order's old rows were all retired are the whole view. */
  lemma NewRowsAreTheView(o: OrderRecord, items: seq<LineItemRecord>, inputs: seq<StoredLineItem>, firstId: Id, now: nat)
    requires forall k :: 0 <= k < |items| ==> items[k].orderId != o.id || items[k].isDeleted
    ensures ShowsInputs(OrderView(o, items + NewRows(inputs, o.id, firstId), now), inputs, firstId)
  {
    var created := NewRows(inputs, o.id, firstId);
    VisibleItemsAppend(items, created, o.id);
    VisibleItemsNone(items, o.id);
    VisibleItemsAllLive(created, o.id);
    assert OrderView(o, items + created, now).lineItems == ViewItems(created);
  }

  /** A created order is found under its fresh id and shows exactly its input items. */
  lemma CreatedOrderShowsInputs(orders: seq<OrderRecord>, items: seq<LineItemRecord>, o: OrderRecord,
                                inputs: seq<StoredLineItem>, now: nat)
    requires OrdersOk(orders, o.id)
    requires forall k :: 0 <= k < |items| ==> items[k].orderId < o.id
    ensures
      var r := GetOrderById(orders + [o], items + NewRows(inputs, o.id, o.id + 1), o.id, now);
      r.Ok? && r.value.id == o.id && ShowsInputs(r.value, inputs, o.id + 1)
  {
    AppendOrderRow(orders, o, o.id);
    NewRowsAreTheView(o, items, inputs, o.id + 1, now);
  }

  /** After an update with a new item list, the order shows exactly that list. */
  lemma UpdatedOrderShowsInputs(orders: seq<OrderRecord>, items: seq<LineItemRecord>, orderId: Id,
                                inputs: seq<StoredLineItem>, firstId: Id, now: nat)
    requires HasOrder(orders, orderId)
    ensures
      var r := GetOrderById(orders, MapItemsOf(items, orderId, ReplaceMark) + NewRows(inputs, orderId, firstId), orderId, now);
      r.Ok? && ShowsInputs(r.value, inputs, firstId)
  {
    var o := orders[OrderIndex(orders, orderId).value];
    NewRowsAreTheView(o, MapItemsOf(items, orderId, ReplaceMark), inputs, firstId, now);
  }

  // ---------------------------------------------------------------------
  // Write operations
  // ---------------------------------------------------------------------

  /**
   * `createOrder`: one new order (not synced, operation 'create', live,
   * `lastModified = now`) and exactly one new line item per input item, all
   * pointing at the new order; returns the view of the new order.
   */
  method CreateOrder(db: Database, timestamp: nat, items: seq<StoredLineItem>, now: nat) returns (v: StoredOrder)
    requires db.Valid()
    modifies db`orders, db`lineItems, db`nextId
    ensures db.Valid()
    ensures db.orders == old(db.orders) + [OrderRecord(old(db.nextId), timestamp, false, OpCreate, false, now, None, now, now)]
    ensures db.lineItems == old(db.lineItems) + NewRows(items, old(db.nextId), old(db.nextId) + 1)
    ensures db.nextId == old(db.nextId) + 1 + |items|
    ensures GetOrderById(db.orders, db.lineItems, v.id, now) == Ok(v)
    ensures v.id == old(db.nextId) && v.syncStatus == OrderPending && v.apiId == None
  {
    var id := db.nextId;
    var o := OrderRecord(id, timestamp, false, OpCreate, false, now, None, now, now);
    InsertOrder(db, o);
    AppendItems(db, AllFieldsOf(items), id, false, OpCreate);
    v := OrderView(o, db.lineItems, now);
  }

  /** The order row after `updateOrder`. */
  function UpdatedOrderRecord(o: OrderRecord, timestamp: Option<nat>, now: nat): OrderRecord {
    o.(timestamp := if timestamp.Some? then timestamp.value else o.timestamp,
       synced := false, operation := OpUpdate, lastModified := now)
  }

  /**
   * `updateOrder`: the order becomes unsynced with operation 'update';
   * its timestamp changes only when one is given. Given a new item list,
   * every previous item of the order is soft-deleted and one new row is
   * created per given item, so the visible items are exactly that list.
   * An unknown order id throws and changes nothing.
   */
  method UpdateOrder(db: Database, orderId: Id, timestamp: Option<nat>, items: Option<seq<StoredLineItem>>, now: nat)
    returns (r: Result<StoredOrder>)
    requires db.Valid()
    modifies db`orders, db`lineItems, db`nextId
    ensures db.Valid()
    ensures r.Ok? <==> old(HasOrder(db.orders, orderId))
    ensures r.Err? ==> db.orders == old(db.orders) && db.lineItems == old(db.lineItems) && db.nextId == old(db.nextId)
    ensures r.Ok? ==>
      var k := old(OrderIndex(db.orders, orderId)).value;
      && db.orders == old(db.orders)[k := UpdatedOrderRecord(old(db.orders)[k], timestamp, now)]
      && r == GetOrderById(db.orders, db.lineItems, orderId, now)
      && r.value.syncStatus == OrderPending
    ensures r.Ok? && items.None? ==> db.lineItems == old(db.lineItems) && db.nextId == old(db.nextId)
    ensures r.Ok? && items.Some? ==>
      && db.lineItems == MapItemsOf(old(db.lineItems), orderId, ReplaceMark) + NewRows(items.value, orderId, old(db.nextId))
      && db.nextId == old(db.nextId) + |items.value|
  {
    match OrderIndex(db.orders, orderId)
    case None =>
      r := Err(RecordNotFound);
    case Some(k) =>
      var o := UpdatedOrderRecord(db.orders[k], timestamp, now);
      ReplaceOrderKeepsValid(db.orders, k, o, db.nextId);
      SameIdsSameIndex(db.orders[k := o], db.orders, orderId);
      db.orders := db.orders[k := o];
      if items.Some? {
        UpdateItemsOf(db, orderId, ReplaceMark);
        AppendItems(db, AllFieldsOf(items.value), orderId, false, OpCreate);
      }
      r := Ok(OrderView(o, db.lineItems, now));
  }

  /**
   * `deleteOrder`: the order and every one of its line items become
   * soft-deleted, operation 'delete', unsynced. An unknown id throws.
   */
  method DeleteOrder(db: Database, orderId: Id) returns (r: Outcome)
    requires db.Valid()
    modifies db`orders, db`lineItems
    ensures db.Valid()
    ensures r.Done? <==> old(HasOrder(db.orders, orderId))
    ensures r.Failed? ==> db.orders == old(db.orders) && db.lineItems == old(db.lineItems)
    ensures r.Done? ==>
      var k := old(OrderIndex(db.orders, orderId)).value;
      && db.orders == old(db.orders)[k := old(db.orders)[k].(isDeleted := true, operation := OpDelete, synced := false)]
      && db.lineItems == MapItemsOf(old(db.lineItems), orderId, DeleteMark)
      && VisibleItems(db.lineItems, orderId) == []
  {
    match OrderIndex(db.orders, orderId)
    case None =>
      r := Failed(RecordNotFound);
    case Some(k) =>
      var o := db.orders[k].(isDeleted := true, operation := OpDelete, synced := false);
      ReplaceOrderKeepsValid(db.orders, k, o, db.nextId);
      db.orders := db.orders[k := o];
      UpdateItemsOf(db, orderId, DeleteMark);
      MarkedItemsInvisible(old(db.lineItems), orderId, DeleteMark);
      r := Done;
  }

  /**
   * `markOrderForDeletion`: operation 'delete' and unsynced, but the order
   * stays live, so it is still the active order and reads as pending deletion.
   */
  method MarkOrderForDeletion(db: Database, orderId: Id, now: nat) returns (r: Result<StoredOrder>)
    requires db.Valid()
    modifies db`orders
    ensures db.Valid()
    ensures r.Ok? <==> old(HasOrder(db.orders, orderId))
    ensures r.Err? ==> db.orders == old(db.orders)
    ensures r.Ok? ==>
      var k := old(OrderIndex(db.orders, orderId)).value;
      && db.orders == old(db.orders)[k := old(db.orders)[k].(operation := OpDelete, synced := false)]
      && db.orders[k].isDeleted == old(db.orders)[k].isDeleted
      && r == GetOrderById(db.orders, db.lineItems, orderId, now)
      && r.value.syncStatus == PendingDeletion
  {
    match OrderIndex(db.orders, orderId)
    case None =>
      r := Err(RecordNotFound);
    case Some(k) =>
      var o := db.orders[k].(operation := OpDelete, synced := false);
      ReplaceOrderKeepsValid(db.orders, k, o, db.nextId);
      SameIdsSameIndex(db.orders[k := o], db.orders, orderId);
      db.orders := db.orders[k := o];
      r := Ok(OrderView(o, db.lineItems, now));
  }

  /** `markOrderSynced`: the order and all its line items become synced with operation ''. */
  method MarkOrderSynced(db: Database, orderId: Id) returns (r: Outcome)
    requires db.Valid()
    modifies db`orders, db`lineItems
    ensures db.Valid()
    ensures r.Done? <==> old(HasOrder(db.orders, orderId))
    ensures r.Failed? ==> db.orders == old(db.orders) && db.lineItems == old(db.lineItems)
    ensures r.Done? ==>
      var k := old(OrderIndex(db.orders, orderId)).value;
      && db.orders == old(db.orders)[k := old(db.orders)[k].(synced := true, operation := OpNone)]
      && db.lineItems == MapItemsOf(old(db.lineItems), orderId, SyncedMark)
  {
    match OrderIndex(db.orders, orderId)
    case None =>
      r := Failed(RecordNotFound);
    case Some(k) =>
      var o := db.orders[k].(synced := true, operation := OpNone);
      ReplaceOrderKeepsValid(db.orders, k, o, db.nextId);
      db.orders := db.orders[k := o];
      UpdateItemsOf(db, orderId, SyncedMark);
      r := Done;
  }

  // ---------------------------------------------------------------------
  // Merging an API response into an order
  // ---------------------------------------------------------------------

  /**
   * The name map of `updateOrderWithApiData`, built over the rows in order:
   * each name of an item of `orderId` (soft-deleted ones included) maps to
   * the row of the LAST such item with that name.
   */
  function NameMap(s: seq<LineItemRecord>, orderId: Id): (m: map<string, nat>)
    ensures forall n :: n in m ==> m[n] < |s| && s[m[n]].orderId == orderId && s[m[n]].name == n
    ensures forall n, j :: n in m && m[n] < j < |s| ==> !(s[j].orderId == orderId && s[j].name == n)
    ensures forall j :: 0 <= j < |s| && s[j].orderId == orderId ==> s[j].name in m
  {
    if s == [] then map[]
    else
      var m := NameMap(s[..|s| - 1], orderId);
      var last := s[|s| - 1];
      if last.orderId == orderId then m[last.name := |s| - 1] else m
  }

  /** The position of the last API item carrying `name`. */
  function LastNamedIndex(api: seq<ApiLineItem>, name: string): (r: Option<nat>)
    ensures r.Some? ==> r.value < |api| && api[r.value].name == name
    ensures r.Some? ==> forall j :: r.value < j < |api| ==> api[j].name != name
    ensures r.None? <==> forall j :: 0 <= j < |api| ==> api[j].name != name
  {
    if api == [] then None
    else if api[|api| - 1].name == name then Some(|api| - 1)
    else LastNamedIndex(api[..|api| - 1], name)
  }

  /** The last API item carrying `name`: the one whose update survives. */
  function LastNamed(api: seq<ApiLineItem>, name: string): Option<ApiLineItem> {
    match LastNamedIndex(api, name)
    case Some(i) => Some(api[i])
    case None => None
  }

  /** The names the API response lists. */
  function ApiNames(api: seq<ApiLineItem>): set<string> {
    set a | a in api :: a.name
  }

  /** An existing row overwritten by an API item: synced, live, product kept. */
  function ApplyApi(r: LineItemRecord, a: ApiLineItem): LineItemRecord {
    r.(price := a.price, quantity := a.quantity, image := a.image, synced := true, operation := OpNone, isDeleted := false)
  }

  /** The row created for an API item no existing item is named like. */
  function ApiRow(a: ApiLineItem, id: Id, orderId: Id, products: seq<ProductRecord>): LineItemRecord {
    LineItemRecord(id, orderId, a.name, a.price, a.quantity, a.image,
                   ProductIdByName(products, a.name, a.id), true, OpNone, false)
  }

  /** Row `k` after the API items `api` were applied through the name map `m`. */
  function UpdatedRow(r: LineItemRecord, k: nat, m: map<string, nat>, api: seq<ApiLineItem>): LineItemRecord {
    if r.name in m && m[r.name] == k then
      match LastNamed(api, r.name)
      case Some(a) => ApplyApi(r, a)
      case None => r
    else r
  }

  /** The rows created while the API items `api` are applied, with consecutive ids from `firstId`. */
  function CreatedRows(api: seq<ApiLineItem>, m: map<string, nat>, orderId: Id, products: seq<ProductRecord>, firstId: Id)
    : (r: seq<LineItemRecord>)
    ensures |r| <= |api|
    ensures forall k :: 0 <= k < |r| ==>
      && r[k].id == firstId + k && r[k].orderId == orderId
      && r[k].synced && r[k].operation == OpNone && !r[k].isDeleted
      && r[k].name !in m
  {
    if api == [] then []
    else
      var rest := CreatedRows(api[..|api| - 1], m, orderId, products, firstId);
      var a := api[|api| - 1];
      if a.name in m then rest else rest + [ApiRow(a, firstId + |rest|, orderId, products)]
  }

  /** An item of the order whose name the response no longer lists is soft-deleted and unsynced. */
  function Retire(r: LineItemRecord, orderId: Id, names: set<string>): LineItemRecord {
    if r.orderId == orderId && r.name !in names then ApplyChange(r, DeleteMark) else r
  }

  /** Row `k` of the order after the whole merge: updated, then retired if unlisted. */
  function MergedRow(r: LineItemRecord, k: nat, m: map<string, nat>, orderId: Id, api: seq<ApiLineItem>): LineItemRecord {
    Retire(UpdatedRow(r, k, m, api), orderId, ApiNames(api))
  }

  /** The existing rows after the merge; rows of other orders are untouched. */
  function MergedRows(s: seq<LineItemRecord>, orderId: Id, api: seq<ApiLineItem>): (r: seq<LineItemRecord>)
    ensures |r| == |s|
    ensures forall k :: 0 <= k < |s| ==> r[k] == MergedRow(s[k], k, NameMap(s, orderId), orderId, api)
  {
    var m := NameMap(s, orderId);
    seq(|s|, k requires 0 <= k < |s| => MergedRow(s[k], k, m, orderId, api))
  }

  lemma LastNamedSnoc(api: seq<ApiLineItem>, i: nat, name: string)
    requires i < |api|
    ensures LastNamed(api[..i + 1], name) == if api[i].name == name then Some(api[i]) else LastNamed(api[..i], name)
  {
    assert api[..i + 1][..i] == api[..i];
  }

  lemma CreatedRowsSnocMapped(api: seq<ApiLineItem>, i: nat, m: map<string, nat>, orderId: Id, products: seq<ProductRecord>, firstId: Id)
    requires i < |api| && api[i].name in m
    ensures CreatedRows(api[..i + 1], m, orderId, products, firstId) == CreatedRows(api[..i], m, orderId, products, firstId)
  {
    assert api[..i + 1][..i] == api[..i];
  }

  lemma CreatedRowsSnocUnmapped(api: seq<ApiLineItem>, i: nat, m: map<string, nat>, orderId: Id, products: seq<ProductRecord>,
                                firstId: Id, row: LineItemRecord)
    requires i < |api| && api[i].name !in m
    requires row == ApiRow(api[i], firstId + |CreatedRows(api[..i], m, orderId, products, firstId)|, orderId, products)
    ensures CreatedRows(api[..i + 1], m, orderId, products, firstId) == CreatedRows(api[..i], m, orderId, products, firstId) + [row]
  {
    var p := api[..i + 1];
    assert p[..|p| - 1] == api[..i];
    assert p[|p| - 1] == api[i];
  }

  /** Builds the name map with one pass over the rows, as the source's `forEach` does. */
  method BuildNameMap(s: seq<LineItemRecord>, orderId: Id) returns (m: map<string, nat>)
    ensures m == NameMap(s, orderId)
  {
    m := map[];
    var j := 0;
    while j < |s|
      invariant 0 <= j <= |s|
      invariant m == NameMap(s[..j], orderId)
    {
      assert s[..j + 1][..j] == s[..j];
      if s[j].orderId == orderId {
        m := m[s[j].name := j];
      }
      j := j + 1;
    }
    assert s[..j] == s;
  }

  /** The existing rows after the API items `api` were applied through `m`. */
  function UpdatedRows(s: seq<LineItemRecord>, m: map<string, nat>, api: seq<ApiLineItem>): (r: seq<LineItemRecord>)
    ensures |r| == |s|
    ensures forall k :: 0 <= k < |s| ==> r[k] == UpdatedRow(s[k], k, m, api)
  {
    seq(|s|, k requires 0 <= k < |s| => UpdatedRow(s[k], k, m, api))
  }

  /** An API item whose name is mapped overwrites exactly the mapped row. */
  lemma {:induction false} ApplyMappedItem(s: seq<LineItemRecord>, m: map<string, nat>, api: seq<ApiLineItem>, i: nat)
    requires i < |api| && api[i].name in m
    requires forall n :: n in m ==> m[n] < |s| && s[m[n]].name == n
    ensures
      var k := m[api[i].name];
      var before := UpdatedRows(s, m, api[..i]);
      UpdatedRows(s, m, api[..i + 1]) == before[k := ApplyApi(before[k], api[i])]
  {
    var k := m[api[i].name];
    var before := UpdatedRows(s, m, api[..i]);
    var after := UpdatedRows(s, m, api[..i + 1]);
    forall j | 0 <= j < |s|
      ensures after[j] == before[k := ApplyApi(before[k], api[i])][j]
    {
      LastNamedSnoc(api, i, s[j].name);
    }
  }

  /** An API item whose name is not mapped leaves every existing row alone. */
  lemma {:induction false} ApplyUnmappedItem(s: seq<LineItemRecord>, m: map<string, nat>, api: seq<ApiLineItem>, i: nat)
    requires i < |api| && api[i].name !in m
    ensures UpdatedRows(s, m, api[..i + 1]) == UpdatedRows(s, m, api[..i])
  {
    forall j | 0 <= j < |s|
      ensures UpdatedRows(s, m, api[..i + 1])[j] == UpdatedRows(s, m, api[..i])[j]
    {
      LastNamedSnoc(api, i, s[j].name);
    }
  }

  lemma UpdateInFront<T>(a: seq<T>, b: seq<T>, k: nat, x: T)
    requires k < |a|
    ensures (a + b)[k := x] == a[k := x] + b
  {
  }

  /** The rows before and after a mapped API item: one row overwritten. */
  lemma {:induction false} MappedStep(s0: seq<LineItemRecord>, m: map<string, nat>, api: seq<ApiLineItem>, i: nat,
                                      orderId: Id, products: seq<ProductRecord>, firstId: Id)
    requires i < |api| && api[i].name in m
    requires forall n :: n in m ==> m[n] < |s0| && s0[m[n]].name == n
    ensures
      var rows := UpdatedRows(s0, m, api[..i]) + CreatedRows(api[..i], m, orderId, products, firstId);
      var k := m[api[i].name];
      && k < |rows|
      && rows[k := ApplyApi(rows[k], api[i])]
         == UpdatedRows(s0, m, api[..i + 1]) + CreatedRows(api[..i + 1], m, orderId, products, firstId)
  {
    var u, c := UpdatedRows(s0, m, api[..i]), CreatedRows(api[..i], m, orderId, products, firstId);
    var k := m[api[i].name];
    CreatedRowsSnocMapped(api, i, m, orderId, products, firstId);
    ApplyMappedItem(s0, m, api, i);
    assert (u + c)[k] == u[k];
    UpdateInFront(u, c, k, ApplyApi(u[k], api[i]));
  }

  /** The rows before and after an unmapped API item: one row appended. */
  lemma {:induction false} UnmappedStep(s0: seq<LineItemRecord>, m: map<string, nat>, api: seq<ApiLineItem>, i: nat,
                                        orderId: Id, products: seq<ProductRecord>, firstId: Id, row: LineItemRecord)
    requires i < |api| && api[i].name !in m
    requires row == ApiRow(api[i], firstId + |CreatedRows(api[..i], m, orderId, products, firstId)|, orderId, products)
    ensures
      UpdatedRows(s0, m, api[..i]) + CreatedRows(api[..i], m, orderId, products, firstId) + [row]
      == UpdatedRows(s0, m, api[..i + 1]) + CreatedRows(api[..i + 1], m, orderId, products, firstId)
  {
    var u, c := UpdatedRows(s0, m, api[..i]), CreatedRows(api[..i], m, orderId, products, firstId);
    ApplyUnmappedItem(s0, m, api, i);
    CreatedRowsSnocUnmapped(api, i, m, orderId, products, firstId, row);
    assert u + c + [row] == u + (c + [row]);
  }

  /**
   * One pass of the loop over the API items: an item whose name is in the
   * map overwrites that row; any other item creates a synced row.
   */
  method ApplyApiItem(db: Database, orderId: Id, m: map<string, nat>, api: seq<ApiLineItem>, i: nat,
                      ghost s0: seq<LineItemRecord>, ghost firstId: Id)
    requires db.Valid() && orderId < db.nextId && i < |api|
    requires forall n :: n in m ==> m[n] < |s0| && s0[m[n]].name == n
    requires db.lineItems == UpdatedRows(s0, m, api[..i]) + CreatedRows(api[..i], m, orderId, db.products, firstId)
    requires db.nextId == firstId + |CreatedRows(api[..i], m, orderId, db.products, firstId)|
    modifies db`lineItems, db`nextId
    ensures db.Valid()
    ensures db.lineItems == UpdatedRows(s0, m, api[..i + 1]) + CreatedRows(api[..i + 1], m, orderId, db.products, firstId)
    ensures db.nextId == firstId + |CreatedRows(api[..i + 1], m, orderId, db.products, firstId)|
  {
    if api[i].name in m {
      UpdateMappedItem(db, orderId, m, api, i, s0, firstId);
    } else {
      CreateUnmappedItem(db, orderId, m, api, i, s0, firstId);
    }
  }

  /** An API item whose name matches an existing row: that row takes the item's values. */
  method UpdateMappedItem(db: Database, orderId: Id, m: map<string, nat>, api: seq<ApiLineItem>, i: nat,
                          ghost s0: seq<LineItemRecord>, ghost firstId: Id)
    requires db.Valid() && orderId < db.nextId && i < |api| && api[i].name in m
    requires forall n :: n in m ==> m[n] < |s0| && s0[m[n]].name == n
    requires db.lineItems == UpdatedRows(s0, m, api[..i]) + CreatedRows(api[..i], m, orderId, db.products, firstId)
    requires db.nextId == firstId + |CreatedRows(api[..i], m, orderId, db.products, firstId)|
    modifies db`lineItems
    ensures db.Valid()
    ensures db.lineItems == UpdatedRows(s0, m, api[..i + 1]) + CreatedRows(api[..i + 1], m, orderId, db.products, firstId)
    ensures db.nextId == firstId + |CreatedRows(api[..i + 1], m, orderId, db.products, firstId)|
  {
    MappedStep(s0, m, api, i, orderId, db.products, firstId);
    CreatedRowsSnocMapped(api, i, m, orderId, db.products, firstId);
    var k := m[api[i].name];
    SetLineItem(db, k, ApplyApi(db.lineItems[k], api[i]));
  }

  /** An API item with a new name: a new row of the order. */
  method CreateUnmappedItem(db: Database, orderId: Id, m: map<string, nat>, api: seq<ApiLineItem>, i: nat,
                            ghost s0: seq<LineItemRecord>, ghost firstId: Id)
    requires db.Valid() && orderId < db.nextId && i < |api| && api[i].name !in m
    requires forall n :: n in m ==> m[n] < |s0| && s0[m[n]].name == n
    requires db.lineItems == UpdatedRows(s0, m, api[..i]) + CreatedRows(api[..i], m, orderId, db.products, firstId)
    requires db.nextId == firstId + |CreatedRows(api[..i], m, orderId, db.products, firstId)|
    modifies db`lineItems, db`nextId
    ensures db.Valid()
    ensures db.lineItems == UpdatedRows(s0, m, api[..i + 1]) + CreatedRows(api[..i + 1], m, orderId, db.products, firstId)
    ensures db.nextId == firstId + |CreatedRows(api[..i + 1], m, orderId, db.products, firstId)|
  {
    var row := ApiRow(api[i], db.nextId, orderId, db.products);
    UnmappedStep(s0, m, api, i, orderId, db.products, firstId, row);
    CreatedRowsSnocUnmapped(api, i, m, orderId, db.products, firstId, row);
    InsertLineItem(db, row);
  }

  /** The loop over the API items, in response order. */
  method ApplyApiItems(db: Database, orderId: Id, m: map<string, nat>, api: seq<ApiLineItem>)
    requires db.Valid() && orderId < db.nextId
    requires forall n :: n in m ==> m[n] < |db.lineItems| && db.lineItems[m[n]].name == n
    modifies db`lineItems, db`nextId
    ensures db.Valid()
    ensures
      var created := CreatedRows(api, m, orderId, db.products, old(db.nextId));
      && db.lineItems == UpdatedRows(old(db.lineItems), m, api) + created
      && db.nextId == old(db.nextId) + |created|
  {
    ghost var s0 := db.lineItems;
    ghost var firstId := db.nextId;
    assert api[..0] == [];
    var i := 0;
    while i < |api|
      invariant 0 <= i <= |api|
      invariant db.Valid()
      invariant db.lineItems == UpdatedRows(s0, m, api[..i]) + CreatedRows(api[..i], m, orderId, db.products, firstId)
      invariant db.nextId == firstId + |CreatedRows(api[..i], m, orderId, db.products, firstId)|
    {
      ApplyApiItem(db, orderId, m, api, i, s0, firstId);
      i := i + 1;
    }
    assert api[..i] == api;
  }

  /** The final loop over the order's existing rows (the first `n`): unlisted names are retired. */
  method RetireUnlisted(db: Database, orderId: Id, names: set<string>, n: nat)
    requires db.Valid() && n <= |db.lineItems|
    modifies db`lineItems
    ensures db.Valid()
    ensures |db.lineItems| == |old(db.lineItems)|
    ensures forall k :: 0 <= k < n ==> db.lineItems[k] == Retire(old(db.lineItems)[k], orderId, names)
    ensures db.lineItems[n..] == old(db.lineItems)[n..]
  {
    ghost var before := db.lineItems;
    var k := 0;
    while k < n
      invariant 0 <= k <= n
      invariant db.Valid() && |db.lineItems| == |before|
      invariant forall j :: 0 <= j < k ==> db.lineItems[j] == Retire(before[j], orderId, names)
      invariant forall j :: k <= j < |before| ==> db.lineItems[j] == before[j]
    {
      var r := db.lineItems[k];
      if r.orderId == orderId && r.name !in names {
        SetLineItem(db, k, ApplyChange(r, DeleteMark));
      }
      k := k + 1;
    }
  }

  /** The three loops together yield the merged rows followed by the created ones. */
  lemma {:induction false} MergeAssembles(s0: seq<LineItemRecord>, after: seq<LineItemRecord>, m: map<string, nat>,
                                          orderId: Id, api: seq<ApiLineItem>, created: seq<LineItemRecord>)
    requires m == NameMap(s0, orderId)
    requires |after| == |s0| + |created|
    requires forall k :: 0 <= k < |s0| ==> after[k] == Retire(UpdatedRows(s0, m, api)[k], orderId, ApiNames(api))
    requires after[|s0|..] == created
    ensures after == MergedRows(s0, orderId, api) + created
  {
    var merged := MergedRows(s0, orderId, api);
    forall k | 0 <= k < |after|
      ensures after[k] == (merged + created)[k]
    {
      if k >= |s0| {
        assert after[k] == after[|s0|..][k - |s0|];
      }
    }
  }

  /**
   * `updateOrderWithApiData`: the order becomes synced with the API id;
   * each API item updates the existing item its name maps to or creates a
   * synced row (product looked up by name, else the API item's id); every
   * existing item of the order whose name the response does not list is
   * soft-deleted. An unknown order id throws and changes nothing.
   */
  method UpdateOrderWithApiData(db: Database, orderId: Id, api: ApiOrder, now: nat) returns (r: Result<StoredOrder>)
    requires db.Valid()
    modifies db`orders, db`lineItems, db`nextId
    ensures db.Valid()
    ensures r.Ok? <==> old(HasOrder(db.orders, orderId))
    ensures r.Err? ==> db.orders == old(db.orders) && db.lineItems == old(db.lineItems) && db.nextId == old(db.nextId)
    ensures r.Ok? ==>
      var k := old(OrderIndex(db.orders, orderId)).value;
      var created := CreatedRows(api.lineItems, NameMap(old(db.lineItems), orderId), orderId, old(db.products), old(db.nextId));
      && db.orders == old(db.orders)[k := old(db.orders)[k].(synced := true, operation := OpNone, apiId := Some(api.id))]
      && db.lineItems == MergedRows(old(db.lineItems), orderId, api.lineItems) + created
      && db.nextId == old(db.nextId) + |created|
      && r == GetOrderById(db.orders, db.lineItems, orderId, now)
  {
    match OrderIndex(db.orders, orderId)
    case None =>
      r := Err(RecordNotFound);
    case Some(k) =>
      var o := db.orders[k].(synced := true, operation := OpNone, apiId := Some(api.id));
      ReplaceOrderKeepsValid(db.orders, k, o, db.nextId);
      SameIdsSameIndex(db.orders[k := o], db.orders, orderId);
      db.orders := db.orders[k := o];
      assert db.orders[k].id == orderId;
      MergeApiItems(db, orderId, api.lineItems);
      r := Ok(OrderView(o, db.lineItems, now));
  }

  /** The item part of `updateOrderWithApiData`: API items merged by name, unlisted items retired. */
  method MergeApiItems(db: Database, orderId: Id, api: seq<ApiLineItem>)
    requires db.Valid() && orderId < db.nextId
    modifies db`lineItems, db`nextId
    ensures db.Valid()
    ensures
      var created := CreatedRows(api, NameMap(old(db.lineItems), orderId), orderId, old(db.products), old(db.nextId));
      && db.lineItems == MergedRows(old(db.lineItems), orderId, api) + created
      && db.nextId == old(db.nextId) + |created|
  {
    ghost var s0 := db.lineItems;
    var existing := |db.lineItems|;
    var m := BuildNameMap(db.lineItems, orderId);
    ApplyApiItems(db, orderId, m, api);
    var names := set a | a in api :: a.name;
    RetireUnlisted(db, orderId, names, existing);
    MergeAssembles(s0, db.lineItems, m, orderId, api, CreatedRows(api, m, orderId, db.products, old(db.nextId)));
  }

  // Properties of the merge

  /** The rows of `orderId` after merging `api` into the rows `s`. */
  function MergeResult(s: seq<LineItemRecord>, orderId: Id, api: seq<ApiLineItem>, products: seq<ProductRecord>, firstId: Id)
    : seq<LineItemRecord>
  {
    MergedRows(s, orderId, api) + CreatedRows(api, NameMap(s, orderId), orderId, products, firstId)
  }

  /**
   * The product id the row shown for name `n` ends with: an existing row of
   * the order named `n` keeps its own; a new row takes the first catalog
   * product named `n`, else the API item's id.
   */
  function MergedProductId(s: seq<LineItemRecord>, orderId: Id, products: seq<ProductRecord>, n: string, a: ApiLineItem): Id {
    var m := NameMap(s, orderId);
    if n in m then s[m[n]].productId else ProductIdByName(products, n, a.id)
  }

  /** A row holds what the API item `a` says, and is marked synced. */
  predicate Carries(x: LineItemRecord, a: ApiLineItem) {
    x.name == a.name && x.price == a.price && x.quantity == a.quantity && x.image == a.image && x.synced
  }

  lemma LastNamedOfListed(api: seq<ApiLineItem>, n: string)
    requires n in ApiNames(api)
    ensures LastNamed(api, n).Some? && LastNamed(api, n).value.name == n
  {
    var a :| a in api && a.name == n;
    var i :| 0 <= i < |api| && api[i] == a;
  }

  /** The last API item named like an unmapped name gets a created row of its own. */
  lemma {:induction false} CreatedCarriesLast(api: seq<ApiLineItem>, m: map<string, nat>, orderId: Id,
                                              products: seq<ProductRecord>, firstId: Id, n: string)
    requires n !in m && LastNamed(api, n).Some?
    ensures exists j ::
      && 0 <= j < |CreatedRows(api, m, orderId, products, firstId)|
      && Carries(CreatedRows(api, m, orderId, products, firstId)[j], LastNamed(api, n).value)
      && CreatedRows(api, m, orderId, products, firstId)[j].productId
         == ProductIdByName(products, n, LastNamed(api, n).value.id)
  {
    var init := api[..|api| - 1];
    var c := CreatedRows(api, m, orderId, products, firstId);
    var rest := CreatedRows(init, m, orderId, products, firstId);
    if api[|api| - 1].name == n {
      assert LastNamedIndex(api, n) == Some(|api| - 1);
      assert c == rest + [ApiRow(api[|api| - 1], firstId + |rest|, orderId, products)];
      assert Carries(c[|c| - 1], LastNamed(api, n).value);
    } else {
      assert LastNamed(api, n) == LastNamed(init, n);
      CreatedCarriesLast(init, m, orderId, products, firstId, n);
      var j :| 0 <= j < |rest| && Carries(rest[j], LastNamed(init, n).value)
        && rest[j].productId == ProductIdByName(products, n, LastNamed(init, n).value.id);
      assert c[j] == rest[j];
    }
  }

  /** Every created row is named after some API item. */
  lemma {:induction false} CreatedNamesListed(api: seq<ApiLineItem>, m: map<string, nat>, orderId: Id,
                                              products: seq<ProductRecord>, firstId: Id)
    ensures forall j :: 0 <= j < |CreatedRows(api, m, orderId, products, firstId)| ==>
      CreatedRows(api, m, orderId, products, firstId)[j].name in ApiNames(api)
  {
    if api != [] {
      var init := api[..|api| - 1];
      CreatedNamesListed(init, m, orderId, products, firstId);
      var c := CreatedRows(api, m, orderId, products, firstId);
      var rest := CreatedRows(init, m, orderId, products, firstId);
      forall j | 0 <= j < |c|
        ensures c[j].name in ApiNames(api)
      {
        if j < |rest| {
          assert rest[j].name in ApiNames(init);
          var a :| a in init && a.name == rest[j].name;
          assert a in api;
        } else {
          assert api[|api| - 1] in api;
        }
      }
    }
  }

  /** A live row of the order is among its visible items. */
  lemma LiveRowVisible(rows: seq<LineItemRecord>, k: nat, orderId: Id)
    requires k < |rows| && rows[k].orderId == orderId && !rows[k].isDeleted
    ensures rows[k] in VisibleItems(rows, orderId)
  {
    assert rows[k] in rows;
  }

  /**
   * The row a listed name maps to ends up live, holding the last API item
   * with that name, and keeps its own product id.
   */
  lemma MappedRowCarries(s: seq<LineItemRecord>, orderId: Id, api: seq<ApiLineItem>, n: string)
    requires n in NameMap(s, orderId) && n in ApiNames(api)
    ensures
      var k := NameMap(s, orderId)[n];
      var x := MergedRows(s, orderId, api)[k];
      && LastNamed(api, n).Some?
      && x.orderId == orderId && !x.isDeleted && Carries(x, LastNamed(api, n).value)
      && x.productId == s[k].productId
  {
    var m := NameMap(s, orderId);
    var k := m[n];
    LastNamedOfListed(api, n);
    var u := UpdatedRow(s[k], k, m, api);
    assert u == ApplyApi(s[k], LastNamed(api, n).value);
    assert MergedRows(s, orderId, api)[k] == Retire(u, orderId, ApiNames(api)) == u;
  }

  /** A live row of the order that came from the existing rows has a listed name. */
  lemma MergedRowListed(s: seq<LineItemRecord>, orderId: Id, api: seq<ApiLineItem>, k: nat)
    requires k < |s|
    ensures
      var x := MergedRows(s, orderId, api)[k];
      x.orderId == orderId && !x.isDeleted ==> x.name in ApiNames(api)
  {
    var m := NameMap(s, orderId);
    var u := UpdatedRow(s[k], k, m, api);
    assert u.orderId == s[k].orderId && u.name == s[k].name;
    assert MergedRows(s, orderId, api)[k] == Retire(u, orderId, ApiNames(api));
  }

  /**
   * After the merge, every name the response lists is shown by a live row
   * of the order holding the values of the LAST response item with that name.
   */
  lemma MergeShowsEveryListedName(s: seq<LineItemRecord>, orderId: Id, api: seq<ApiLineItem>,
                                   products: seq<ProductRecord>, firstId: Id, n: string)
    requires n in ApiNames(api)
    ensures LastNamed(api, n).Some?
    ensures exists x :: x in VisibleItems(MergeResult(s, orderId, api, products, firstId), orderId)
                        && Carries(x, LastNamed(api, n).value)
                        && x.productId == MergedProductId(s, orderId, products, n, LastNamed(api, n).value)
  {
    var m := NameMap(s, orderId);
    var merged := MergedRows(s, orderId, api);
    var c := CreatedRows(api, m, orderId, products, firstId);
    var rows := merged + c;
    LastNamedOfListed(api, n);
    if n in m {
      var k := m[n];
      MappedRowCarries(s, orderId, api, n);
      assert rows[k] == merged[k];
      LiveRowVisible(rows, k, orderId);
    } else {
      CreatedCarriesLast(api, m, orderId, products, firstId, n);
      var j :| 0 <= j < |c| && Carries(c[j], LastNamed(api, n).value)
        && c[j].productId == ProductIdByName(products, n, LastNamed(api, n).value.id);
      assert rows[|s| + j] == c[j];
      LiveRowVisible(rows, |s| + j, orderId);
    }
  }

  /** After the merge, no live row of the order carries a name the response does not list. */
  lemma MergeDropsUnlistedNames(s: seq<LineItemRecord>, orderId: Id, api: seq<ApiLineItem>,
                                products: seq<ProductRecord>, firstId: Id)
    ensures forall k :: 0 <= k < |MergeResult(s, orderId, api, products, firstId)| ==>
      var x := MergeResult(s, orderId, api, products, firstId)[k];
      x.orderId == orderId && !x.isDeleted ==> x.name in ApiNames(api)
  {
    var m := NameMap(s, orderId);
    var merged := MergedRows(s, orderId, api);
    var c := CreatedRows(api, m, orderId, products, firstId);
    var rows := merged + c;
    CreatedNamesListed(api, m, orderId, products, firstId);
    forall k | 0 <= k < |rows| && rows[k].orderId == orderId && !rows[k].isDeleted
      ensures rows[k].name in ApiNames(api)
    {
      if k < |s| {
        assert rows[k] == merged[k];
        MergedRowListed(s, orderId, api, k);
      } else {
        assert rows[k] == c[k - |s|];
      }
    }
  }

  /** Rows of other orders come through the merge unchanged, and every created row belongs to the order. */
  lemma MergeKeepsOtherOrders(s: seq<LineItemRecord>, orderId: Id, api: seq<ApiLineItem>,
                              products: seq<ProductRecord>, firstId: Id)
    ensures
      var rows := MergeResult(s, orderId, api, products, firstId);
      && |rows| >= |s|
      && (forall k :: 0 <= k < |s| && s[k].orderId != orderId ==> rows[k] == s[k])
      && (forall k :: |s| <= k < |rows| ==> rows[k].orderId == orderId)
  {
    var m := NameMap(s, orderId);
    var rows := MergeResult(s, orderId, api, products, firstId);
    var c := CreatedRows(api, m, orderId, products, firstId);
    forall k | |s| <= k < |rows|
      ensures rows[k].orderId == orderId
    {
      assert rows[k] == c[k - |s|];
    }
  }
}
