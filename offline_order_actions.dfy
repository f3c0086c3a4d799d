/**
 * The cart hook the product list uses while offline-first: adding a
 * product writes the order to the local store and queues the intent for
 * the sync manager; coming back online and the manual sync button start
 * a drain.
 */
module OfflineOrderActions {
  import opened Wrappers
  import opened Schema
  import opened Database
  import opened OrderStorage
  import opened SyncQueue
  import opened OrderSync
  import opened SyncManager
  import opened OrderSlice

  // ---------------------------------------------------------------------
  // The item lists the hook builds
  // ---------------------------------------------------------------------

  /** The line item for a product not yet in the order: one unit, pending. */
  function NewLine(p: Product, orderId: Option<Id>): StoredLineItem {
    StoredLineItem(p.id, p.name, p.price, p.image, 1, p.price, p.id, orderId, ItemPending)
  }

  /** The item list of a new order: one unit of the product, not yet linked to an order. */
  function FirstLines(p: Product): seq<StoredLineItem> {
    [NewLine(p, None)]
  }

  /** One more unit of an item, with its total recomputed. */
  function Bumped(x: StoredLineItem): StoredLineItem {
    x.(quantity := x.quantity + 1, totalPrice := x.price * (x.quantity + 1))
  }

  predicate HasProduct(items: seq<StoredLineItem>, productId: Id) {
    exists k :: 0 <= k < |items| && items[k].productId == productId
  }

  /** Every item of the product gets one more unit; the others stay as they are. */
  function BumpProduct(items: seq<StoredLineItem>, productId: Id): (r: seq<StoredLineItem>)
    ensures |r| == |items|
    ensures forall k :: 0 <= k < |items| ==>
      r[k] == if items[k].productId == productId then Bumped(items[k]) else items[k]
  {
    if items == [] then []
    else [if items[0].productId == productId then Bumped(items[0]) else items[0]]
         + BumpProduct(items[1..], productId)
  }

  /** The list `addItemToExistingOrder` writes: the product's items bumped, or a new last item. */
  function AddedLines(items: seq<StoredLineItem>, p: Product, orderId: Id): seq<StoredLineItem> {
    if HasProduct(items, p.id) then BumpProduct(items, p.id)
    else items + [NewLine(p, Some(orderId))]
  }

  /** Units of one product across the list. */
  function Quantity(items: seq<StoredLineItem>, productId: Id): int {
    if items == [] then 0
    else (if items[0].productId == productId then items[0].quantity else 0) + Quantity(items[1..], productId)
  }

  /** Items of one product across the list. */
  function Matches(items: seq<StoredLineItem>, productId: Id): nat {
    if items == [] then 0
    else (if items[0].productId == productId then 1 else 0) + Matches(items[1..], productId)
  }

  lemma {:induction false} MatchesCountsProduct(items: seq<StoredLineItem>, productId: Id)
    ensures Matches(items, productId) == 0 <==> !HasProduct(items, productId)
  {
    if items != [] {
      MatchesCountsProduct(items[1..], productId);
      if HasProduct(items[1..], productId) {
        var k :| 0 <= k < |items[1..]| && items[1..][k].productId == productId;
        assert items[k + 1].productId == productId;
      }
      if HasProduct(items, productId) && items[0].productId != productId {
        var k :| 0 <= k < |items| && items[k].productId == productId;
        assert items[1..][k - 1].productId == productId;
      }
    }
  }

  lemma {:induction false} QuantityAppend(items: seq<StoredLineItem>, x: StoredLineItem, productId: Id)
    ensures Quantity(items + [x], productId) == Quantity(items, productId) + (if x.productId == productId then x.quantity else 0)
  {
    if items != [] {
      assert (items + [x])[1..] == items[1..] + [x];
      QuantityAppend(items[1..], x, productId);
    }
  }

  lemma {:induction false} BumpRaisesQuantity(items: seq<StoredLineItem>, productId: Id, other: Id)
    ensures Quantity(BumpProduct(items, productId), other)
         == Quantity(items, other) + (if other == productId then Matches(items, productId) else 0)
  {
    if items != [] {
      BumpRaisesQuantity(items[1..], productId, other);
      assert BumpProduct(items, productId)[1..] == BumpProduct(items[1..], productId);
    }
  }

  /**
   * Adding a product raises its units by one when it is new, or by one per
   * item already carrying it; every other product keeps its units.
   */
  lemma AddRaisesQuantity(items: seq<StoredLineItem>, p: Product, orderId: Id, other: Id)
    ensures Quantity(AddedLines(items, p, orderId), p.id)
         == Quantity(items, p.id) + (if Matches(items, p.id) == 0 then 1 else Matches(items, p.id))
    ensures other != p.id ==> Quantity(AddedLines(items, p, orderId), other) == Quantity(items, other)
  {
    MatchesCountsProduct(items, p.id);
    if HasProduct(items, p.id) {
      BumpRaisesQuantity(items, p.id, p.id);
      BumpRaisesQuantity(items, p.id, other);
    } else {
      QuantityAppend(items, NewLine(p, Some(orderId)), p.id);
      QuantityAppend(items, NewLine(p, Some(orderId)), other);
    }
  }

  /**
   * After an add the product is in the list; items of other products keep
   * their place and contents; the list grows only when the product is new,
   * and then by one item at the end.
   */
  lemma AddKeepsOtherItems(items: seq<StoredLineItem>, p: Product, orderId: Id)
    ensures HasProduct(AddedLines(items, p, orderId), p.id)
    ensures |AddedLines(items, p, orderId)| == |items| + (if HasProduct(items, p.id) then 0 else 1)
    ensures forall k :: 0 <= k < |items| && items[k].productId != p.id ==> AddedLines(items, p, orderId)[k] == items[k]
    ensures !HasProduct(items, p.id) ==> AddedLines(items, p, orderId)[|items|] == NewLine(p, Some(orderId))
  {
    var r := AddedLines(items, p, orderId);
    if HasProduct(items, p.id) {
      var k :| 0 <= k < |items| && items[k].productId == p.id;
      assert r[k].productId == p.id;
    } else {
      assert r[|items|].productId == p.id;
    }
  }

  /** An add never brings in a product other than the one added. */
  lemma AddBringsOnlyTheProduct(items: seq<StoredLineItem>, p: Product, orderId: Id, other: Id)
    requires other != p.id
    ensures HasProduct(AddedLines(items, p, orderId), other) <==> HasProduct(items, other)
  {
    var r := AddedLines(items, p, orderId);
    if HasProduct(r, other) {
      var k :| 0 <= k < |r| && r[k].productId == other;
      assert items[k].productId == other;
    }
    if HasProduct(items, other) {
      var k :| 0 <= k < |items| && items[k].productId == other;
      assert r[k].productId == other;
    }
  }

  // ---------------------------------------------------------------------
  // The queued payload
  // ---------------------------------------------------------------------

  /** An item as the payload carries it: the store's item without order link and status. */
  function ApiItem(x: StoredLineItem): ApiLineItem {
    ApiLineItem(x.id, x.name, x.price, x.image, x.quantity, x.totalPrice, x.productId)
  }

  function ApiItems(xs: seq<StoredLineItem>): (r: seq<ApiLineItem>)
    ensures |r| == |xs|
    ensures forall k :: 0 <= k < |xs| ==> r[k] == ApiItem(xs[k])
  {
    if xs == [] then [] else [ApiItem(xs[0])] + ApiItems(xs[1..])
  }

  /** The payload `queueOrderAction` builds from the order the store returned. */
  function PayloadOf(v: StoredOrder): OrderPayload {
    OrderPayload(v.timestamp, ApiItems(v.lineItems), v.apiId)
  }

  /**
   * The payload of an order the store shows as `lines` lists those lines in
   * order: their name, price, image, quantity and product, the total as
   * price times quantity, and the store's fresh item ids.
   */
  lemma PayloadListsTheLines(v: StoredOrder, lines: seq<StoredLineItem>, firstId: Id)
    requires ShowsInputs(v, lines, firstId)
    ensures PayloadOf(v).timestamp == v.timestamp && PayloadOf(v).apiId == v.apiId
    ensures |PayloadOf(v).lineItems| == |lines|
    ensures forall k :: 0 <= k < |lines| ==>
      PayloadOf(v).lineItems[k]
        == ApiLineItem(firstId + k, lines[k].name, lines[k].price, lines[k].image, lines[k].quantity,
                       lines[k].price * lines[k].quantity, lines[k].productId)
  {
  }

  /** A new order's payload is the single unit of the product. */
  lemma NewOrderPayload(v: StoredOrder, p: Product, firstId: Id)
    requires ShowsInputs(v, FirstLines(p), firstId)
    ensures PayloadOf(v).lineItems == [ApiLineItem(firstId, p.name, p.price, p.image, 1, p.price, p.id)]
  {
    PayloadListsTheLines(v, FirstLines(p), firstId);
  }

  /**
   * The order `createNewOrderWithItem` stores, read back under its id, is
   * queued with a payload holding the single unit of the product.
   */
  lemma CreatedOrderQueuesOneUnit(orders: seq<OrderRecord>, items: seq<LineItemRecord>, p: Product, id: Id, now: nat,
                                  v: StoredOrder)
    requires OrdersOk(orders, id)
    requires forall k :: 0 <= k < |items| ==> items[k].orderId < id
    requires GetOrderById(orders + [OrderRecord(id, now, false, OpCreate, false, now, None, now, now)],
                          items + NewRows(FirstLines(p), id, id + 1), id, now) == Ok(v)
    ensures PayloadOf(v) == OrderPayload(now, [ApiLineItem(id + 1, p.name, p.price, p.image, 1, p.price, p.id)], None)
  {
    var o := OrderRecord(id, now, false, OpCreate, false, now, None, now, now);
    assert o.id == id;
    CreatedOrderShowsInputs(orders, items, o, FirstLines(p), now);
    NewOrderPayload(v, p, id + 1);
  }

  /**
   * After `addItemToExistingOrder` the stored order shows exactly the added
   * lines, so the payload queued for it lists them in order.
   */
  lemma UpdatedOrderQueuesAddedLines(orders: seq<OrderRecord>, items: seq<LineItemRecord>, cur: StoredOrder,
                                     p: Product, firstId: Id, now: nat)
    requires HasOrder(orders, cur.id)
    ensures
      var lines := AddedLines(cur.lineItems, p, cur.id);
      var r := GetOrderById(orders, MapItemsOf(items, cur.id, ReplaceMark) + NewRows(lines, cur.id, firstId), cur.id, now);
      && r.Ok?
      && |PayloadOf(r.value).lineItems| == |lines|
      && forall k :: 0 <= k < |lines| ==>
           PayloadOf(r.value).lineItems[k]
             == ApiLineItem(firstId + k, lines[k].name, lines[k].price, lines[k].image, lines[k].quantity,
                            lines[k].price * lines[k].quantity, lines[k].productId)
  {
    var lines := AddedLines(cur.lineItems, p, cur.id);
    UpdatedOrderShowsInputs(orders, items, cur.id, lines, firstId, now);
    var r := GetOrderById(orders, MapItemsOf(items, cur.id, ReplaceMark) + NewRows(lines, cur.id, firstId), cur.id, now);
    PayloadListsTheLines(r.value, lines, firstId);
  }

  // ---------------------------------------------------------------------
  // What the stale screen order does to a second add
  // ---------------------------------------------------------------------

  /**
   * The update path stores `AddedLines` of the order on screen but does not
   * put the result on screen, so a second add starts again from the old
   * list: with a new product `b` added first and `c` second, the stored
   * list after the second add no longer holds `b`.
   */
  lemma StaleSecondAddDropsFirst(items: seq<StoredLineItem>, b: Product, c: Product, orderId: Id)
    requires b.id != c.id && !HasProduct(items, b.id)
    ensures HasProduct(AddedLines(items, b, orderId), b.id)
    ensures !HasProduct(AddedLines(items, c, orderId), b.id)
  {
    AddKeepsOtherItems(items, b, orderId);
    AddBringsOnlyTheProduct(items, c, orderId, b.id);
  }

  /** Starting each add from the list the previous add stored keeps both products. */
  lemma FreshSecondAddKeepsFirst(items: seq<StoredLineItem>, b: Product, c: Product, orderId: Id)
    requires b.id != c.id
    ensures HasProduct(AddedLines(AddedLines(items, b, orderId), c, orderId), b.id)
    ensures HasProduct(AddedLines(AddedLines(items, b, orderId), c, orderId), c.id)
  {
    AddKeepsOtherItems(items, b, orderId);
    AddBringsOnlyTheProduct(AddedLines(items, b, orderId), c, orderId, b.id);
    AddKeepsOtherItems(AddedLines(items, b, orderId), c, orderId);
  }

  // ---------------------------------------------------------------------
  // What each path of `addToOrder` does, as a relation between states
  // ---------------------------------------------------------------------

  /** The queue `q` is `q0` with `e` appended. */
  ghost predicate QueueGrewBy(q0: seq<QueueEntry>, q: seq<QueueEntry>, e: QueueEntry) {
    |q| == |q0| + 1 && q[..|q0|] == q0 && q[|q0|] == e
  }

  /** What one more queued entry does to the sync manager's counts and timers. */
  ghost predicate Queued(status0: SyncStatus, timers0: seq<nat>, status: SyncStatus, q: seq<QueueEntry>,
                         timers: seq<nat>, now: nat)
  {
    && status == WithCounts(status0, q)
    && timers == timers0 + (if status.isOnline then [now + DebounceMs] else [])
  }

  /**
   * The create path of `addToOrder` from tables `t0`, screen `s0`, counts
   * `status0` and timers `timers0` to `t`, `s`, `status` and `timers`: the
   * new order and its single item are stored, shown, and queued as `create`.
   */
  ghost predicate NewOrderAdded(p: Product, now: nat, v: StoredOrder,
                                t0: Tables, s0: OrderState, status0: SyncStatus, timers0: seq<nat>,
                                t: Tables, s: OrderState, status: SyncStatus, timers: seq<nat>)
  {
    && v.id == t0.nextId && v.syncStatus == OrderPending
    && s == Reduce(s0, SetOrder(v))
    && t.orders == t0.orders + [OrderRecord(t0.nextId, now, false, OpCreate, false, now, None, now, now)]
    && t.lineItems == t0.lineItems + NewRows(FirstLines(p), t0.nextId, t0.nextId + 1)
    && t.products == t0.products
    && QueueGrewBy(t0.syncQueue, t.syncQueue, QueueEntry(t0.nextId + 2, OrderEntity, v.id, Create, PayloadOf(v), now, 1, 0, None))
    && t.nextId == t0.nextId + 3
    && GetOrderById(t.orders, t.lineItems, v.id, now) == Ok(v)
    && Queued(status0, timers0, status, t.syncQueue, timers, now)
  }

  /**
   * The update path of `addToOrder`, between the same states: when the
   * shown order is still stored, its items are replaced by the added lines
   * and it is queued as `update`; otherwise nothing changes. The screen is
   * left as it was in both cases.
   */
  ghost predicate ShownOrderAdded(p: Product, now: nat, updated: Option<StoredOrder>,
                                  t0: Tables, s0: OrderState, status0: SyncStatus, timers0: seq<nat>,
                                  t: Tables, s: OrderState, status: SyncStatus, timers: seq<nat>)
    requires s0.currentOrder.Some?
  {
    var cur := s0.currentOrder.value;
    var lines := AddedLines(cur.lineItems, p, cur.id);
    && s == s0
    && (updated.Some? <==> HasOrder(t0.orders, cur.id))
    && (updated.Some? ==>
          var k := OrderIndex(t0.orders, cur.id).value;
          && updated.value.id == cur.id && updated.value.syncStatus == OrderPending
          && t.orders == t0.orders[k := UpdatedOrderRecord(t0.orders[k], None, now)]
          && t.lineItems == MapItemsOf(t0.lineItems, cur.id, ReplaceMark) + NewRows(lines, cur.id, t0.nextId)
          && t.products == t0.products
          && QueueGrewBy(t0.syncQueue, t.syncQueue,
                         QueueEntry(t0.nextId + |lines|, OrderEntity, cur.id, Update, PayloadOf(updated.value), now, 1, 0, None))
          && t.nextId == t0.nextId + |lines| + 1
          && GetOrderById(t.orders, t.lineItems, cur.id, now) == Ok(updated.value)
          && Queued(status0, timers0, status, t.syncQueue, timers, now))
    && (updated.None? ==> t == t0 && status == status0 && timers == timers0)
  }

  /** `createNewOrderWithItem` from tables `t0` to `t1`: the order and its single item stored. */
  ghost predicate CreateStep(p: Product, now: nat, v: StoredOrder, t0: Tables, t1: Tables) {
    && t1.orders == t0.orders + [OrderRecord(t0.nextId, now, false, OpCreate, false, now, None, now, now)]
    && t1.lineItems == t0.lineItems + NewRows(FirstLines(p), t0.nextId, t0.nextId + 1)
    && t1.products == t0.products && t1.syncQueue == t0.syncQueue && t1.nextId == t0.nextId + 2
    && v.id == t0.nextId && v.syncStatus == OrderPending
    && GetOrderById(t1.orders, t1.lineItems, v.id, now) == Ok(v)
  }

  /** `queueOrderAction` from tables `t1`, counts and timers to `t`: one entry for `v` queued. */
  ghost predicate EntryQueued(action: SyncAction, v: StoredOrder, now: nat,
                            t1: Tables, status1: SyncStatus, timers1: seq<nat>,
                            t: Tables, status: SyncStatus, timers: seq<nat>)
  {
    && t.orders == t1.orders && t.lineItems == t1.lineItems && t.products == t1.products
    && QueueGrewBy(t1.syncQueue, t.syncQueue, QueueEntry(t1.nextId, OrderEntity, v.id, action, PayloadOf(v), now, 1, 0, None))
    && t.nextId == t1.nextId + 1
    && Queued(status1, timers1, status, t.syncQueue, timers, now)
  }

  /** The create path's two writes, the order and then its queue entry, make up `NewOrderAdded`. */
  lemma CreatePathAdds(p: Product, now: nat, v: StoredOrder,
                       t0: Tables, s0: OrderState, status0: SyncStatus, timers0: seq<nat>,
                       t1: Tables, t: Tables, s: OrderState, status: SyncStatus, timers: seq<nat>)
    requires CreateStep(p, now, v, t0, t1)
    requires s == Reduce(s0, SetOrder(v))
    requires EntryQueued(Create, v, now, t1, status0, timers0, t, status, timers)
    ensures NewOrderAdded(p, now, v, t0, s0, status0, timers0, t, s, status, timers)
  {
  }

  // ---------------------------------------------------------------------
  // The hook
  // ---------------------------------------------------------------------

  class OfflineOrderActionsHook {
    const db: Database
    const sync: OfflineFirstSyncManager
    /** The `order` slice the hook reads and dispatches to. */
    var store: OrderState
    var isAddingToOrder: bool
    var isSyncing: bool
    /** The network state the auto-sync effect saw last time. */
    var lastConnected: bool
    var lastReachable: bool

    ghost predicate Valid()
      reads this, sync, sync.db
    {
      sync.db == db && sync.Valid()
    }

    constructor (sync: OfflineFirstSyncManager, store: OrderState)
      requires sync.Valid()
      ensures Valid() && this.sync == sync && this.store == store
      ensures !isAddingToOrder && !isSyncing && !lastConnected && !lastReachable
    {
      this.db := sync.db;
      this.sync := sync;
      this.store := store;
      isAddingToOrder, isSyncing := false, false;
      lastConnected, lastReachable := false, false;
    }

    /** The mount effect: the active order, when there is one, goes on screen. */
    method LoadActiveOrder(now: nat)
      modifies this`store
      ensures store == match GetActiveOrder(db.orders, db.lineItems, now)
        case Some(o) => Reduce(old(store), SetOrder(o))
        case None => old(store)
    {
      var order := GetActiveOrder(db.orders, db.lineItems, now);
      if order.Some? {
        store := Reduce(store, SetOrder(order.value));
      }
    }

    /**
     * `addToOrder`. With no order on screen, a new order holding one unit of
     * the product is created, put on screen and queued as `create`. With an
     * order on screen, its lines with the product added are written over the
     * stored order's items and, if the order still exists, queued as
     * `update`; the screen keeps the order it showed. Nothing happens while
     * an earlier add runs.
     */
    method AddToOrder(p: Product, now: nat) returns (updated: Option<StoredOrder>)
      requires Valid()
      modifies this`store, this`isAddingToOrder, db`orders, db`lineItems, db`nextId, db`syncQueue,
               sync`status, sync`debounceTimers
      ensures Valid() && isAddingToOrder == old(isAddingToOrder)
      ensures old(isAddingToOrder) ==>
        && updated.None? && store == old(store) && db.Contents() == old(db.Contents())
        && sync.status == old(sync.status) && sync.debounceTimers == old(sync.debounceTimers)
      ensures !old(isAddingToOrder) && old(store.currentOrder).None? ==>
        && updated.Some?
        && NewOrderAdded(p, now, updated.value,
                         old(db.Contents()), old(store), old(sync.status), old(sync.debounceTimers),
                         db.Contents(), store, sync.status, sync.debounceTimers)
      ensures !old(isAddingToOrder) && old(store.currentOrder).Some? ==>
        ShownOrderAdded(p, now, updated,
                        old(db.Contents()), old(store), old(sync.status), old(sync.debounceTimers),
                        db.Contents(), store, sync.status, sync.debounceTimers)
    {
      if isAddingToOrder {
        return None;
      }
      isAddingToOrder := true;
      if store.currentOrder.None? {
        var v := AddToNewOrder(p, now);
        updated := Some(v);
      } else {
        updated := AddToShownOrder(p, now);
      }
      isAddingToOrder := false;
    }

    /** The create path of `addToOrder`. */
    method AddToNewOrder(p: Product, now: nat) returns (v: StoredOrder)
      requires Valid() && store.currentOrder.None?
      modifies this`store, db`orders, db`lineItems, db`nextId, db`syncQueue, sync`status, sync`debounceTimers
      ensures Valid()
      ensures NewOrderAdded(p, now, v,
                            old(db.Contents()), old(store), old(sync.status), old(sync.debounceTimers),
                            db.Contents(), store, sync.status, sync.debounceTimers)
    {
      ghost var t0, s0, status0, timers0 := db.Contents(), store, sync.status, sync.debounceTimers;
      v := CreateNewOrderWithItem(p, now);
      store := Reduce(store, SetOrder(v));
      ghost var t1 := db.Contents();
      QueueOrderAction(Create, v, now);
      CreatePathAdds(p, now, v, t0, s0, status0, timers0, t1, db.Contents(), store, sync.status, sync.debounceTimers);
    }

    /** The update path of `addToOrder`. */
    method AddToShownOrder(p: Product, now: nat) returns (updated: Option<StoredOrder>)
      requires Valid() && store.currentOrder.Some?
      modifies db`orders, db`lineItems, db`nextId, db`syncQueue, sync`status, sync`debounceTimers
      ensures Valid()
      ensures ShownOrderAdded(p, now, updated,
                              old(db.Contents()), old(store), old(sync.status), old(sync.debounceTimers),
                              db.Contents(), store, sync.status, sync.debounceTimers)
    {
      var cur := store.currentOrder.value;
      var r := AddItemToExistingOrder(cur, p, now);
      if r.Ok? {
        QueueOrderAction(Update, r.value, now);
        updated := Some(r.value);
      } else {
        updated := None;
      }
    }

    /** `createNewOrderWithItem`: a new order in the store holding one unit of the product. */
    method CreateNewOrderWithItem(p: Product, now: nat) returns (v: StoredOrder)
      requires db.Valid()
      modifies db`orders, db`lineItems, db`nextId
      ensures db.Valid()
      ensures CreateStep(p, now, v, old(db.Contents()), db.Contents())
    {
      v := CreateOrder(db, now, FirstLines(p), now);
    }

    /**
     * `addItemToExistingOrder`: the lines of `cur` with the product added
     * replace the stored order's items; an order no longer in the store
     * throws and nothing changes.
     */
    method AddItemToExistingOrder(cur: StoredOrder, p: Product, now: nat) returns (r: Result<StoredOrder>)
      requires db.Valid()
      modifies db`orders, db`lineItems, db`nextId
      ensures db.Valid()
      ensures r.Ok? <==> old(HasOrder(db.orders, cur.id))
      ensures r.Err? ==> db.orders == old(db.orders) && db.lineItems == old(db.lineItems) && db.nextId == old(db.nextId)
      ensures r.Ok? ==>
        var lines := AddedLines(cur.lineItems, p, cur.id);
        var k := old(OrderIndex(db.orders, cur.id)).value;
        && r.value.id == cur.id && r.value.syncStatus == OrderPending
        && GetOrderById(db.orders, db.lineItems, cur.id, now) == r
        && db.orders == old(db.orders)[k := UpdatedOrderRecord(old(db.orders)[k], None, now)]
        && db.lineItems == MapItemsOf(old(db.lineItems), cur.id, ReplaceMark) + NewRows(lines, cur.id, old(db.nextId))
        && db.nextId == old(db.nextId) + |lines|
    {
      r := UpdateOrder(db, cur.id, None, Some(AddedLines(cur.lineItems, p, cur.id)), now);
    }

    /** `queueOrderAction`: the order's snapshot queued at priority 1. */
    method QueueOrderAction(action: SyncAction, v: StoredOrder, now: nat)
      requires Valid()
      modifies db`syncQueue, db`nextId, sync`status, sync`debounceTimers
      ensures Valid()
      ensures EntryQueued(action, v, now, old(db.Contents()), old(sync.status), old(sync.debounceTimers),
                        db.Contents(), sync.status, sync.debounceTimers)
    {
      sync.QueueAction(OrderEntity, v.id, action, PayloadOf(v), 1, now);
    }

    /**
     * `addToOrder` with the stored order put on screen after an update too,
     * so the next add starts from what was stored.
     */
    method AddToOrderAndShow(p: Product, now: nat) returns (updated: Option<StoredOrder>)
      requires Valid()
      modifies this`store, this`isAddingToOrder, db`orders, db`lineItems, db`nextId, db`syncQueue,
               sync`status, sync`debounceTimers
      ensures Valid() && isAddingToOrder == old(isAddingToOrder)
      ensures updated.Some? ==>
        && store.currentOrder == updated
        && GetOrderById(db.orders, db.lineItems, updated.value.id, now) == Ok(updated.value)
      ensures !old(isAddingToOrder) && old(store.currentOrder).Some? ==>
        var cur := old(store.currentOrder).value;
        updated.Some? ==> db.lineItems == MapItemsOf(old(db.lineItems), cur.id, ReplaceMark)
                                          + NewRows(AddedLines(cur.lineItems, p, cur.id), cur.id, old(db.nextId))
      ensures updated.None? ==> store == old(store)
    {
      updated := AddToOrder(p, now);
      if updated.Some? {
        store := Reduce(store, SetOrder(updated.value));
      }
    }

    /**
     * The auto-sync effect: a drain is asked for only when the network went
     * from not (connected and reachable) to connected and reachable and the
     * hook is not syncing; the seen state is recorded either way.
     */
    method OnNetInfo(isConnected: bool, isInternetReachable: bool, replies: nat -> Reply, now: nat)
      returns (fired: bool)
      requires Valid()
      modifies this`lastConnected, this`lastReachable, this`isSyncing,
               db`orders, db`lineItems, db`nextId, db`syncQueue, sync`status, sync`drainList, sync`cursor,
               sync`deferredWrites, sync`remoteCalls, sync`deliveries
      ensures Valid()
      ensures fired <==> (!old(lastConnected) || !old(lastReachable)) && isConnected && isInternetReachable && !old(isSyncing)
      ensures lastConnected == isConnected && lastReachable == isInternetReachable && isSyncing == old(isSyncing)
      ensures !fired || old(sync.status.isSyncing) || !old(sync.status.isOnline) ==>
        && db.Contents() == old(db.Contents()) && sync.status == old(sync.status)
        && sync.remoteCalls == old(sync.remoteCalls) && sync.deferredWrites == old(sync.deferredWrites)
      ensures fired && !old(sync.status.isSyncing) && old(sync.status.isOnline) ==>
        var run := RunSteps(old(db.Contents()), SortForDrain(old(db.syncQueue)), replies, now);
        && db.Contents() == run.tables
        && sync.remoteCalls == old(sync.remoteCalls) + run.calls
        && sync.deferredWrites == old(sync.deferredWrites) + run.deferred
    {
      var wasOffline := !lastConnected || !lastReachable;
      var isNowOnline := isConnected && isInternetReachable;
      fired := wasOffline && isNowOnline && !isSyncing;
      if fired {
        isSyncing := true;
        var _ := sync.SyncPendingActions(replies, now);
        isSyncing := false;
      }
      lastConnected, lastReachable := isConnected, isInternetReachable;
    }

    /** The body of `manualSync`'s `try`: a forced drain, then the active order on screen. */
    method ForceSyncAndReload(replies: nat -> Reply, now: nat) returns (r: Outcome)
      requires Valid()
      modifies this`store, db`orders, db`lineItems, db`nextId, db`syncQueue, sync`status, sync`drainList,
               sync`cursor, sync`deferredWrites, sync`remoteCalls, sync`deliveries
      ensures Valid()
      ensures r.Done? <==> old(sync.status.isOnline)
      ensures r.Failed? ==>
        && store == old(store) && db.Contents() == old(db.Contents()) && sync.status == old(sync.status)
        && sync.remoteCalls == old(sync.remoteCalls) && sync.deferredWrites == old(sync.deferredWrites)
      ensures r.Done? ==>
        store == match GetActiveOrder(db.orders, db.lineItems, now)
          case Some(o) => Reduce(old(store), SetOrder(o))
          case None => old(store)
      ensures r.Done? && !old(sync.status.isSyncing) ==>
        var run := RunSteps(old(db.Contents()), SortForDrain(old(db.syncQueue)), replies, now);
        && db.Contents() == run.tables
        && sync.remoteCalls == old(sync.remoteCalls) + run.calls
        && sync.deferredWrites == old(sync.deferredWrites) + run.deferred
    {
      var outcomes;
      r, outcomes := sync.ForceSync(replies, now);
      if r.Done? {
        LoadActiveOrder(now);
      }
    }

    /**
     * `manualSync`: only when connected, reachable and not syncing. A drain
     * is forced; when it did not fail, the active order goes on screen.
     */
    method ManualSync(isConnected: bool, isInternetReachable: bool, replies: nat -> Reply, now: nat)
      returns (ran: bool)
      requires Valid()
      modifies this`store, this`isSyncing,
               db`orders, db`lineItems, db`nextId, db`syncQueue, sync`status, sync`drainList, sync`cursor,
               sync`deferredWrites, sync`remoteCalls, sync`deliveries
      ensures Valid()
      ensures ran <==> isConnected && isInternetReachable && !old(isSyncing)
      ensures isSyncing == old(isSyncing)
      ensures !ran || !old(sync.status.isOnline) ==>
        && store == old(store) && db.Contents() == old(db.Contents()) && sync.status == old(sync.status)
        && sync.remoteCalls == old(sync.remoteCalls) && sync.deferredWrites == old(sync.deferredWrites)
      ensures ran && old(sync.status.isOnline) ==>
        store == match GetActiveOrder(db.orders, db.lineItems, now)
          case Some(o) => Reduce(old(store), SetOrder(o))
          case None => old(store)
      ensures ran && old(sync.status.isOnline) && !old(sync.status.isSyncing) ==>
        var run := RunSteps(old(db.Contents()), SortForDrain(old(db.syncQueue)), replies, now);
        && db.Contents() == run.tables
        && sync.remoteCalls == old(sync.remoteCalls) + run.calls
        && sync.deferredWrites == old(sync.deferredWrites) + run.deferred
    {
      ran := isConnected && isInternetReachable && !isSyncing;
      if ran {
        isSyncing := true;
        var r := ForceSyncAndReload(replies, now);
        isSyncing := false;
      }
    }
  }
}
