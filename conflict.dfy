/**
 * Last-write-wins resolution of a local order against the copy the
 * server returned: which side wins, and what each outcome writes to the
 * local tables.
 */
module ConflictResolution {
  import opened Wrappers
  import opened Schema
  import opened Database
  import opened ProductStorage
  import opened OrderStorage

  // ---------------------------------------------------------------------
  // The winner test
  // ---------------------------------------------------------------------

  /** An optional stamp as a number, absent reading as the falsy 0. */
  function Stamp(x: Option<nat>): nat {
    match x
    case Some(v) => v
    case None => 0
  }

  /** `lastModified || updatedAt || createdAt`: a 0 falls through to the next field. */
  function LocalTimestamp(o: OrderRecord): nat {
    if o.lastModified != 0 then o.lastModified
    else if o.updatedAt != 0 then o.updatedAt
    else o.createdAt
  }

  /** `updatedAt || lastModified || timestamp` of the server's copy. */
  function RemoteTimestamp(r: ApiOrder): nat {
    if Stamp(r.updatedAt) != 0 then Stamp(r.updatedAt)
    else if Stamp(r.lastModified) != 0 then Stamp(r.lastModified)
    else r.timestamp
  }

  /** The local copy wins ties. */
  predicate LocalWins(o: OrderRecord, r: ApiOrder) {
    LocalTimestamp(o) >= RemoteTimestamp(r)
  }

  // ---------------------------------------------------------------------
  // The two outcomes
  // ---------------------------------------------------------------------

  function LocalWinsOrder(o: OrderRecord, r: ApiOrder): OrderRecord {
    o.(synced := true, operation := OpNone, apiId := Some(r.id))
  }

  function RemoteWinsOrder(o: OrderRecord, r: ApiOrder): OrderRecord {
    o.(synced := true, operation := OpNone, apiId := Some(r.id),
       lastModified := RemoteTimestamp(r), timestamp := r.timestamp)
  }

  /** The line-item table once every row of `orderId` is destroyed. */
  function ItemsNotOf(s: seq<LineItemRecord>, orderId: Id): (r: seq<LineItemRecord>)
    ensures |r| <= |s|
  {
    if s == [] then []
    else ItemsNotOf(s[..|s| - 1], orderId) + (if s[|s| - 1].orderId == orderId then [] else [s[|s| - 1]])
  }

  /** The kept rows are exactly the rows of other orders. */
  lemma {:induction false} ItemsNotOfKeepsOthers(s: seq<LineItemRecord>, orderId: Id)
    ensures forall x :: x in ItemsNotOf(s, orderId) <==> x in s && x.orderId != orderId
  {
    if s != [] {
      ItemsNotOfKeepsOthers(s[..|s| - 1], orderId);
      assert s == s[..|s| - 1] + [s[|s| - 1]];
    }
  }

  /** The synced row created for one server item; its product is looked up by name. */
  function RemoteRow(a: ApiLineItem, id: Id, orderId: Id, products: seq<ProductRecord>): LineItemRecord {
    LineItemRecord(id, orderId, a.name, a.price, a.quantity, a.image,
                   ProductIdByName(products, a.name, a.productId), true, OpNone, false)
  }

  /** One new row per server item, with consecutive fresh ids. */
  function RemoteRows(api: seq<ApiLineItem>, orderId: Id, products: seq<ProductRecord>, firstId: Id): (r: seq<LineItemRecord>)
    ensures |r| == |api|
    ensures forall k :: 0 <= k < |api| ==> r[k] == RemoteRow(api[k], firstId + k, orderId, products)
  {
    if api == [] then []
    else RemoteRows(api[..|api| - 1], orderId, products, firstId)
         + [RemoteRow(api[|api| - 1], firstId + |api| - 1, orderId, products)]
  }

  /** Local wins: the order and all its items are marked synced, nothing else changes. */
  function ApplyLocalWins(t: Tables, k: nat, r: ApiOrder): Tables
    requires k < |t.orders|
  {
    t.(orders := t.orders[k := LocalWinsOrder(t.orders[k], r)],
       lineItems := MapItemsOf(t.lineItems, t.orders[k].id, SyncedMark))
  }

  /** Remote wins: the order takes the server's stamps and the server's item list. */
  function ApplyRemoteWins(t: Tables, k: nat, r: ApiOrder): Tables
    requires k < |t.orders|
  {
    t.(orders := t.orders[k := RemoteWinsOrder(t.orders[k], r)],
       lineItems := ItemsNotOf(t.lineItems, t.orders[k].id)
                    + RemoteRows(r.lineItems, t.orders[k].id, t.products, t.nextId),
       nextId := t.nextId + |r.lineItems|)
  }

  /** `resolveOrderConflict`: fails, changing nothing, when the local order is missing. */
  function Resolve(t: Tables, localOrderId: Id, r: ApiOrder): Result<Tables> {
    match OrderIndex(t.orders, localOrderId)
    case None => Err(RecordNotFound)
    case Some(k) =>
      if LocalWins(t.orders[k], r) then Ok(ApplyLocalWins(t, k, r)) else Ok(ApplyRemoteWins(t, k, r))
  }

  // ---------------------------------------------------------------------
  // Properties
  // ---------------------------------------------------------------------

  /** Equal stamps resolve to the local copy. */
  lemma TieGoesLocal(t: Tables, k: nat, r: ApiOrder)
    requires k < |t.orders| && OrderIndex(t.orders, t.orders[k].id) == Some(k)
    requires LocalTimestamp(t.orders[k]) == RemoteTimestamp(r)
    ensures Resolve(t, t.orders[k].id, r) == Ok(ApplyLocalWins(t, k, r))
  {
  }

  lemma ResolveKeepsOrderIds(t: Tables, localOrderId: Id, r: ApiOrder)
    requires Resolve(t, localOrderId, r).Ok?
    ensures OrderIds(Resolve(t, localOrderId, r).value.orders) == OrderIds(t.orders)
  {
  }

  /** Resolution keeps every table well formed. */
  lemma ResolveKeepsTablesOk(t: Tables, localOrderId: Id, r: ApiOrder)
    requires TablesOk(t) && Resolve(t, localOrderId, r).Ok?
    ensures TablesOk(Resolve(t, localOrderId, r).value)
  {
    var k := OrderIndex(t.orders, localOrderId).value;
    var t1 := Resolve(t, localOrderId, r).value;
    ResolveKeepsOrderIds(t, localOrderId, r);
    assert forall i :: 0 <= i < |t.orders| ==> OrderIds(t1.orders)[i] == OrderIds(t.orders)[i];
    if !LocalWins(t.orders[k], r) {
      SwappedItemsOk(t.lineItems, localOrderId, RemoteRows(r.lineItems, localOrderId, t.products, t.nextId), t.nextId);
    }
  }

  lemma SwappedItemsOk(s: seq<LineItemRecord>, orderId: Id, made: seq<LineItemRecord>, bound: nat)
    requires LineItemsOk(s, bound) && orderId < bound
    requires forall i :: 0 <= i < |made| ==> made[i].id == bound + i && made[i].orderId == orderId
    ensures LineItemsOk(ItemsNotOf(s, orderId) + made, bound + |made|)
  {
    var kept := ItemsNotOf(s, orderId);
    ItemsNotOfKeepsOthers(s, orderId);
    forall i, j | 0 <= i < j < |kept|
      ensures kept[i].id != kept[j].id
    {
      ItemsNotOfKeepsOrder(s, orderId, i, j);
    }
    assert forall i :: 0 <= i < |kept| ==> kept[i] in kept;
  }

  /** Rows kept by `ItemsNotOf` come from distinct rows of the table, in order. */
  lemma {:induction false} ItemsNotOfKeepsOrder(s: seq<LineItemRecord>, orderId: Id, i: nat, j: nat)
    requires i < j < |ItemsNotOf(s, orderId)|
    ensures exists a, b :: 0 <= a < b < |s| && s[a] == ItemsNotOf(s, orderId)[i] && s[b] == ItemsNotOf(s, orderId)[j]
  {
    var p := s[..|s| - 1];
    var kp := ItemsNotOf(p, orderId);
    if j < |kp| {
      assert ItemsNotOf(s, orderId)[i] == kp[i] && ItemsNotOf(s, orderId)[j] == kp[j];
      ItemsNotOfKeepsOrder(p, orderId, i, j);
      var a, b :| 0 <= a < b < |p| && p[a] == kp[i] && p[b] == kp[j];
      assert s[a] == p[a] && s[b] == p[b];
    } else {
      assert ItemsNotOf(s, orderId)[j] == s[|s| - 1];
      assert ItemsNotOf(s, orderId)[i] == kp[i];
      assert kp[i] in kp;
      ItemsNotOfKeepsOthers(p, orderId);
      var a :| 0 <= a < |p| && p[a] == kp[i];
      assert s[a] == p[a];
    }
  }

  /** After either outcome every row of the order is synced with no pending operation. */
  predicate AllItemsSynced(s: seq<LineItemRecord>, orderId: Id) {
    forall i :: 0 <= i < |s| && s[i].orderId == orderId ==> s[i].synced && s[i].operation == OpNone
  }

  lemma MarkingSyncedItemsChangesNothing(s: seq<LineItemRecord>, orderId: Id)
    requires AllItemsSynced(s, orderId)
    ensures MapItemsOf(s, orderId, SyncedMark) == s
  {
  }

  /**
   * Resolving again against the same server copy changes nothing more:
   * the first resolution leaves the local stamp at least the server's, so
   * the second one is a local win over an order that is already synced.
   */
  lemma ResolveIdempotent(t: Tables, localOrderId: Id, r: ApiOrder)
    requires Resolve(t, localOrderId, r).Ok?
    ensures Resolve(Resolve(t, localOrderId, r).value, localOrderId, r) == Resolve(t, localOrderId, r)
  {
    var k := OrderIndex(t.orders, localOrderId).value;
    var t1 := Resolve(t, localOrderId, r).value;
    ResolveKeepsOrderIds(t, localOrderId, r);
    SameIdsSameIndex(t1.orders, t.orders, localOrderId);
    assert OrderIndex(t1.orders, localOrderId) == Some(k);
    assert LocalWins(t1.orders[k], r);
    if LocalWins(t.orders[k], r) {
      assert AllItemsSynced(t1.lineItems, localOrderId);
    } else {
      var kept := ItemsNotOf(t.lineItems, localOrderId);
      var made := RemoteRows(r.lineItems, localOrderId, t.products, t.nextId);
      ItemsNotOfKeepsOthers(t.lineItems, localOrderId);
      assert forall i :: 0 <= i < |kept| ==> kept[i] in kept;
      assert AllItemsSynced(t1.lineItems, localOrderId);
    }
    MarkingSyncedItemsChangesNothing(t1.lineItems, localOrderId);
    assert LocalWinsOrder(t1.orders[k], r) == t1.orders[k];
    assert t1.orders[k := t1.orders[k]] == t1.orders;
  }

  /** Either way the order reads as synced and carries the server's id. */
  lemma ResolvedOrderReadsSynced(t: Tables, localOrderId: Id, r: ApiOrder, now: nat)
    requires Resolve(t, localOrderId, r).Ok?
    ensures
      var t1 := Resolve(t, localOrderId, r).value;
      && GetOrderById(t1.orders, t1.lineItems, localOrderId, now).Ok?
      && GetOrderById(t1.orders, t1.lineItems, localOrderId, now).value.syncStatus == OrderSynced
      && GetOrderById(t1.orders, t1.lineItems, localOrderId, now).value.apiId == Some(r.id)
  {
    var t1 := Resolve(t, localOrderId, r).value;
    ResolveKeepsOrderIds(t, localOrderId, r);
    SameIdsSameIndex(t1.orders, t.orders, localOrderId);
  }

  /** The item of the read view that a server item turns into. */
  predicate ShowsRemoteItem(v: StoredLineItem, a: ApiLineItem, products: seq<ProductRecord>) {
    && v.name == a.name && v.price == a.price && v.quantity == a.quantity && v.image == a.image
    && v.totalPrice == a.price * a.quantity
    && v.productId == ProductIdByName(products, a.name, a.productId)
    && v.syncStatus == ItemSynced
  }

  /** After the swap the order's visible rows are exactly the new rows. */
  lemma {:induction false} SwappedItemsVisible(s: seq<LineItemRecord>, made: seq<LineItemRecord>, orderId: Id)
    requires forall i :: 0 <= i < |made| ==> made[i].orderId == orderId && !made[i].isDeleted
    ensures VisibleItems(ItemsNotOf(s, orderId) + made, orderId) == made
  {
    var kept := ItemsNotOf(s, orderId);
    ItemsNotOfKeepsOthers(s, orderId);
    VisibleItemsAppend(kept, made, orderId);
    assert forall i :: 0 <= i < |kept| ==> kept[i] in kept;
    VisibleItemsNone(kept, orderId);
    VisibleItemsAllLive(made, orderId);
  }

  /** When the server wins, the order shows exactly the server's items, in the server's order. */
  lemma RemoteWinsShowsRemoteItems(t: Tables, localOrderId: Id, r: ApiOrder, now: nat)
    requires HasOrder(t.orders, localOrderId)
    requires !LocalWins(t.orders[OrderIndex(t.orders, localOrderId).value], r)
    ensures
      var k := OrderIndex(t.orders, localOrderId).value;
      var t1 := ApplyRemoteWins(t, k, r);
      var v := OrderView(t1.orders[k], t1.lineItems, now);
      && Resolve(t, localOrderId, r) == Ok(t1)
      && GetOrderById(t1.orders, t1.lineItems, localOrderId, now) == Ok(v)
      && |v.lineItems| == |r.lineItems|
      && forall i :: 0 <= i < |r.lineItems| ==> ShowsRemoteItem(v.lineItems[i], r.lineItems[i], t.products)
  {
    var k := OrderIndex(t.orders, localOrderId).value;
    var t1 := ApplyRemoteWins(t, k, r);
    var made := RemoteRows(r.lineItems, localOrderId, t.products, t.nextId);
    ResolveKeepsOrderIds(t, localOrderId, r);
    SameIdsSameIndex(t1.orders, t.orders, localOrderId);
    SwappedItemsVisible(t.lineItems, made, localOrderId);
  }

  /** Resolution touches only the order it resolves, its items, and the id counter. */
  lemma ResolveKeepsOtherOrders(t: Tables, localOrderId: Id, r: ApiOrder)
    requires Resolve(t, localOrderId, r).Ok?
    ensures
      var t1 := Resolve(t, localOrderId, r).value;
      && t1.products == t.products && t1.syncQueue == t.syncQueue
      && |t1.orders| == |t.orders|
      && (forall i :: 0 <= i < |t.orders| && t.orders[i].id != localOrderId ==> t1.orders[i] == t.orders[i])
      && (forall x :: x in t.lineItems && x.orderId != localOrderId ==> x in t1.lineItems)
      && (forall x :: x in t1.lineItems && x.orderId != localOrderId ==> x in t.lineItems)
  {
    var k := OrderIndex(t.orders, localOrderId).value;
    var t1 := Resolve(t, localOrderId, r).value;
    if LocalWins(t.orders[k], r) {
      forall x | x in t.lineItems && x.orderId != localOrderId
        ensures x in t1.lineItems
      {
        var i :| 0 <= i < |t.lineItems| && t.lineItems[i] == x;
        assert t1.lineItems[i] == x;
      }
      forall x | x in t1.lineItems && x.orderId != localOrderId
        ensures x in t.lineItems
      {
        var i :| 0 <= i < |t1.lineItems| && t1.lineItems[i] == x;
        assert t.lineItems[i] == x;
      }
    } else {
      var made := RemoteRows(r.lineItems, localOrderId, t.products, t.nextId);
      ItemsNotOfKeepsOthers(t.lineItems, localOrderId);
      assert forall x :: x in made ==> x.orderId == localOrderId;
    }
  }
}
