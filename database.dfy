/**
 * The local record store the order storage, the product storage and the
 * sync manager all write to. Each table is a sequence in insertion order
 * (the order queries return rows in); `nextId` is the fresh-id counter
 * that stands for the store's generated record ids.
 */
module Database {
  import opened Wrappers
  import opened Schema

  ghost predicate OrdersOk(s: seq<OrderRecord>, bound: nat) {
    && (forall i :: 0 <= i < |s| ==> s[i].id < bound)
    && (forall i, j :: 0 <= i < j < |s| ==> s[i].id != s[j].id)
  }

  /** Line items also point only at ids already handed out. */
  ghost predicate LineItemsOk(s: seq<LineItemRecord>, bound: nat) {
    && (forall i :: 0 <= i < |s| ==> s[i].id < bound && s[i].orderId < bound)
    && (forall i, j :: 0 <= i < j < |s| ==> s[i].id != s[j].id)
  }

  ghost predicate ProductsOk(s: seq<ProductRecord>, bound: nat) {
    && (forall i :: 0 <= i < |s| ==> s[i].id < bound)
    && (forall i, j :: 0 <= i < j < |s| ==> s[i].id != s[j].id)
  }

  ghost predicate QueueOk(s: seq<QueueEntry>, bound: nat) {
    && (forall i :: 0 <= i < |s| ==> s[i].id < bound)
    && (forall i, j :: 0 <= i < j < |s| ==> s[i].id != s[j].id)
  }

  /** `find(id)` on the orders table: the row holding `id`, if any. */
  function OrderIndex(s: seq<OrderRecord>, id: Id): (r: Option<nat>)
    ensures r.Some? ==> r.value < |s| && s[r.value].id == id
    ensures r.Some? ==> forall j :: 0 <= j < r.value ==> s[j].id != id
    ensures r.None? <==> forall j :: 0 <= j < |s| ==> s[j].id != id
  {
    if s == [] then None
    else if s[0].id == id then Some(0)
    else match OrderIndex(s[1..], id)
      case None => None
      case Some(k) => Some(k + 1)
  }

  predicate HasOrder(s: seq<OrderRecord>, id: Id) {
    OrderIndex(s, id).Some?
  }

  /** The ids of the orders table, in row order. */
  function OrderIds(s: seq<OrderRecord>): (ids: seq<Id>)
    ensures |ids| == |s|
    ensures forall i :: 0 <= i < |s| ==> ids[i] == s[i].id
  {
    seq(|s|, i requires 0 <= i < |s| => s[i].id)
  }

  /** Orders with the same ids in the same rows answer `find` alike. */
  lemma {:induction false} SameIdsSameIndex(s: seq<OrderRecord>, t: seq<OrderRecord>, id: Id)
    requires OrderIds(s) == OrderIds(t)
    ensures OrderIndex(s, id) == OrderIndex(t, id)
  {
    if s != [] {
      assert s[0].id == OrderIds(s)[0] == OrderIds(t)[0] == t[0].id;
      assert OrderIds(s[1..]) == OrderIds(s)[1..];
      assert OrderIds(t[1..]) == OrderIds(t)[1..];
      SameIdsSameIndex(s[1..], t[1..], id);
    }
  }

  /** The query `order_id == orderId` on the line-item table, in row order. */
  function ItemsOf(s: seq<LineItemRecord>, orderId: Id): (r: seq<LineItemRecord>)
    ensures forall x :: x in r <==> x in s && x.orderId == orderId
    ensures |r| <= |s|
  {
    if s == [] then []
    else (if s[0].orderId == orderId then [s[0]] else []) + ItemsOf(s[1..], orderId)
  }

  /** The field updates applied to every line item of one order. */
  datatype ItemChange =
    | ReplaceMark  // superseded by a new item list: isDeleted, operation 'delete'
    | DeleteMark   // the order is deleted: isDeleted, operation 'delete', not synced
    | SyncedMark   // the order was synced: synced, operation ''

  function ApplyChange(r: LineItemRecord, c: ItemChange): LineItemRecord {
    match c
    case ReplaceMark => r.(isDeleted := true, operation := OpDelete)
    case DeleteMark => r.(isDeleted := true, operation := OpDelete, synced := false)
    case SyncedMark => r.(synced := true, operation := OpNone)
  }

  /** Every item of `orderId` changed by `c`; every other row as it was. */
  function MapItemsOf(s: seq<LineItemRecord>, orderId: Id, c: ItemChange): (r: seq<LineItemRecord>)
    ensures |r| == |s|
    ensures forall k :: 0 <= k < |s| ==> r[k] == if s[k].orderId == orderId then ApplyChange(s[k], c) else s[k]
  {
    seq(|s|, k requires 0 <= k < |s| => if s[k].orderId == orderId then ApplyChange(s[k], c) else s[k])
  }

  /** Every table at one moment, for stating what a whole operation leaves behind. */
  datatype Tables = Tables(
    orders: seq<OrderRecord>,
    lineItems: seq<LineItemRecord>,
    products: seq<ProductRecord>,
    syncQueue: seq<QueueEntry>,
    nextId: nat)

  ghost predicate TablesOk(t: Tables) {
    && OrdersOk(t.orders, t.nextId)
    && LineItemsOk(t.lineItems, t.nextId)
    && ProductsOk(t.products, t.nextId)
    && QueueOk(t.syncQueue, t.nextId)
  }

  class Database {
    var orders: seq<OrderRecord>
    var lineItems: seq<LineItemRecord>
    var products: seq<ProductRecord>
    var syncQueue: seq<QueueEntry>
    var nextId: nat

    /** Every id handed out is below `nextId`, and ids are unique per table. */
    ghost predicate Valid()
      reads this
    {
      && OrdersOk(orders, nextId)
      && LineItemsOk(lineItems, nextId)
      && ProductsOk(products, nextId)
      && QueueOk(syncQueue, nextId)
    }

    function Contents(): (t: Tables)
      reads this
      ensures Valid() <==> TablesOk(t)
    {
      Tables(orders, lineItems, products, syncQueue, nextId)
    }

    constructor ()
      ensures Valid()
      ensures orders == [] && lineItems == [] && products == [] && syncQueue == []
    {
      orders, lineItems, products, syncQueue := [], [], [], [];
      nextId := 0;
    }
  }

  /** A row with the fresh id `bound` is found at the end of the table. */
  lemma AppendOrderRow(s: seq<OrderRecord>, o: OrderRecord, bound: nat)
    requires OrdersOk(s, bound) && o.id == bound
    ensures OrdersOk(s + [o], bound + 1)
    ensures OrderIndex(s + [o], bound) == Some(|s|)
  {
    assert (s + [o])[|s|].id == bound;
    assert forall j :: 0 <= j < |s| ==> (s + [o])[j] == s[j];
  }

  /** `create` on the orders table with the next fresh id. */
  method InsertOrder(db: Database, o: OrderRecord)
    requires db.Valid() && o.id == db.nextId
    modifies db`orders, db`nextId
    ensures db.Valid()
    ensures db.orders == old(db.orders) + [o] && db.nextId == old(db.nextId) + 1
    ensures OrderIndex(db.orders, o.id) == Some(|old(db.orders)|)
  {
    AppendOrderRow(db.orders, o, db.nextId);
    db.orders := db.orders + [o];
    db.nextId := db.nextId + 1;
  }

  /** `create` on the line-item table with the next fresh id. */
  method InsertLineItem(db: Database, r: LineItemRecord)
    requires db.Valid() && r.id == db.nextId && r.orderId < db.nextId
    modifies db`lineItems, db`nextId
    ensures db.Valid()
    ensures db.lineItems == old(db.lineItems) + [r] && db.nextId == old(db.nextId) + 1
  {
    db.lineItems := db.lineItems + [r];
    db.nextId := db.nextId + 1;
  }

  /** `update` of one line-item row; the row keeps its id and its order. */
  method SetLineItem(db: Database, k: nat, r: LineItemRecord)
    requires db.Valid() && k < |db.lineItems|
    requires r.id == db.lineItems[k].id && r.orderId == db.lineItems[k].orderId
    modifies db`lineItems
    ensures db.Valid()
    ensures db.lineItems == old(db.lineItems)[k := r]
  {
    db.lineItems := db.lineItems[k := r];
  }

  /** Runs one record update per line item of `orderId`, as the store's loops do. */
  method UpdateItemsOf(db: Database, orderId: Id, c: ItemChange)
    requires db.Valid()
    modifies db`lineItems
    ensures db.Valid()
    ensures db.lineItems == MapItemsOf(old(db.lineItems), orderId, c)
  {
    ghost var before := db.lineItems;
    var i := 0;
    while i < |db.lineItems|
      invariant 0 <= i <= |db.lineItems| == |before|
      invariant forall k :: 0 <= k < i ==>
        db.lineItems[k] == if before[k].orderId == orderId then ApplyChange(before[k], c) else before[k]
      invariant forall k :: i <= k < |before| ==> db.lineItems[k] == before[k]
    {
      if db.lineItems[i].orderId == orderId {
        db.lineItems := db.lineItems[i := ApplyChange(db.lineItems[i], c)];
      }
      i := i + 1;
    }
    assert db.lineItems == MapItemsOf(before, orderId, c);
  }
}
