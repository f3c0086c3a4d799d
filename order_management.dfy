/**
 * The order screen's editing hook: setting an item's quantity, removing
 * it, stepping its quantity up or down, and clearing the order. Each edit
 * becomes one `updateOrder` or `deleteOrder` request to the store.
 */
module OrderManagement {
  import opened Wrappers
  import opened Schema
  import opened OrderStorage
  import opened OrderSlice

  /** The requests the hook dispatches. */
  datatype OrderRequest =
    | UpdateOrderRequest(orderId: Id, lineItems: seq<StoredLineItem>)
    | DeleteOrderRequest(orderId: Id)

  // ---------------------------------------------------------------------
  // The item lists
  // ---------------------------------------------------------------------

  predicate HasItem(items: seq<StoredLineItem>, itemId: Id) {
    exists k :: 0 <= k < |items| && items[k].id == itemId
  }

  /** Items carrying `itemId`. */
  function Occurrences(items: seq<StoredLineItem>, itemId: Id): nat {
    if items == [] then 0
    else (if items[0].id == itemId then 1 else 0) + Occurrences(items[1..], itemId)
  }

  /**
   * The list without the items carrying `itemId`: none of them is left, the
   * others stay in order, and exactly the removed ones are missing.
   */
  function WithoutItem(items: seq<StoredLineItem>, itemId: Id): (r: seq<StoredLineItem>)
    ensures forall k :: 0 <= k < |r| ==> r[k].id != itemId
    ensures |r| + Occurrences(items, itemId) == |items|
  {
    if items == [] then []
    else if items[0].id == itemId then WithoutItem(items[1..], itemId)
    else [items[0]] + WithoutItem(items[1..], itemId)
  }

  /** The filtered list holds exactly the items that do not carry the id. */
  lemma {:induction false} WithoutItemKeepsOthers(items: seq<StoredLineItem>, itemId: Id)
    ensures forall x :: x in WithoutItem(items, itemId) <==> x in items && x.id != itemId
  {
    if items != [] {
      WithoutItemKeepsOthers(items[1..], itemId);
      assert items == [items[0]] + items[1..];
    }
  }

  /** Items kept by `WithoutItem` come from distinct positions of the list, in order. */
  lemma {:induction false} WithoutItemKeepsOrder(items: seq<StoredLineItem>, itemId: Id, i: nat, j: nat)
    requires i < j < |WithoutItem(items, itemId)|
    ensures exists a, b ::
      0 <= a < b < |items| && items[a] == WithoutItem(items, itemId)[i] && items[b] == WithoutItem(items, itemId)[j]
  {
    var rest := items[1..];
    var kr := WithoutItem(rest, itemId);
    if items[0].id == itemId {
      WithoutItemKeepsOrder(rest, itemId, i, j);
      var a, b :| 0 <= a < b < |rest| && rest[a] == kr[i] && rest[b] == kr[j];
      assert items[a + 1] == rest[a] && items[b + 1] == rest[b];
    } else if i == 0 {
      assert WithoutItem(items, itemId)[j] == kr[j - 1] && kr[j - 1] in kr;
      WithoutItemKeepsOthers(rest, itemId);
      var b :| 0 <= b < |rest| && rest[b] == kr[j - 1];
      assert items[b + 1] == rest[b];
    } else {
      WithoutItemKeepsOrder(rest, itemId, i - 1, j - 1);
      var a, b :| 0 <= a < b < |rest| && rest[a] == kr[i - 1] && rest[b] == kr[j - 1];
      assert items[a + 1] == rest[a] && items[b + 1] == rest[b];
    }
  }

  /** An item at quantity `q`, its total recomputed. */
  function AtQuantity(x: StoredLineItem, q: int): StoredLineItem {
    x.(quantity := q, totalPrice := x.price * q)
  }

  /** The list with every item carrying `itemId` set to quantity `q`. */
  function WithQuantity(items: seq<StoredLineItem>, itemId: Id, q: int): (r: seq<StoredLineItem>)
    ensures |r| == |items|
  {
    if items == [] then []
    else [if items[0].id == itemId then AtQuantity(items[0], q) else items[0]] + WithQuantity(items[1..], itemId, q)
  }

  /** Setting a quantity changes the items carrying the id, and only them. */
  lemma {:induction false} WithQuantityChangesOnlyMatches(items: seq<StoredLineItem>, itemId: Id, q: int)
    ensures forall k :: 0 <= k < |items| ==>
      WithQuantity(items, itemId, q)[k] == if items[k].id == itemId then AtQuantity(items[k], q) else items[k]
  {
    if items != [] {
      WithQuantityChangesOnlyMatches(items[1..], itemId, q);
      assert forall k :: 1 <= k < |items| ==> WithQuantity(items, itemId, q)[k] == WithQuantity(items[1..], itemId, q)[k - 1];
    }
  }

  /** `find`: the first item carrying `itemId`. */
  function FindItem(items: seq<StoredLineItem>, itemId: Id): (r: Option<StoredLineItem>)
    ensures r.None? <==> !HasItem(items, itemId)
    ensures r.Some? ==> r.value.id == itemId && r.value in items
  {
    if items == [] then None
    else if items[0].id == itemId then Some(items[0])
    else
      assert HasItem(items, itemId) ==> HasItem(items[1..], itemId) by {
        if HasItem(items, itemId) {
          var k :| 0 <= k < |items| && items[k].id == itemId;
          assert items[1..][k - 1].id == itemId;
        }
      }
      FindItem(items[1..], itemId)
  }

  /** `find` returns the first item carrying the id: every earlier item carries another. */
  lemma {:induction false} FindItemIsFirst(items: seq<StoredLineItem>, itemId: Id)
    requires FindItem(items, itemId).Some?
    ensures exists k ::
      0 <= k < |items| && items[k] == FindItem(items, itemId).value && forall j :: 0 <= j < k ==> items[j].id != itemId
  {
    if items[0].id != itemId {
      FindItemIsFirst(items[1..], itemId);
      var k :| 0 <= k < |items[1..]| && items[1..][k] == FindItem(items[1..], itemId).value
        && forall j :: 0 <= j < k ==> items[1..][j].id != itemId;
      assert items[k + 1] == items[1..][k];
      assert forall j :: 1 <= j < k + 1 ==> items[j] == items[1..][j - 1];
    }
  }

  // ---------------------------------------------------------------------
  // The requests each operation dispatches
  // ---------------------------------------------------------------------

  /**
   * `updateItemQuantity` on a shown order: a quantity of zero or less
   * removes the item, and deletes the order when nothing is left; a
   * positive quantity sets it.
   */
  function QuantityRequest(order: StoredOrder, itemId: Id, q: int): OrderRequest {
    if q <= 0 then
      var kept := WithoutItem(order.lineItems, itemId);
      if kept == [] then DeleteOrderRequest(order.id) else UpdateOrderRequest(order.id, kept)
    else UpdateOrderRequest(order.id, WithQuantity(order.lineItems, itemId, q))
  }

  /** `incrementQuantity`: one more unit of a known item; nothing for an unknown id. */
  function IncrementRequest(order: StoredOrder, itemId: Id): Option<OrderRequest> {
    match FindItem(order.lineItems, itemId)
    case Some(x) => Some(QuantityRequest(order, itemId, x.quantity + 1))
    case None => None
  }

  /**
   * `decrementQuantity`: one unit fewer while more than one is left, the
   * item removed at exactly one, nothing otherwise or for an unknown id.
   */
  function DecrementRequest(order: StoredOrder, itemId: Id): Option<OrderRequest> {
    match FindItem(order.lineItems, itemId)
    case Some(x) =>
      if x.quantity > 1 then Some(QuantityRequest(order, itemId, x.quantity - 1))
      else if x.quantity == 1 then Some(QuantityRequest(order, itemId, 0))
      else None
    case None => None
  }

  // ---------------------------------------------------------------------
  // Properties
  // ---------------------------------------------------------------------

  lemma {:induction false} NoOccurrences(items: seq<StoredLineItem>, itemId: Id)
    ensures Occurrences(items, itemId) == 0 <==> !HasItem(items, itemId)
  {
    if items != [] {
      NoOccurrences(items[1..], itemId);
      if HasItem(items[1..], itemId) {
        var k :| 0 <= k < |items[1..]| && items[1..][k].id == itemId;
        assert items[k + 1].id == itemId;
      }
      if HasItem(items, itemId) && items[0].id != itemId {
        var k :| 0 <= k < |items| && items[k].id == itemId;
        assert items[1..][k - 1].id == itemId;
      }
    }
  }

  /**
   * Removing an item: the request is a delete exactly when every item of
   * the order carries that id; otherwise the update lists the others, and
   * only them, one item per removed occurrence shorter.
   */
  lemma RemoveRequest(order: StoredOrder, itemId: Id)
    ensures QuantityRequest(order, itemId, 0).DeleteOrderRequest?
        <==> forall k :: 0 <= k < |order.lineItems| ==> order.lineItems[k].id == itemId
    ensures QuantityRequest(order, itemId, 0).orderId == order.id
    ensures QuantityRequest(order, itemId, 0).UpdateOrderRequest? ==>
      && !HasItem(QuantityRequest(order, itemId, 0).lineItems, itemId)
      && |QuantityRequest(order, itemId, 0).lineItems| == |order.lineItems| - Occurrences(order.lineItems, itemId)
  {
    var kept := WithoutItem(order.lineItems, itemId);
    WithoutItemKeepsOthers(order.lineItems, itemId);
    if kept == [] {
      assert forall k :: 0 <= k < |order.lineItems| ==> order.lineItems[k] !in kept;
    } else {
      assert kept[0] in order.lineItems && kept[0].id != itemId;
    }
  }

  /** A zero or negative quantity asks for the same thing as removing the item. */
  lemma NonPositiveQuantityRemoves(order: StoredOrder, itemId: Id, q: int)
    requires q <= 0
    ensures QuantityRequest(order, itemId, q) == QuantityRequest(order, itemId, 0)
  {
  }

  /** Every total is price times quantity, as the store's views are. */
  predicate TotalsMatch(items: seq<StoredLineItem>) {
    forall k :: 0 <= k < |items| ==> items[k].totalPrice == items[k].price * items[k].quantity
  }

  /** Every item carrying `itemId` is `x`. */
  predicate OnlyAs(items: seq<StoredLineItem>, itemId: Id, x: StoredLineItem) {
    forall k :: 0 <= k < |items| && items[k].id == itemId ==> items[k] == x
  }

  /**
   * Setting a quantity back undoes setting it: on a list whose totals are
   * price times quantity and whose items with that id all have quantity
   * `q`, setting `q2` and then `q` gives the original list.
   */
  lemma {:induction false} SetQuantityRoundTrip(items: seq<StoredLineItem>, itemId: Id, q: int, q2: int)
    requires TotalsMatch(items)
    requires forall k :: 0 <= k < |items| && items[k].id == itemId ==> items[k].quantity == q
    ensures WithQuantity(WithQuantity(items, itemId, q2), itemId, q) == items
  {
    if items != [] {
      SetQuantityRoundTrip(items[1..], itemId, q, q2);
      assert WithQuantity(items, itemId, q2)[1..] == WithQuantity(items[1..], itemId, q2);
      assert WithQuantity(WithQuantity(items, itemId, q2), itemId, q)[1..]
          == WithQuantity(WithQuantity(items[1..], itemId, q2), itemId, q);
    }
  }

  /** When every item carrying the id is `x`, `find` returns `x`. */
  lemma FindsTheItem(items: seq<StoredLineItem>, itemId: Id, x: StoredLineItem)
    requires HasItem(items, itemId) && OnlyAs(items, itemId, x)
    ensures FindItem(items, itemId) == Some(x)
  {
    var y := FindItem(items, itemId).value;
    var k :| 0 <= k < |items| && items[k] == y;
  }

  /** Raising the one item's quantity keeps it the only item with that id. */
  lemma RaisedIsOnly(items: seq<StoredLineItem>, itemId: Id, x: StoredLineItem, q: int)
    requires HasItem(items, itemId) && OnlyAs(items, itemId, x)
    ensures HasItem(WithQuantity(items, itemId, q), itemId)
    ensures OnlyAs(WithQuantity(items, itemId, q), itemId, AtQuantity(x, q))
  {
    WithQuantityChangesOnlyMatches(items, itemId, q);
    var k :| 0 <= k < |items| && items[k].id == itemId;
    assert WithQuantity(items, itemId, q)[k].id == itemId;
  }

  /** Stepping up the one item with that id asks for it at one unit more. */
  lemma IncrementRaisesOne(order: StoredOrder, itemId: Id, x: StoredLineItem)
    requires HasItem(order.lineItems, itemId) && OnlyAs(order.lineItems, itemId, x) && x.quantity >= 0
    ensures IncrementRequest(order, itemId) == Some(UpdateOrderRequest(order.id, WithQuantity(order.lineItems, itemId, x.quantity + 1)))
  {
    FindsTheItem(order.lineItems, itemId, x);
    assert IncrementRequest(order, itemId) == Some(QuantityRequest(order, itemId, x.quantity + 1));
    assert QuantityRequest(order, itemId, x.quantity + 1) == UpdateOrderRequest(order.id, WithQuantity(order.lineItems, itemId, x.quantity + 1));
  }

  /**
   * Stepping down undoes stepping up: on an order as the store shows it,
   * where the id names one item, `decrementQuantity` after
   * `incrementQuantity` asks for the list the order already had.
   */
  lemma DecrementUndoesIncrement(order: StoredOrder, itemId: Id, x: StoredLineItem)
    requires TotalsMatch(order.lineItems)
    requires HasItem(order.lineItems, itemId) && OnlyAs(order.lineItems, itemId, x) && x.quantity >= 1
    ensures DecrementRequest(order.(lineItems := WithQuantity(order.lineItems, itemId, x.quantity + 1)), itemId)
         == Some(UpdateOrderRequest(order.id, order.lineItems))
  {
    var up := WithQuantity(order.lineItems, itemId, x.quantity + 1);
    var y := AtQuantity(x, x.quantity + 1);
    RaisedIsOnly(order.lineItems, itemId, x, x.quantity + 1);
    FindsTheItem(up, itemId, y);
    var down := order.(lineItems := up);
    assert DecrementRequest(down, itemId) == Some(QuantityRequest(down, itemId, x.quantity));
    assert forall k :: 0 <= k < |order.lineItems| && order.lineItems[k].id == itemId ==> order.lineItems[k].quantity == x.quantity;
    SetQuantityRoundTrip(order.lineItems, itemId, x.quantity, x.quantity + 1);
    assert WithQuantity(up, itemId, x.quantity) == order.lineItems;
    assert QuantityRequest(down, itemId, x.quantity) == UpdateOrderRequest(order.id, order.lineItems);
  }

  /** At exactly one unit, stepping down asks for the same thing as removing the item. */
  lemma DecrementAtOneRemoves(order: StoredOrder, itemId: Id)
    requires FindItem(order.lineItems, itemId).Some? && FindItem(order.lineItems, itemId).value.quantity == 1
    ensures DecrementRequest(order, itemId) == Some(QuantityRequest(order, itemId, 0))
  {
  }

  /** Unknown ids ask for nothing. */
  lemma UnknownItemAsksNothing(order: StoredOrder, itemId: Id)
    requires !HasItem(order.lineItems, itemId)
    ensures IncrementRequest(order, itemId).None? && DecrementRequest(order, itemId).None?
    ensures QuantityRequest(order, itemId, 3) == UpdateOrderRequest(order.id, order.lineItems)
  {
    var r := WithQuantity(order.lineItems, itemId, 3);
    WithQuantityChangesOnlyMatches(order.lineItems, itemId, 3);
    assert forall k :: 0 <= k < |order.lineItems| ==> order.lineItems[k].id != itemId;
    assert r == order.lineItems;
  }

  // ---------------------------------------------------------------------
  // The hook
  // ---------------------------------------------------------------------

  class OrderManagementHook {
    /** The `order` slice the hook reads. */
    var store: OrderState
    var isUpdating: bool
    /** The requests dispatched so far. */
    var requests: seq<OrderRequest>

    constructor (store: OrderState)
      ensures this.store == store && !isUpdating && requests == []
    {
      this.store := store;
      isUpdating := false;
      requests := [];
    }

    /** The `loading` the hook reports: the slice's flag or an edit in progress. */
    function Loading(): (b: bool)
      reads this
      ensures b <==> store.loading || isUpdating
    {
      store.loading || isUpdating
    }

    /** `updateItemQuantity`: one request for a shown order, none without one; the flag ends cleared. */
    method UpdateItemQuantity(itemId: Id, q: int)
      modifies this`isUpdating, this`requests
      ensures store.currentOrder.None? ==> requests == old(requests) && isUpdating == old(isUpdating)
      ensures store.currentOrder.Some? ==>
        && requests == old(requests) + [QuantityRequest(store.currentOrder.value, itemId, q)]
        && !isUpdating
    {
      if store.currentOrder.None? {
        return;
      }
      isUpdating := true;
      requests := requests + [QuantityRequest(store.currentOrder.value, itemId, q)];
      isUpdating := false;
    }

    /** `removeItem`: `updateItemQuantity` at zero. */
    method RemoveItem(itemId: Id)
      modifies this`isUpdating, this`requests
      ensures store.currentOrder.None? ==> requests == old(requests) && isUpdating == old(isUpdating)
      ensures store.currentOrder.Some? ==>
        && requests == old(requests) + [QuantityRequest(store.currentOrder.value, itemId, 0)]
        && !isUpdating
    {
      UpdateItemQuantity(itemId, 0);
    }

    /** `incrementQuantity`. */
    method IncrementQuantity(itemId: Id)
      modifies this`isUpdating, this`requests
      ensures store.currentOrder.None? ==> requests == old(requests) && isUpdating == old(isUpdating)
      ensures store.currentOrder.Some? ==>
        match IncrementRequest(store.currentOrder.value, itemId)
        case Some(r) => requests == old(requests) + [r] && !isUpdating
        case None => requests == old(requests) && isUpdating == old(isUpdating)
    {
      if store.currentOrder.None? {
        return;
      }
      var item := FindItem(store.currentOrder.value.lineItems, itemId);
      if item.Some? {
        UpdateItemQuantity(itemId, item.value.quantity + 1);
      }
    }

    /** `decrementQuantity`. */
    method DecrementQuantity(itemId: Id)
      modifies this`isUpdating, this`requests
      ensures store.currentOrder.None? ==> requests == old(requests) && isUpdating == old(isUpdating)
      ensures store.currentOrder.Some? ==>
        match DecrementRequest(store.currentOrder.value, itemId)
        case Some(r) => requests == old(requests) + [r] && !isUpdating
        case None => requests == old(requests) && isUpdating == old(isUpdating)
    {
      if store.currentOrder.None? {
        return;
      }
      var item := FindItem(store.currentOrder.value.lineItems, itemId);
      if item.Some? && item.value.quantity > 1 {
        UpdateItemQuantity(itemId, item.value.quantity - 1);
      } else if item.Some? && item.value.quantity == 1 {
        RemoveItem(itemId);
      }
    }

    /** `clearOrder`: a delete of the shown order; nothing without one. */
    method ClearOrder()
      modifies this`isUpdating, this`requests
      ensures store.currentOrder.None? ==> requests == old(requests) && isUpdating == old(isUpdating)
      ensures store.currentOrder.Some? ==>
        requests == old(requests) + [DeleteOrderRequest(store.currentOrder.value.id)] && !isUpdating
    {
      if store.currentOrder.None? {
        return;
      }
      isUpdating := true;
      requests := requests + [DeleteOrderRequest(store.currentOrder.value.id)];
      isUpdating := false;
    }
  }
}
