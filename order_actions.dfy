/**
 * The online cart hook: adding a product either creates an order holding
 * one unit of it, or asks to update the shown order, raising the item whose
 * id equals the product's id or appending a new item.
 */
module OrderActions {
  import opened Wrappers
  import opened Schema
  import opened OrderStorage
  import opened OrderSlice
  import OrderManagement
  import opened OfflineOrderActions

  /**
   * An item of a request: one taken from the shown order (its other fields
   * carried along), or the six-field item the hook builds for a product.
   */
  datatype Line =
    | Shown(item: StoredLineItem)
    | Fresh(id: Id, name: string, price: int, image: string, quantity: int, totalPrice: int)

  /** The requests the hook dispatches. */
  datatype AddRequest =
    | CreateOrderRequest(timestamp: nat, lines: seq<Line>)
    | UpdateOrderRequest(orderId: Id, lines: seq<Line>)

  function LineId(l: Line): Id {
    match l
    case Shown(x) => x.id
    case Fresh(id, _, _, _, _, _) => id
  }

  function LineQuantity(l: Line): int {
    match l
    case Shown(x) => x.quantity
    case Fresh(_, _, _, _, q, _) => q
  }

  /** The item built for a product: one unit at the product's price. */
  function FreshLine(p: Product): Line {
    Fresh(p.id, p.name, p.price, p.image, 1, p.price)
  }

  /** The shown items, unchanged. */
  function ShownLines(items: seq<StoredLineItem>): (r: seq<Line>)
    ensures |r| == |items|
    ensures forall k :: 0 <= k < |items| ==> r[k] == Shown(items[k])
  {
    seq(|items|, k requires 0 <= k < |items| => Shown(items[k]))
  }

  /** `updateExistingItemQuantity`'s list: items whose id is the product's get one more unit. */
  function RaisedById(items: seq<StoredLineItem>, productId: Id): (r: seq<Line>)
    ensures |r| == |items|
  {
    if items == [] then []
    else [Shown(if items[0].id == productId then Bumped(items[0]) else items[0])] + RaisedById(items[1..], productId)
  }

  /** The request `addToOrder` builds for the order on screen, or for none. */
  function RequestFor(current: Option<StoredOrder>, p: Product, now: nat): AddRequest {
    match current
    case None => CreateOrderRequest(now, [FreshLine(p)])
    case Some(o) =>
      if OrderManagement.HasItem(o.lineItems, p.id) then UpdateOrderRequest(o.id, RaisedById(o.lineItems, p.id))
      else UpdateOrderRequest(o.id, ShownLines(o.lineItems) + [FreshLine(p)])
  }

  /** Units on lines carrying `id`. */
  function Units(lines: seq<Line>, id: Id): int {
    if lines == [] then 0
    else (if LineId(lines[0]) == id then LineQuantity(lines[0]) else 0) + Units(lines[1..], id)
  }

  // ---------------------------------------------------------------------
  // Properties
  // ---------------------------------------------------------------------

  /** Raising by id changes the items carrying the id, and only them. */
  lemma {:induction false} RaisedChangesOnlyMatches(items: seq<StoredLineItem>, productId: Id)
    ensures forall k :: 0 <= k < |items| ==>
      RaisedById(items, productId)[k] == Shown(if items[k].id == productId then Bumped(items[k]) else items[k])
  {
    if items != [] {
      RaisedChangesOnlyMatches(items[1..], productId);
      assert forall k :: 1 <= k < |items| ==> RaisedById(items, productId)[k] == RaisedById(items[1..], productId)[k - 1];
    }
  }

  lemma {:induction false} UnitsAppend(lines: seq<Line>, l: Line, id: Id)
    ensures Units(lines + [l], id) == Units(lines, id) + (if LineId(l) == id then LineQuantity(l) else 0)
  {
    if lines != [] {
      assert (lines + [l])[1..] == lines[1..] + [l];
      UnitsAppend(lines[1..], l, id);
    }
  }

  lemma {:induction false} RaisedUnits(items: seq<StoredLineItem>, productId: Id, id: Id)
    ensures Units(RaisedById(items, productId), id)
         == Units(ShownLines(items), id) + (if id == productId then OrderManagement.Occurrences(items, productId) else 0)
  {
    if items != [] {
      RaisedUnits(items[1..], productId, id);
      assert ShownLines(items)[1..] == ShownLines(items[1..]);
    }
  }

  /**
   * Adding a product to no order asks for a new order holding one unit of
   * it and nothing else, stamped with the current time.
   */
  lemma AddWithoutOrderCreates(p: Product, now: nat, id: Id)
    ensures RequestFor(None, p, now).CreateOrderRequest?
    ensures RequestFor(None, p, now).timestamp == now
    ensures Units(RequestFor(None, p, now).lines, id) == if id == p.id then 1 else 0
    ensures |RequestFor(None, p, now).lines| == 1
  {
    UnitsAppend([], FreshLine(p), id);
  }

  /**
   * Adding a product to the shown order asks to update that order: the
   * product's units go up by one when no item carries its id, else by one
   * per such item, and every other id keeps its units.
   */
  lemma AddRaisesUnits(o: StoredOrder, p: Product, now: nat, id: Id)
    ensures RequestFor(Some(o), p, now).UpdateOrderRequest?
    ensures RequestFor(Some(o), p, now).orderId == o.id
    ensures Units(RequestFor(Some(o), p, now).lines, id)
         == Units(ShownLines(o.lineItems), id)
          + (if id != p.id then 0
             else if OrderManagement.HasItem(o.lineItems, p.id) then OrderManagement.Occurrences(o.lineItems, p.id)
             else 1)
  {
    if OrderManagement.HasItem(o.lineItems, p.id) {
      RaisedUnits(o.lineItems, p.id, id);
    } else {
      UnitsAppend(ShownLines(o.lineItems), FreshLine(p), id);
    }
  }

  /**
   * On the shown order, items whose id is not the product's keep their
   * place and contents; the list grows only when no item carries the id,
   * and then by the product's own item at the end.
   */
  lemma AddKeepsOtherLines(o: StoredOrder, p: Product, now: nat)
    ensures |RequestFor(Some(o), p, now).lines| == |o.lineItems| + (if OrderManagement.HasItem(o.lineItems, p.id) then 0 else 1)
    ensures forall k :: 0 <= k < |o.lineItems| && o.lineItems[k].id != p.id ==>
      RequestFor(Some(o), p, now).lines[k] == Shown(o.lineItems[k])
    ensures !OrderManagement.HasItem(o.lineItems, p.id) ==> RequestFor(Some(o), p, now).lines[|o.lineItems|] == FreshLine(p)
  {
    if OrderManagement.HasItem(o.lineItems, p.id) {
      RaisedChangesOnlyMatches(o.lineItems, p.id);
    } else {
      var r := ShownLines(o.lineItems) + [FreshLine(p)];
      assert forall k :: 0 <= k < |o.lineItems| ==> r[k] == ShownLines(o.lineItems)[k];
    }
  }

  /**
   * Items are matched by their own id, not by the product they carry: an
   * order whose item holds the product under a different item id gets a
   * second item for the same product.
   */
  lemma MatchesItemIdNotProduct(o: StoredOrder, p: Product, now: nat)
    requires |o.lineItems| == 1 && o.lineItems[0].productId == p.id && o.lineItems[0].id != p.id
    ensures RequestFor(Some(o), p, now) == UpdateOrderRequest(o.id, [Shown(o.lineItems[0]), FreshLine(p)])
  {
    assert ShownLines(o.lineItems) == [Shown(o.lineItems[0])];
  }

  // ---------------------------------------------------------------------
  // The hook
  // ---------------------------------------------------------------------

  class OrderActionsHook {
    /** The `order` slice the hook reads. */
    var store: OrderState
    var isAddingToOrder: bool
    /** The requests dispatched so far. */
    var requests: seq<AddRequest>

    constructor (store: OrderState)
      ensures this.store == store && !isAddingToOrder && requests == []
    {
      this.store := store;
      isAddingToOrder := false;
      requests := [];
    }

    /** `addToOrder`: one request for the order on screen, or a new one; the flag ends cleared. */
    method AddToOrder(p: Product, now: nat) returns (r: AddRequest)
      modifies this`isAddingToOrder, this`requests
      ensures r == RequestFor(store.currentOrder, p, now)
      ensures requests == old(requests) + [r]
      ensures !isAddingToOrder
    {
      isAddingToOrder := true;
      if store.currentOrder.None? {
        r := CreateNewOrderWithItem(p, now);
      } else {
        var o := store.currentOrder.value;
        if OrderManagement.FindItem(o.lineItems, p.id).Some? {
          r := UpdateExistingItemQuantity(o, p);
        } else {
          r := AddNewItemToOrder(o, p);
        }
      }
      isAddingToOrder := false;
    }

    /** `createNewOrderWithItem`. */
    method CreateNewOrderWithItem(p: Product, now: nat) returns (r: AddRequest)
      modifies this`requests
      ensures r == CreateOrderRequest(now, [FreshLine(p)])
      ensures requests == old(requests) + [r]
    {
      r := CreateOrderRequest(now, [FreshLine(p)]);
      requests := requests + [r];
    }

    /** `updateExistingItemQuantity`. */
    method UpdateExistingItemQuantity(o: StoredOrder, p: Product) returns (r: AddRequest)
      modifies this`requests
      ensures r == UpdateOrderRequest(o.id, RaisedById(o.lineItems, p.id))
      ensures requests == old(requests) + [r]
    {
      r := UpdateOrderRequest(o.id, RaisedById(o.lineItems, p.id));
      requests := requests + [r];
    }

    /** `addNewItemToOrder`. */
    method AddNewItemToOrder(o: StoredOrder, p: Product) returns (r: AddRequest)
      modifies this`requests
      ensures r == UpdateOrderRequest(o.id, ShownLines(o.lineItems) + [FreshLine(p)])
      ensures requests == old(requests) + [r]
    {
      r := UpdateOrderRequest(o.id, ShownLines(o.lineItems) + [FreshLine(p)]);
      requests := requests + [r];
    }
  }
}
