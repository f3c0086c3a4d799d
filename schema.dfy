/**
 * Record shapes of the local database tables (products, orders,
 * order_line_items, sync_queue) and of the remote order API.
 * Identifiers are natural numbers handed out by a fresh-id counter; prices
 * are integers in minor units; times are milliseconds as natural numbers.
 */
module Schema {
  import opened Wrappers

  type Id = nat

  /** The `operation` column: '' | 'create' | 'update' | 'delete'. */
  datatype Operation = OpNone | OpCreate | OpUpdate | OpDelete

  /** The product `sync_status` column. */
  datatype ProductSyncStatus = ProductSynced | ProductPending | ProductFailed

  /** A row of the orders table. `lastModified` is the conflict-resolution stamp. */
  datatype OrderRecord = OrderRecord(
    id: Id,
    timestamp: nat,
    synced: bool,
    operation: Operation,
    isDeleted: bool,
    lastModified: nat,
    apiId: Option<Id>,
    createdAt: nat,
    updatedAt: nat)

  /** A row of the order_line_items table; `orderId` refers to its order. */
  datatype LineItemRecord = LineItemRecord(
    id: Id,
    orderId: Id,
    name: string,
    price: int,
    quantity: int,
    image: string,
    productId: Id,
    synced: bool,
    operation: Operation,
    isDeleted: bool)

  /** A row of the products table. */
  datatype ProductRecord = ProductRecord(
    id: Id,
    name: string,
    price: int,
    image: string,
    syncedAt: Option<nat>,
    syncStatus: Option<ProductSyncStatus>)

  /** A product as the catalog screen lists it and the cart hooks receive it. */
  datatype Product = Product(id: Id, name: string, price: int, image: string)

  /** A line item as the remote order API sends and receives it. */
  datatype ApiLineItem = ApiLineItem(
    id: Id,
    name: string,
    price: int,
    image: string,
    quantity: int,
    totalPrice: int,
    productId: Id)

  /**
   * An order as the remote API returns it. `updatedAt` and `lastModified`
   * are optional extra fields that the resolver reads when present.
   */
  datatype ApiOrder = ApiOrder(
    id: Id,
    timestamp: nat,
    lineItems: seq<ApiLineItem>,
    updatedAt: Option<nat>,
    lastModified: Option<nat>)

  /** The only entity type the queue knows. */
  datatype EntityType = OrderEntity

  datatype SyncAction = Create | Update | Delete

  /** The snapshot queued with an order intent, replayed against the API. */
  datatype OrderPayload = OrderPayload(
    timestamp: nat,
    lineItems: seq<ApiLineItem>,
    apiId: Option<Id>)

  /** A row of the sync_queue table: one pending intent. */
  datatype QueueEntry = QueueEntry(
    id: Id,
    entityType: EntityType,
    entityId: Id,
    action: SyncAction,
    data: OrderPayload,
    timestamp: nat,
    priority: int,
    retryCount: nat,
    lastError: Option<string>)
}
