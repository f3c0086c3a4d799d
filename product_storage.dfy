/**
 * The product catalog kept in the local store: create, partial update,
 * permanent delete, lookups, and clearing. The sync manager and the order
 * storage also use it to resolve a product id from a product name.
 */
module ProductStorage {
  import opened Wrappers
  import opened Schema
  import opened Database

  /** What a caller supplies to create a product (everything but the id). */
  datatype NewProduct = NewProduct(
    name: string,
    price: int,
    image: string,
    syncedAt: Option<nat>,
    syncStatus: Option<ProductSyncStatus>)

  /** A partial update: `None` stands for a field left `undefined`. */
  datatype ProductUpdates = ProductUpdates(
    name: Option<string>,
    price: Option<int>,
    image: Option<string>,
    syncedAt: Option<nat>,
    syncStatus: Option<ProductSyncStatus>)

  const NoUpdates := ProductUpdates(None, None, None, None, None)

  /** `find(id)` on the products table. */
  function ProductIndex(s: seq<ProductRecord>, id: Id): (r: Option<nat>)
    ensures r.Some? ==> r.value < |s| && s[r.value].id == id
    ensures r.None? <==> forall j :: 0 <= j < |s| ==> s[j].id != id
  {
    if s == [] then None
    else if s[0].id == id then Some(0)
    else match ProductIndex(s[1..], id)
      case None => None
      case Some(k) => Some(k + 1)
  }

  /** The first product (in row order) carrying `name`: the query `name == name`, element 0. */
  function FirstNamedIndex(s: seq<ProductRecord>, name: string): (r: Option<nat>)
    ensures r.Some? ==> r.value < |s| && s[r.value].name == name
    ensures r.Some? ==> forall j :: 0 <= j < r.value ==> s[j].name != name
    ensures r.None? <==> forall j :: 0 <= j < |s| ==> s[j].name != name
  {
    if s == [] then None
    else if s[0].name == name then Some(0)
    else match FirstNamedIndex(s[1..], name)
      case None => None
      case Some(k) => Some(k + 1)
  }

  /**
   * The product id a line item named `name` gets: the id of the first
   * catalog product with that name, else `fallback`.
   */
  function ProductIdByName(s: seq<ProductRecord>, name: string, fallback: Id): (id: Id)
    ensures (forall j :: 0 <= j < |s| ==> s[j].name != name) ==> id == fallback
    ensures (exists j :: 0 <= j < |s| && s[j].name == name) ==>
      exists j :: 0 <= j < |s| && s[j].name == name && s[j].id == id
        && forall i :: 0 <= i < j ==> s[i].name != name
  {
    match FirstNamedIndex(s, name)
    case Some(k) => s[k].id
    case None => fallback
  }

  /** Fields defined in `u` overwrite `p`'s; every other field is kept. */
  function ApplyUpdates(p: ProductRecord, u: ProductUpdates): (r: ProductRecord)
    ensures r.id == p.id
    ensures r.name == (if u.name.Some? then u.name.value else p.name)
    ensures r.price == (if u.price.Some? then u.price.value else p.price)
    ensures r.image == (if u.image.Some? then u.image.value else p.image)
    ensures r.syncedAt == (if u.syncedAt.Some? then u.syncedAt else p.syncedAt)
    ensures r.syncStatus == (if u.syncStatus.Some? then u.syncStatus else p.syncStatus)
  {
    var p1 := if u.name.Some? then p.(name := u.name.value) else p;
    var p2 := if u.price.Some? then p1.(price := u.price.value) else p1;
    var p3 := if u.image.Some? then p2.(image := u.image.value) else p2;
    var p4 := if u.syncedAt.Some? then p3.(syncedAt := u.syncedAt) else p3;
    if u.syncStatus.Some? then p4.(syncStatus := u.syncStatus) else p4
  }

  /** An update with every field undefined changes nothing. */
  lemma NoUpdatesIsIdentity(p: ProductRecord)
    ensures ApplyUpdates(p, NoUpdates) == p
  {
  }

  /** Applying the same partial update twice is applying it once. */
  lemma UpdatesIdempotent(p: ProductRecord, u: ProductUpdates)
    ensures ApplyUpdates(ApplyUpdates(p, u), u) == ApplyUpdates(p, u)
  {
  }

  /** `getProduct`: the record, or `None` (the source's `null`) when the id is not found. */
  function GetProduct(s: seq<ProductRecord>, id: Id): (r: Option<ProductRecord>)
    ensures r.Some? ==> r.value in s && r.value.id == id
    ensures r.None? <==> forall j :: 0 <= j < |s| ==> s[j].id != id
  {
    match ProductIndex(s, id)
    case Some(k) => Some(s[k])
    case None => None
  }

  /** `getProductsBySyncStatus`: the products whose status is `status`, in row order. */
  function GetProductsBySyncStatus(s: seq<ProductRecord>, status: ProductSyncStatus): (r: seq<ProductRecord>)
    ensures forall p :: p in r <==> p in s && p.syncStatus == Some(status)
    ensures |r| <= |s|
  {
    if s == [] then []
    else
      var rest := GetProductsBySyncStatus(s[1..], status);
      if s[0].syncStatus == Some(status) then [s[0]] + rest else rest
  }

  /** A product just appended with a fresh id is what `getProduct` returns for that id. */
  lemma {:induction false} GetAfterAppend(s: seq<ProductRecord>, p: ProductRecord)
    requires forall j :: 0 <= j < |s| ==> s[j].id != p.id
    ensures GetProduct(s + [p], p.id) == Some(p)
  {
    if s != [] {
      assert (s + [p])[1..] == s[1..] + [p];
      GetAfterAppend(s[1..], p);
    }
  }

  /** `createProduct`: stores exactly the supplied fields under a fresh id. */
  method CreateProduct(db: Database, p: NewProduct) returns (r: ProductRecord)
    requires db.Valid()
    modifies db`products, db`nextId
    ensures db.Valid()
    ensures r == ProductRecord(old(db.nextId), p.name, p.price, p.image, p.syncedAt, p.syncStatus)
    ensures db.products == old(db.products) + [r]
    ensures db.nextId == old(db.nextId) + 1
    ensures GetProduct(db.products, r.id) == Some(r)
  {
    r := ProductRecord(db.nextId, p.name, p.price, p.image, p.syncedAt, p.syncStatus);
    GetAfterAppend(db.products, r);
    db.products := db.products + [r];
    db.nextId := db.nextId + 1;
  }

  /** `updateProduct`: overwrites the defined fields of one product; an unknown id throws. */
  method UpdateProduct(db: Database, id: Id, u: ProductUpdates) returns (r: Result<ProductRecord>)
    requires db.Valid()
    modifies db`products
    ensures db.Valid()
    ensures old(ProductIndex(db.products, id)).None? ==> r.Err? && db.products == old(db.products)
    ensures old(ProductIndex(db.products, id)).Some? ==>
      var k := old(ProductIndex(db.products, id)).value;
      && r == Ok(ApplyUpdates(old(db.products)[k], u))
      && db.products == old(db.products)[k := r.value]
  {
    match ProductIndex(db.products, id)
    case None =>
      r := Err("Record products#id not found");
    case Some(k) =>
      var updated := ApplyUpdates(db.products[k], u);
      db.products := db.products[k := updated];
      r := Ok(updated);
  }

  /** `deleteProduct`: removes the row for good; an unknown id throws. */
  method DeleteProduct(db: Database, id: Id) returns (r: Outcome)
    requires db.Valid()
    modifies db`products
    ensures db.Valid()
    ensures r.Done? <==> old(ProductIndex(db.products, id)).Some?
    ensures r.Done? ==>
      var k := old(ProductIndex(db.products, id)).value;
      db.products == old(db.products)[..k] + old(db.products)[k + 1..]
    ensures r.Failed? ==> db.products == old(db.products)
    ensures GetProduct(db.products, id) == None
  {
    match ProductIndex(db.products, id)
    case None =>
      r := Failed("Record products#id not found");
    case Some(k) =>
      ghost var before := db.products;
      db.products := db.products[..k] + db.products[k + 1..];
      forall j | 0 <= j < |db.products| ensures db.products[j].id != id {
        if j < k {
          assert db.products[j] == before[j];
        } else {
          assert db.products[j] == before[j + 1];
        }
      }
      r := Done;
  }

  /** `clearAllProducts`: destroys every fetched row; the catalog ends empty. */
  method ClearAllProducts(db: Database)
    requires db.Valid()
    modifies db`products
    ensures db.Valid()
    ensures db.products == []
  {
    var records := db.products;
    var i := 0;
    while i < |records|
      invariant 0 <= i <= |records|
      invariant db.products == records[i..]
      invariant db.Valid()
    {
      db.products := db.products[1..];
      i := i + 1;
    }
  }
}
