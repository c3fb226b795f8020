/** The four domain tables as PostgreSQL holds them: rows under their primary keys, together with
    the lookups the importer issues and the integrity rules every committed state is shown to obey.

    Only `products` and `batches` have a unique constraint besides the primary key; that
    `locations` and `transactions` hold no duplicates is a theorem about the importer. */
module Store {
  import opened Wrappers

  type Tenant = nat
  type Id = nat

  datatype Movement = In | Out | Transfer | Return | Adjustment

  datatype ProductData = ProductData(
    name: string, category: Option<string>, unit: string, unitCost: int, sellingPrice: int)

  datatype Product = Product(tenant: Tenant, sku: string, data: ProductData)

  datatype Location = Location(tenant: Tenant, name: string)

  /** Its eight columns besides the primary key are the key on which imports deduplicate. */
  datatype Transaction = Transaction(
    tenant: Tenant, product: Id, location: Id, movement: Movement,
    quantity: int, unitCost: int, reference: Option<string>, date: int)

  datatype BatchData = BatchData(
    manufactured: Option<int>, expiry: Option<int>, quantity: int, location: Option<Id>)

  datatype Batch = Batch(tenant: Tenant, product: Id, batchNo: string, data: BatchData)

  datatype Tables = Tables(
    products: map<Id, Product>,
    locations: map<Id, Location>,
    transactions: map<Id, Transaction>,
    batches: map<Id, Batch>)

  const EMPTY := Tables(map[], map[], map[], map[])

  // ---------- queries ----------

  /** What `scalar_one_or_none()` makes of a result set: it raises on more than one row. */
  datatype Lookup = Missing | One(id: Id) | Many

  lemma SoleMember(ids: set<Id>, a: Id, b: Id)
    requires |ids| == 1 && a in ids && b in ids
    ensures a == b
  {
    assert |ids - {a}| == 0;
  }

  function ScalarOneOrNone(ids: set<Id>): (r: Lookup)
    ensures r.Missing? <==> ids == {}
    ensures r.One? ==> ids == {r.id}
    ensures r.Many? ==> exists a, b :: a in ids && b in ids && a != b
  {
    if ids == {} then Missing
    else if |ids| == 1 then
      assert forall a, b | a in ids && b in ids :: a == b by {
        forall a, b | a in ids && b in ids ensures a == b { SoleMember(ids, a, b); }
      }
      var id :| id in ids;
      One(id)
    else
      assert exists a, b :: a in ids && b in ids && a != b by {
        var a :| a in ids;
        assert |ids - {a}| == |ids| - 1;
        var b :| b in ids - {a};
      }
      Many
  }

  function ProductIds(t: Tables, tenant: Tenant, sku: string): set<Id> {
    set id | id in t.products && t.products[id].tenant == tenant && t.products[id].sku == sku
  }

  function LocationIds(t: Tables, tenant: Tenant, name: string): set<Id> {
    set id | id in t.locations && t.locations[id] == Location(tenant, name)
  }

  function TransactionIds(t: Tables, x: Transaction): set<Id> {
    set id | id in t.transactions && t.transactions[id] == x
  }

  function BatchIds(t: Tables, tenant: Tenant, batchNo: string, product: Id): set<Id> {
    set id | id in t.batches && t.batches[id].tenant == tenant
             && t.batches[id].batchNo == batchNo && t.batches[id].product == product
  }

  // ---------- integrity ----------

  // Two rows with the same business key. Uniqueness is stated through these names, so that a proof
  // says where it compares two rows.

  ghost predicate SameProduct(t: Tables, a: Id, b: Id) {
    a in t.products && b in t.products
    && t.products[a].tenant == t.products[b].tenant && t.products[a].sku == t.products[b].sku
  }

  ghost predicate SameLocation(t: Tables, a: Id, b: Id) {
    a in t.locations && b in t.locations && t.locations[a] == t.locations[b]
  }

  ghost predicate SameTransaction(t: Tables, a: Id, b: Id) {
    a in t.transactions && b in t.transactions && t.transactions[a] == t.transactions[b]
  }

  ghost predicate SameBatch(t: Tables, a: Id, b: Id) {
    a in t.batches && b in t.batches && t.batches[a].tenant == t.batches[b].tenant
    && t.batches[a].batchNo == t.batches[b].batchNo && t.batches[a].product == t.batches[b].product
  }

  ghost predicate UniqueProducts(t: Tables) { forall a, b :: SameProduct(t, a, b) ==> a == b }

  ghost predicate UniqueLocations(t: Tables) { forall a, b :: SameLocation(t, a, b) ==> a == b }

  ghost predicate UniqueTransactions(t: Tables) { forall a, b :: SameTransaction(t, a, b) ==> a == b }

  ghost predicate UniqueBatches(t: Tables) { forall a, b :: SameBatch(t, a, b) ==> a == b }

  predicate ProductOf(t: Tables, tenant: Tenant, id: Id) {
    id in t.products && t.products[id].tenant == tenant
  }

  predicate LocationOf(t: Tables, tenant: Tenant, id: Id) {
    id in t.locations && t.locations[id].tenant == tenant
  }

  ghost predicate TransactionRefers(t: Tables, id: Id) {
    id in t.transactions ==>
      && ProductOf(t, t.transactions[id].tenant, t.transactions[id].product)
      && LocationOf(t, t.transactions[id].tenant, t.transactions[id].location)
  }

  ghost predicate BatchRefers(t: Tables, id: Id) {
    id in t.batches ==>
      && ProductOf(t, t.batches[id].tenant, t.batches[id].product)
      && (t.batches[id].data.location.Some? ==>
            LocationOf(t, t.batches[id].tenant, t.batches[id].data.location.value))
  }

  /** Every reference stays inside its own tenant. */
  ghost predicate ReferencesHold(t: Tables) {
    (forall id :: TransactionRefers(t, id)) && (forall id :: BatchRefers(t, id))
  }

  ghost predicate Consistent(t: Tables) {
    && UniqueProducts(t) && UniqueLocations(t) && UniqueTransactions(t) && UniqueBatches(t)
    && ReferencesHold(t)
  }

  ghost predicate ProductKept(t: Tables, u: Tables, id: Id) {
    id in t.products ==>
      id in u.products && u.products[id].tenant == t.products[id].tenant && u.products[id].sku == t.products[id].sku
  }

  ghost predicate LocationKept(t: Tables, u: Tables, id: Id) {
    id in t.locations ==> id in u.locations && u.locations[id] == t.locations[id]
  }

  ghost predicate TransactionKept(t: Tables, u: Tables, id: Id) {
    id in t.transactions ==> id in u.transactions && u.transactions[id] == t.transactions[id]
  }

  ghost predicate BatchKept(t: Tables, u: Tables, id: Id) {
    id in t.batches ==>
      id in u.batches && u.batches[id].tenant == t.batches[id].tenant
      && u.batches[id].batchNo == t.batches[id].batchNo && u.batches[id].product == t.batches[id].product
  }

  /** Nothing in `t` was deleted, renamed or given another id on the way to `u`; transactions and
      locations are not even updated. */
  ghost predicate Preserves(t: Tables, u: Tables) {
    && (forall id :: ProductKept(t, u, id)) && (forall id :: LocationKept(t, u, id))
    && (forall id :: TransactionKept(t, u, id)) && (forall id :: BatchKept(t, u, id))
  }

  lemma PreservesTransitive(t: Tables, u: Tables, v: Tables)
    requires Preserves(t, u) && Preserves(u, v)
    ensures Preserves(t, v)
  {
    forall id ensures ProductKept(t, v, id) { assert ProductKept(t, u, id) && ProductKept(u, v, id); }
    forall id ensures LocationKept(t, v, id) { assert LocationKept(t, u, id) && LocationKept(u, v, id); }
    forall id ensures TransactionKept(t, v, id) { assert TransactionKept(t, u, id) && TransactionKept(u, v, id); }
    forall id ensures BatchKept(t, v, id) { assert BatchKept(t, u, id) && BatchKept(u, v, id); }
  }
}
