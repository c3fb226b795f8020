/** What an accepted row leaves in the tables, column by column. */
module StoredRows {
  import opened Wrappers
  import opened Store
  import opened Importer
  import opened Integrity

  /** The product with the tenant's SKU, old or new, holds the record's values, and nothing else changes. */
  lemma ProductRowStored(w: Work, tenant: Tenant, n: Record, d: Draw) returns (id: Id)
    requires Consistent(w.tables) && n.ProductRecord? && UpsertProduct(w, tenant, n, d).1.Accepted?
    ensures UpsertProduct(w, tenant, n, d).0.tables == w.tables.(products := w.tables.products[id := Product(
              tenant := tenant, sku := n.sku,
              data := ProductData(name := n.name, category := n.category, unit := n.unit,
                                  unitCost := n.unitCost, sellingPrice := n.sellingPrice))])
    ensures if id in w.tables.products
            then w.tables.products[id].tenant == tenant && w.tables.products[id].sku == n.sku
            else forall p | p in w.tables.products ::
              w.tables.products[p].tenant != tenant || w.tables.products[p].sku != n.sku
  {
    var found := ScalarOneOrNone(ProductIds(w.tables, tenant, n.sku));
    OneProduct(w.tables, tenant, n.sku);
    id := if found.One? then found.id else d.newId;
    if found.One? { assert id in ProductIds(w.tables, tenant, n.sku); }
    forall p | p in w.tables.products && found.Missing?
      ensures w.tables.products[p].tenant != tenant || w.tables.products[p].sku != n.sku
    {
      assert p !in ProductIds(w.tables, tenant, n.sku);
    }
  }

  /** The location with that name, old or new, is the tenant's. */
  lemma LocationStored(w: Work, tenant: Tenant, name: string, d: Draw)
    requires Consistent(w.tables) && ResolveLocation(w, tenant, name, d).1.Have?
    ensures var (w', l) := ResolveLocation(w, tenant, name, d);
      && w'.tables == w.tables.(locations := w.tables.locations[l.id := Location(tenant := tenant, name := name)])
  {
    var found := ScalarOneOrNone(LocationIds(w.tables, tenant, name));
    if found.One? {
      assert found.id in LocationIds(w.tables, tenant, name);
      assert w.tables.locations[found.id := Location(tenant, name)] == w.tables.locations;
    }
  }

  /** A transaction with the record's values, of the tenant's product with the SKU at the location with the
      name, is in the table; nothing else changes but that the location may be new. */
  lemma TransactionRowStored(w: Work, tenant: Tenant, n: Record, d: Draw)
    returns (id: Id, product: Id, location: Id)
    requires Consistent(w.tables) && n.TransactionRecord? && CreateTransaction(w, tenant, n, d).1.Accepted?
    ensures product in w.tables.products
    ensures w.tables.products[product].tenant == tenant && w.tables.products[product].sku == n.sku
    ensures CreateTransaction(w, tenant, n, d).0.tables == w.tables.(
              locations := w.tables.locations[location := Location(tenant := tenant, name := n.site)],
              transactions := w.tables.transactions[id := Transaction(
                tenant := tenant, product := product, location := location, movement := n.movement,
                quantity := n.quantity, unitCost := n.unitCost, reference := n.reference, date := n.date)])
  {
    var (w1, p) := ResolveProduct(w, tenant, n.sku, d);
    product := p.id;
    assert product in ProductIds(w.tables, tenant, n.sku);
    var (w2, l) := ResolveLocation(w1, tenant, n.site, d);
    LocationStored(w1, tenant, n.site, d);
    location := l.id;
    var x := Transaction(tenant, product, location, n.movement, n.quantity, n.unitCost, n.reference, n.date);
    var found := ScalarOneOrNone(TransactionIds(w2.tables, x));
    id := if found.One? then found.id else d.newId;
    if found.One? {
      assert id in TransactionIds(w2.tables, x);
      assert w2.tables.transactions[id := x] == w2.tables.transactions;
    }
  }

  predicate IsLot(x: Batch, tenant: Tenant, product: Id, batchNo: string) {
    x.tenant == tenant && x.product == product && x.batchNo == batchNo
  }

  /** The batch's values are in the table, on the shelf the record names or on none. */
  lemma ShelvedRowStored(w: Work, tenant: Tenant, n: Record, product: Id, location: Option<Id>, d: Draw)
    returns (id: Id)
    requires Consistent(w.tables) && n.BatchRecord? && PutOnShelf(w, tenant, n, product, location, d).1.Accepted?
    ensures PutOnShelf(w, tenant, n, product, location, d).0.tables == w.tables.(
              batches := w.tables.batches[id := Batch(
                tenant := tenant, product := product, batchNo := n.batchNo,
                data := BatchData(manufactured := n.manufactured, expiry := n.expiry, quantity := n.quantity,
                                  location := location))])
    ensures if id in w.tables.batches then IsLot(w.tables.batches[id], tenant, product, n.batchNo)
            else forall p | p in w.tables.batches :: !IsLot(w.tables.batches[p], tenant, product, n.batchNo)
  {
    var found := ScalarOneOrNone(BatchIds(w.tables, tenant, n.batchNo, product));
    OneBatch(w.tables, tenant, n.batchNo, product);
    id := if found.One? then found.id else d.newId;
    if found.One? { assert id in BatchIds(w.tables, tenant, n.batchNo, product); }
    forall p | p in w.tables.batches && found.Missing?
      ensures !IsLot(w.tables.batches[p], tenant, product, n.batchNo)
    {
      assert p !in BatchIds(w.tables, tenant, n.batchNo, product);
    }
  }

  predicate OnAShelf(n: Record)
    requires n.BatchRecord?
  {
    n.shelf.Some? && n.shelf.value != ""
  }

  lemma BatchRowStored(w: Work, tenant: Tenant, n: Record, d: Draw) returns (id: Id, product: Id, location: Option<Id>)
    requires Consistent(w.tables) && n.BatchRecord? && UpsertBatch(w, tenant, n, d).1.Accepted?
    ensures product in w.tables.products
    ensures w.tables.products[product].tenant == tenant && w.tables.products[product].sku == n.sku
    ensures location.Some? <==> OnAShelf(n)
    ensures UpsertBatch(w, tenant, n, d).0.tables == w.tables.(
              locations := if location.Some?
                           then w.tables.locations[location.value := Location(tenant := tenant, name := n.shelf.value)]
                           else w.tables.locations,
              batches := w.tables.batches[id := Batch(
                tenant := tenant, product := product, batchNo := n.batchNo,
                data := BatchData(manufactured := n.manufactured, expiry := n.expiry, quantity := n.quantity,
                                  location := location))])
  {
    var (w1, p) := ResolveProduct(w, tenant, n.sku, d);
    product := p.id;
    assert product in ProductIds(w.tables, tenant, n.sku);
    if OnAShelf(n) {
      var (w2, l) := ResolveLocation(w1, tenant, n.shelf.value, d);
      LocationStored(w1, tenant, n.shelf.value, d);
      LocationConsistent(w1, tenant, n.shelf.value, d);
      location := Some(l.id);
      id := ShelvedRowStored(w2, tenant, n, product, location, d);
    } else {
      location := None;
      id := ShelvedRowStored(w1, tenant, n, product, None, d);
    }
  }

  lemma LocationConsistent(w: Work, tenant: Tenant, name: string, d: Draw)
    requires Consistent(w.tables)
    ensures Consistent(ResolveLocation(w, tenant, name, d).0.tables)
  {
    if ScalarOneOrNone(LocationIds(w.tables, tenant, name)).Missing? && d.newLocation !in w.tables.locations {
      LocationKeeps(w.tables, d.newLocation, Location(tenant, name));
    }
  }
}
