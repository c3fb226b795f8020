/** Importing a row on the id-level tables refines importing it on the books, whatever faults the
    environment injects, and always leaves the tables consistent. */
module Refinement {
  import opened Wrappers
  import opened Store
  import opened Importer
  import opened Books
  import opened Integrity

  /** No fault strikes the row and the primary keys drawn for it are unused. */
  predicate Smooth(w: Work, d: Draw) {
    && !w.poisoned && FaultFree(d)
    && d.newId !in w.tables.products && d.newId !in w.tables.transactions && d.newId !in w.tables.batches
    && d.newLocation !in w.tables.locations
  }

  // ---------- reference resolution ----------

  lemma ProductResolved(w: Work, b: Books, tenant: Tenant, sku: string, d: Draw)
    requires Consistent(w.tables) && Keeps(w.tables, b)
    ensures var (w', p) := ResolveProduct(w, tenant, sku, d);
      && w'.tables == w.tables && (w.poisoned ==> w'.poisoned)
      && (p.Have? ==> w' == w && !w.poisoned && Item(tenant, sku) in b.catalogue
                      && ProductOf(w.tables, tenant, p.id) && SkuOf(w.tables, p.id) == sku)
      && (p.Absent? ==> w' == w && !w.poisoned && Item(tenant, sku) !in b.catalogue)
      && (Smooth(w, d) ==> !p.Broken?)
  {
    LookupsAgree(w.tables, b.catalogue, tenant, sku);
    OneProduct(w.tables, tenant, sku);
    var r := ScalarOneOrNone(ProductIds(w.tables, tenant, sku));
    if r.One? { assert r.id in ProductIds(w.tables, tenant, sku); }
  }

  /** The books with one more site, unless they had it. */
  function WithSite(b: Books, tenant: Tenant, name: string): Books {
    b.(sites := b.sites + {Site(tenant, name)})
  }

  lemma LocationResolved(w: Work, b: Books, tenant: Tenant, name: string, d: Draw)
    requires Consistent(w.tables) && Keeps(w.tables, b)
    ensures var (w', l) := ResolveLocation(w, tenant, name, d);
      && Consistent(w'.tables) && Preserves(w.tables, w'.tables)
      && w'.tables == w.tables.(locations := w'.tables.locations)
      && (w.poisoned ==> w'.poisoned && w'.tables == w.tables)
      && (l.Have? ==> !w.poisoned && !w'.poisoned && LocationOf(w'.tables, tenant, l.id)
                      && NameOf(w'.tables, l.id) == name && Keeps(w'.tables, WithSite(b, tenant, name)))
      && (!l.Have? ==> w'.tables == w.tables)
      && (Smooth(w, d) ==> l.Have?)
  {
    OneLocation(w.tables, tenant, name);
    var r := ScalarOneOrNone(LocationIds(w.tables, tenant, name));
    if !Refused(w, d.onLocation) {
      if r.One? {
        assert r.id in LocationIds(w.tables, tenant, name);
        assert SiteOf(w.tables.locations[r.id]) in b.sites;
        assert WithSite(b, tenant, name) == b;
      } else if d.onLocationFlush.Fine? && d.newLocation !in w.tables.locations {
        LocationAdded(w.tables, b, d.newLocation, Location(tenant, name));
        LocationKeeps(w.tables, d.newLocation, Location(tenant, name));
      }
    }
  }

  // ---------- one row ----------

  /** The relation every row operation is shown to satisfy. An accepted row is posted; a rejected
      one changes nothing; one that raised may have left a location behind, and nothing else. */
  ghost predicate Refines(w: Work, b: Books, tenant: Tenant, n: Record, d: Draw, w': Work, o: Outcome) {
    && Consistent(w'.tables) && Preserves(w.tables, w'.tables)
    && (w.poisoned ==> w'.poisoned && w'.tables == w.tables && !o.Accepted?)
    && (o.Accepted? ==> !w'.poisoned && Keeps(w'.tables, Post(b, tenant, n))
                        && (n.ProductRecord? || Item(tenant, n.sku) in b.catalogue))
    && (o.Rejected? ==> w' == w && o.reason == ProductNotFound(n.sku) && !n.ProductRecord?
                        && Item(tenant, n.sku) !in b.catalogue)
    && (o.Errored? && !w'.poisoned ==> Keeps(w'.tables, b) || LeftSite(w', b, tenant, n))
    && (Smooth(w, d) ==> !o.Errored? && !w'.poisoned)
  }

  ghost predicate LeftSite(w': Work, b: Books, tenant: Tenant, n: Record) {
    SiteNamed(n).Some? && Keeps(w'.tables, WithSite(b, tenant, SiteNamed(n).value))
  }

  lemma ProductUpserted(w: Work, b: Books, tenant: Tenant, n: Record, d: Draw)
    requires Consistent(w.tables) && Keeps(w.tables, b) && n.ProductRecord?
    ensures var (w', o) := UpsertProduct(w, tenant, n, d); Refines(w, b, tenant, n, d, w', o)
  {
    OneProduct(w.tables, tenant, n.sku);
    var x := Product(tenant, n.sku, ProductData(n.name, n.category, n.unit, n.unitCost, n.sellingPrice));
    var r := ScalarOneOrNone(ProductIds(w.tables, tenant, n.sku));
    if r.One? || d.newId !in w.tables.products {
      var id := if r.One? then r.id else d.newId;
      ProductPut(w.tables, b, id, x);
      ProductKeeps(w.tables, id, x);
    }
  }

  lemma TransactionInserted(w: Work, b: Books, x: Transaction, d: Draw)
    requires Consistent(w.tables) && Keeps(w.tables, b)
    requires ProductOf(w.tables, x.tenant, x.product) && LocationOf(w.tables, x.tenant, x.location)
    ensures var (w', o) := InsertIfAbsent(w, x, d);
      && Consistent(w'.tables) && Preserves(w.tables, w'.tables)
      && (w.poisoned ==> w'.poisoned && w'.tables == w.tables)
      && (o.Accepted? ==> !w.poisoned && !w'.poisoned)
      && (o.Accepted? ==> Keeps(w'.tables, b.(ledger := b.ledger + {EntryOf(w.tables, x)})))
      && (!o.Accepted? ==> o.Errored? && w'.tables == w.tables)
      && (!w.poisoned && FaultFree(d) && d.newId !in w.tables.transactions ==> o.Accepted?)
  {
    OneTransaction(w.tables, x);
    var r := ScalarOneOrNone(TransactionIds(w.tables, x));
    if r.One? {
      assert r.id in TransactionIds(w.tables, x);
      assert EntryOf(w.tables, w.tables.transactions[r.id]) in b.ledger;
      assert b.ledger + {EntryOf(w.tables, x)} == b.ledger;
    } else if d.newId !in w.tables.transactions {
      TransactionAdded(w.tables, b, d.newId, x);
      TransactionKeeps(w.tables, d.newId, x);
    }
  }

  lemma TransactionCreated(w: Work, b: Books, tenant: Tenant, n: Record, d: Draw)
    requires Consistent(w.tables) && Keeps(w.tables, b) && n.TransactionRecord?
    ensures var (w', o) := CreateTransaction(w, tenant, n, d); Refines(w, b, tenant, n, d, w', o)
  {
    ProductResolved(w, b, tenant, n.sku, d);
    var (w1, p) := ResolveProduct(w, tenant, n.sku, d);
    if p.Have? {
      LocationResolved(w1, b, tenant, n.site, d);
      var (w2, l) := ResolveLocation(w1, tenant, n.site, d);
      if l.Have? {
        var x := Transaction(tenant, p.id, l.id, n.movement, n.quantity, n.unitCost, n.reference, n.date);
        TransactionInserted(w2, WithSite(b, tenant, n.site), x, d);
        assert EntryOf(w2.tables, x) == EntryFor(tenant, n);
        PreservesTransitive(w.tables, w2.tables, InsertIfAbsent(w2, x, d).0.tables);
      }
    }
  }

  lemma BatchShelved(w: Work, b: Books, tenant: Tenant, n: Record, product: Id, location: Option<Id>, d: Draw)
    requires Consistent(w.tables) && Keeps(w.tables, b) && n.BatchRecord?
    requires ProductOf(w.tables, tenant, product) && SkuOf(w.tables, product) == n.sku
    requires location.Some? <==> ShelfOf(n).Some?
    requires location.Some? ==> LocationOf(w.tables, tenant, location.value)
                                && NameOf(w.tables, location.value) == ShelfOf(n).value
    ensures var (w', o) := PutOnShelf(w, tenant, n, product, location, d);
      && Consistent(w'.tables) && Preserves(w.tables, w'.tables)
      && (w.poisoned ==> w'.poisoned && w'.tables == w.tables)
      && (o.Accepted? ==> !w.poisoned && !w'.poisoned && Keeps(w'.tables, Shelved(b, tenant, n)))
      && (!o.Accepted? ==> o.Errored? && (!w'.poisoned ==> w'.tables == w.tables))
      && (!w.poisoned && FaultFree(d) && d.newId !in w.tables.batches ==> o.Accepted?)
  {
    OneBatch(w.tables, tenant, n.batchNo, product);
    var x := Batch(tenant, product, n.batchNo, BatchData(n.manufactured, n.expiry, n.quantity, location));
    var r := ScalarOneOrNone(BatchIds(w.tables, tenant, n.batchNo, product));
    if r.One? || d.newId !in w.tables.batches {
      var id := if r.One? then r.id else d.newId;
      BatchPut(w.tables, b, id, x);
      BatchKeeps(w.tables, id, x);
    }
  }

  function Shelved(b: Books, tenant: Tenant, n: Record): Books
    requires n.BatchRecord?
  {
    b.(stock := b.stock[LotKey(Item(tenant, n.sku), n.batchNo)
                        := Lot(n.manufactured, n.expiry, n.quantity, ShelfOf(n))])
  }

  lemma BatchLocated(w: Work, b: Books, tenant: Tenant, n: Record, product: Id, d: Draw)
    requires Consistent(w.tables) && Keeps(w.tables, b) && n.BatchRecord? && ShelfOf(n).Some?
    requires ProductOf(w.tables, tenant, product) && SkuOf(w.tables, product) == n.sku
    requires Item(tenant, n.sku) in b.catalogue
    ensures
      var (w2, l) := ResolveLocation(w, tenant, n.shelf.value, d);
      var (w', o) := if !l.Have? then (w2, Errored) else PutOnShelf(w2, tenant, n, product, Some(l.id), d);
      Refines(w, b, tenant, n, d, w', o)
  {
    LocationResolved(w, b, tenant, n.shelf.value, d);
    var (w2, l) := ResolveLocation(w, tenant, n.shelf.value, d);
    if l.Have? {
      BatchShelved(w2, WithSite(b, tenant, n.shelf.value), tenant, n, product, Some(l.id), d);
      assert Shelved(WithSite(b, tenant, n.shelf.value), tenant, n) == Post(b, tenant, n);
      PreservesTransitive(w.tables, w2.tables, PutOnShelf(w2, tenant, n, product, Some(l.id), d).0.tables);
    }
  }

  lemma BatchUpserted(w: Work, b: Books, tenant: Tenant, n: Record, d: Draw)
    requires Consistent(w.tables) && Keeps(w.tables, b) && n.BatchRecord?
    ensures var (w', o) := UpsertBatch(w, tenant, n, d); Refines(w, b, tenant, n, d, w', o)
  {
    ProductResolved(w, b, tenant, n.sku, d);
    var (w1, p) := ResolveProduct(w, tenant, n.sku, d);
    if p.Have? {
      if ShelfOf(n).None? {
        BatchShelved(w1, b, tenant, n, p.id, None, d);
        assert Shelved(b, tenant, n) == Post(b, tenant, n);
      } else {
        BatchLocated(w1, b, tenant, n, p.id, d);
      }
    }
  }

  /** The simulation step. */
  lemma RowRefines(w: Work, b: Books, tenant: Tenant, r: Record, d: Draw)
    requires Consistent(w.tables) && Keeps(w.tables, b)
    ensures var (w', o) := ImportRow(w, tenant, r, d);
      && Consistent(w'.tables) && Preserves(w.tables, w'.tables)
      && (w.poisoned ==> w'.poisoned && w'.tables == w.tables && !o.Accepted?)
      && (o.Accepted? ==> Refusal(b, tenant, r).None? && !w'.poisoned && Keeps(w'.tables, PostRow(b, tenant, r)))
      && (o.Rejected? ==> Refusal(b, tenant, r) == Some(o.reason) && w' == w)
      && (o.Errored? && !w'.poisoned ==>
            Normalize(r).Success? && (Keeps(w'.tables, b) || LeftSite(w', b, tenant, Normalize(r).value)))
      && (Smooth(w, d) ==> !o.Errored? && !w'.poisoned)
  {
    match Normalize(r)
    case Failure(_) =>
    case Success(n) =>
      match n
      case ProductRecord(_, _, _, _, _, _) => ProductUpserted(w, b, tenant, n, d);
      case TransactionRecord(_, _, _, _, _, _, _) => TransactionCreated(w, b, tenant, n, d);
      case BatchRecord(_, _, _, _, _, _) => BatchUpserted(w, b, tenant, n, d);
  }

  /** The outcome the books predict for a record. */
  predicate Verdict(b: Books, tenant: Tenant, r: Record, o: Outcome) {
    if Refusal(b, tenant, r).Some? then o == Rejected(Refusal(b, tenant, r).value) else o == Accepted
  }

  /** A row that does not raise does exactly what it does on the books. */
  lemma CleanRow(w: Work, b: Books, tenant: Tenant, r: Record, d: Draw)
    requires Consistent(w.tables) && Keeps(w.tables, b) && !w.poisoned && !ImportRow(w, tenant, r, d).1.Errored?
    ensures var (w', o) := ImportRow(w, tenant, r, d);
      && !w'.poisoned && Consistent(w'.tables) && Keeps(w'.tables, PostRow(b, tenant, r)) && Verdict(b, tenant, r, o)
  {
    RowRefines(w, b, tenant, r, d);
  }
}
