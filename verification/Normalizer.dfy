/** The normalizer as the source has it: an object that looks products and locations up at most
    once, in two dictionaries. It is proved to write what the query-every-time importer writes. */
module Normalizer {
  import opened Wrappers
  import opened Store
  import opened Importer
  import opened Books

  /** A cached key stands for the one row that a query for it would return. */
  ghost predicate Coherent(t: Tables, tenant: Tenant, products: map<string, Id>, locations: map<string, Id>) {
    && (forall sku | sku in products :: ProductIds(t, tenant, sku) == {products[sku]})
    && (forall name | name in locations :: LocationIds(t, tenant, name) == {locations[name]})
  }

  /** The environment's draw as far as statements are really issued: a cached key is not queried. */
  function Asked(products: map<string, Id>, locations: map<string, Id>, n: Record, d: Draw): Draw {
    d.(onProduct := if n.sku in products then Fine else d.onProduct,
       onLocation := if SiteNamed(n).Some? && SiteNamed(n).value in locations then Fine else d.onLocation)
  }

  // ---------- coherence under writes ----------

  lemma CoherentAfterLocation(t: Tables, tenant: Tenant, products: map<string, Id>, locations: map<string, Id>,
                              id: Id, x: Location)
    requires Coherent(t, tenant, products, locations) && id !in t.locations && LocationIds(t, x.tenant, x.name) == {}
    ensures Coherent(AddLocation(t, id, x), tenant, products, locations)
    ensures LocationIds(AddLocation(t, id, x), x.tenant, x.name) == {id}
  {
    var u := AddLocation(t, id, x);
    forall a | a in LocationIds(u, x.tenant, x.name) ensures a == id {
      assert a !in LocationIds(t, x.tenant, x.name);
    }
    forall name | name in locations ensures LocationIds(u, tenant, name) == {locations[name]} {
      assert locations[name] in LocationIds(t, tenant, name);
      assert LocationIds(u, tenant, name) == LocationIds(t, tenant, name);
    }
    forall sku | sku in products ensures ProductIds(u, tenant, sku) == ProductIds(t, tenant, sku) {}
  }

  lemma CoherentAfterProduct(t: Tables, tenant: Tenant, products: map<string, Id>, locations: map<string, Id>,
                             id: Id, x: Product)
    requires Coherent(t, tenant, products, locations) && ProductSlot(t, id, x.tenant, x.sku)
    ensures Coherent(PutProduct(t, id, x), tenant, products, locations)
    ensures ProductIds(PutProduct(t, id, x), x.tenant, x.sku) == {id}
  {
    var u := PutProduct(t, id, x);
    SlotKeepsSkus(t, id, x);
    forall a | a in ProductIds(u, x.tenant, x.sku) ensures a == id {
      assert ItemOf(u.products[a]) == ItemOf(x);
    }
    forall sku | sku in products && (tenant != x.tenant || sku != x.sku)
      ensures ProductIds(u, tenant, sku) == ProductIds(t, tenant, sku)
    {
      forall a ensures a in ProductIds(u, tenant, sku) <==> a in ProductIds(t, tenant, sku) {
        if a == id && id in t.products { assert ItemOf(t.products[id]) == ItemOf(x); }
      }
    }
    forall name | name in locations ensures LocationIds(u, tenant, name) == LocationIds(t, tenant, name) {}
  }

  lemma CoherentAfterOther(t: Tables, u: Tables, tenant: Tenant, products: map<string, Id>, locations: map<string, Id>)
    requires Coherent(t, tenant, products, locations) && u.products == t.products && u.locations == t.locations
    ensures Coherent(u, tenant, products, locations)
  {
    forall sku | sku in products ensures ProductIds(u, tenant, sku) == ProductIds(t, tenant, sku) {}
    forall name | name in locations ensures LocationIds(u, tenant, name) == LocationIds(t, tenant, name) {}
  }

  /** Another job's commit becomes visible. It may add and update rows as it likes, of any tenant,
      so long as it deletes and renames nothing and adds no second row under a cached key. */
  ghost predicate Elsewhere(t: Tables, u: Tables, tenant: Tenant, products: map<string, Id>,
                            locations: map<string, Id>)
  {
    && Preserves(t, u)
    && (forall id | id in u.products && id !in t.products ::
          u.products[id].tenant != tenant || u.products[id].sku !in products)
    && (forall id | id in u.locations && id !in t.locations ::
          u.locations[id].tenant != tenant || u.locations[id].name !in locations)
  }

  /** The caches stay right while other jobs commit rows under other keys. */
  lemma CoherentElsewhere(t: Tables, u: Tables, tenant: Tenant, products: map<string, Id>, locations: map<string, Id>)
    requires Coherent(t, tenant, products, locations) && Elsewhere(t, u, tenant, products, locations)
    ensures Coherent(u, tenant, products, locations)
  {
    forall sku | sku in products ensures ProductIds(u, tenant, sku) == {products[sku]} {
      assert products[sku] in ProductIds(t, tenant, sku) && ProductKept(t, u, products[sku]);
      forall a | a in ProductIds(u, tenant, sku) ensures a == products[sku] {
        assert ProductKept(t, u, a);
        assert a in t.products ==> a in ProductIds(t, tenant, sku);
      }
    }
    forall name | name in locations ensures LocationIds(u, tenant, name) == {locations[name]} {
      assert locations[name] in LocationIds(t, tenant, name) && LocationKept(t, u, locations[name]);
      forall a | a in LocationIds(u, tenant, name) ensures a == locations[name] {
        assert LocationKept(t, u, a);
        assert a in t.locations ==> a in LocationIds(t, tenant, name);
      }
    }
  }

  // ---------- the session and the normalizer ----------

  class Session {
    var work: Work

    constructor (work: Work)
      ensures this.work == work
    {
      this.work := work;
    }

    /** `execute`: a statement that raises has no effect, but may abort the transaction. */
    method Execute(f: Fault) returns (ok: bool)
      modifies this
      ensures ok == !Refused(old(work), f)
      ensures work == if ok then old(work) else AfterRefusal(old(work), f)
    {
      ok := !Refused(work, f);
      if !ok { work := AfterRefusal(work, f); }
    }

    /** `flush`: its failure always loses the transaction. */
    method Flush(f: Fault) returns (ok: bool)
      modifies this
      ensures ok == f.Fine?
      ensures work == if ok then old(work) else AfterFailedFlush(old(work))
    {
      ok := f.Fine?;
      if !ok { work := AfterFailedFlush(work); }
    }
  }

  class DataNormalizer {
    const db: Session
    const tenant: Tenant
    var products: map<string, Id>
    var locations: map<string, Id>

    constructor (db: Session, tenant: Tenant)
      ensures this.db == db && this.tenant == tenant && products == map[] && locations == map[]
      ensures Valid()
    {
      this.db, this.tenant := db, tenant;
      products, locations := map[], map[];
    }

    ghost predicate Valid()
      reads this, db
    {
      Coherent(db.work.tables, tenant, products, locations)
    }

    method ResolveProduct(sku: string, d: Draw) returns (r: Resolved)
      requires Valid()
      modifies this`products, db
      ensures Valid()
      ensures sku in old(products) ==>
        r == Have(old(products)[sku]) && db.work == old(db.work) && products == old(products)
      ensures sku !in old(products) ==> (db.work, r) == Importer.ResolveProduct(old(db.work), tenant, sku, d)
      ensures products == if r.Have? then old(products)[sku := r.id] else old(products)
    {
      if sku in products { return Have(products[sku]); }
      var ok := db.Execute(d.onProduct);
      if !ok { return Broken; }
      match ScalarOneOrNone(ProductIds(db.work.tables, tenant, sku))
      case Missing => r := Absent;
      case Many => r := Broken;
      case One(id) =>
        products := products[sku := id];
        r := Have(id);
    }

    method ResolveLocation(name: string, d: Draw) returns (r: Resolved)
      requires Valid()
      modifies this`locations, db
      ensures Valid()
      ensures db.work.tables == old(db.work.tables).(locations := db.work.tables.locations)
      ensures name in old(locations) ==> r == Have(old(locations)[name]) && db.work == old(db.work)
      ensures name !in old(locations) ==> (db.work, r) == Importer.ResolveLocation(old(db.work), tenant, name, d)
      ensures locations == if r.Have? then old(locations)[name := r.id] else old(locations)
    {
      if name in locations { return Have(locations[name]); }
      var ok := db.Execute(d.onLocation);
      if !ok { return Broken; }
      match ScalarOneOrNone(LocationIds(db.work.tables, tenant, name))
      case Many => r := Broken;
      case One(id) =>
        locations := locations[name := id];
        r := Have(id);
      case Missing =>
        var flushed := db.Flush(if d.newLocation in db.work.tables.locations then ServerSide else d.onLocationFlush);
        if !flushed { return Broken; }
        CoherentAfterLocation(db.work.tables, tenant, products, locations, d.newLocation, Location(tenant, name));
        db.work := db.work.(tables := AddLocation(db.work.tables, d.newLocation, Location(tenant, name)));
        locations := locations[name := d.newLocation];
        r := Have(d.newLocation);
    }

    method UpsertProduct(n: Record, d: Draw) returns (o: Outcome)
      requires Valid() && n.ProductRecord?
      modifies this`products, db
      ensures Valid()
      ensures (db.work, o)
           == Importer.UpsertProduct(old(db.work), tenant, n, Asked(old(products), old(locations), n, d))
      ensures o.Accepted? ==> n.sku in products && products == old(products)[n.sku := products[n.sku]]
      ensures !o.Accepted? ==> products == old(products)
    {
      var ok := db.Execute(d.onStatement);
      if !ok { return Errored; }
      var x := Product(tenant, n.sku, ProductData(n.name, n.category, n.unit, n.unitCost, n.sellingPrice));
      var found := ScalarOneOrNone(ProductIds(db.work.tables, tenant, n.sku));
      if found.Many? || (found.Missing? && d.newId in db.work.tables.products) {
        ok := db.Execute(ServerSide);
        return Errored;
      }
      var id := if found.One? then found.id else d.newId;
      CoherentAfterProduct(db.work.tables, tenant, products, locations, id, x);
      db.work := db.work.(tables := PutProduct(db.work.tables, id, x));
      ok := db.Flush(d.onFlush);
      if !ok { return Errored; }
      products := products[n.sku := id];
      o := Accepted;
    }

    method CreateTransaction(n: Record, d: Draw) returns (o: Outcome)
      requires Valid() && n.TransactionRecord?
      modifies this, db
      ensures Valid()
      ensures (db.work, o)
           == Importer.CreateTransaction(old(db.work), tenant, n, Asked(old(products), old(locations), n, d))
      ensures o.Rejected? ==> products == old(products) && locations == old(locations)
    {
      var p := ResolveProduct(n.sku, d);
      if p.Absent? { return Rejected(ProductNotFound(n.sku)); }
      if p.Broken? { return Errored; }
      var l := ResolveLocation(n.site, d);
      if !l.Have? { return Errored; }
      var x := Transaction(tenant, p.id, l.id, n.movement, n.quantity, n.unitCost, n.reference, n.date);
      var ok := db.Execute(d.onStatement);
      if !ok { return Errored; }
      match ScalarOneOrNone(TransactionIds(db.work.tables, x))
      case One(_) => o := Accepted;
      case Many => o := Errored;
      case Missing =>
        var flushed := db.Flush(if d.newId in db.work.tables.transactions then ServerSide else d.onFlush);
        if !flushed { return Errored; }
        var t := AddTransaction(db.work.tables, d.newId, x);
        CoherentAfterOther(db.work.tables, t, tenant, products, locations);
        db.work := db.work.(tables := t);
        o := Accepted;
    }

    method UpsertBatch(n: Record, d: Draw) returns (o: Outcome)
      requires Valid() && n.BatchRecord?
      modifies this, db
      ensures Valid()
      ensures (db.work, o)
           == Importer.UpsertBatch(old(db.work), tenant, n, Asked(old(products), old(locations), n, d))
      ensures o.Rejected? ==> products == old(products) && locations == old(locations)
    {
      ghost var asked := Asked(products, locations, n, d);
      var p := ResolveProduct(n.sku, d);
      if p.Absent? { return Rejected(ProductNotFound(n.sku)); }
      if p.Broken? { return Errored; }
      var location := None;
      if n.shelf.Some? && n.shelf.value != "" {
        var l := ResolveLocation(n.shelf.value, d);
        if !l.Have? { return Errored; }
        location := Some(l.id);
      }
      o := PutOnShelf(n, p.id, location, d, asked);
    }

    /** The insert with its conflict clause, once the references are resolved. */
    method PutOnShelf(n: Record, product: Id, location: Option<Id>, d: Draw, ghost asked: Draw) returns (o: Outcome)
      requires Valid() && n.BatchRecord?
      requires asked == d.(onProduct := asked.onProduct, onLocation := asked.onLocation)
      modifies db
      ensures Valid()
      ensures (db.work, o) == Importer.PutOnShelf(old(db.work), tenant, n, product, location, asked)
      ensures !o.Rejected?
    {
      var ok := db.Execute(d.onStatement);
      if !ok { return Errored; }
      var x := Batch(tenant, product, n.batchNo, BatchData(n.manufactured, n.expiry, n.quantity, location));
      var found := ScalarOneOrNone(BatchIds(db.work.tables, tenant, n.batchNo, product));
      if found.Many? || (found.Missing? && d.newId in db.work.tables.batches) {
        ok := db.Execute(ServerSide);
        return Errored;
      }
      var t := PutBatch(db.work.tables, if found.One? then found.id else d.newId, x);
      CoherentAfterOther(db.work.tables, t, tenant, products, locations);
      db.work := db.work.(tables := t);
      ok := db.Flush(d.onFlush);
      o := if ok then Accepted else Errored;
    }
  }
}
