/** Each table write keeps the integrity rules, and only ever adds rows or updates plain columns. */
module Integrity {
  import opened Store
  import opened Importer
  import opened Books

  // ---------- in consistent tables every lookup finds at most one row ----------

  lemma OneProduct(t: Tables, tenant: Tenant, sku: string)
    requires UniqueProducts(t)
    ensures !ScalarOneOrNone(ProductIds(t, tenant, sku)).Many?
  {
    var ids := ProductIds(t, tenant, sku);
    forall a, b | a in ids && b in ids ensures a == b { assert SameProduct(t, a, b); }
  }

  lemma OneLocation(t: Tables, tenant: Tenant, name: string)
    requires UniqueLocations(t)
    ensures !ScalarOneOrNone(LocationIds(t, tenant, name)).Many?
  {
    var ids := LocationIds(t, tenant, name);
    forall a, b | a in ids && b in ids ensures a == b { assert SameLocation(t, a, b); }
  }

  lemma OneTransaction(t: Tables, x: Transaction)
    requires UniqueTransactions(t)
    ensures !ScalarOneOrNone(TransactionIds(t, x)).Many?
  {
    var ids := TransactionIds(t, x);
    forall a, b | a in ids && b in ids ensures a == b { assert SameTransaction(t, a, b); }
  }

  lemma OneBatch(t: Tables, tenant: Tenant, batchNo: string, product: Id)
    requires UniqueBatches(t)
    ensures !ScalarOneOrNone(BatchIds(t, tenant, batchNo, product)).Many?
  {
    var ids := BatchIds(t, tenant, batchNo, product);
    forall a, b | a in ids && b in ids ensures a == b { assert SameBatch(t, a, b); }
  }

  // ---------- each write keeps the rules ----------

  lemma LocationKeeps(t: Tables, id: Id, x: Location)
    requires Consistent(t) && id !in t.locations && LocationIds(t, x.tenant, x.name) == {}
    ensures Consistent(AddLocation(t, id, x)) && Preserves(t, AddLocation(t, id, x))
  {
    var u := AddLocation(t, id, x);
    forall a, b | SameLocation(u, a, b) ensures a == b {
      assert a !in LocationIds(t, x.tenant, x.name) && b !in LocationIds(t, x.tenant, x.name);
      assert a in t.locations && b in t.locations ==> SameLocation(t, a, b);
    }
    ReferencesKept(t, u);
    UniquenessKept(t, u);
  }

  /** Uniqueness is a property of each table by itself. */
  lemma UniquenessKept(t: Tables, u: Tables)
    requires Consistent(t)
    ensures u.products == t.products ==> UniqueProducts(u)
    ensures u.locations == t.locations ==> UniqueLocations(u)
    ensures u.transactions == t.transactions ==> UniqueTransactions(u)
    ensures u.batches == t.batches ==> UniqueBatches(u)
  {
    forall a, b ensures u.products == t.products && SameProduct(u, a, b) ==> a == b {
      assert SameProduct(t, a, b) ==> a == b;
    }
    forall a, b ensures u.locations == t.locations && SameLocation(u, a, b) ==> a == b {
      assert SameLocation(t, a, b) ==> a == b;
    }
    forall a, b ensures u.transactions == t.transactions && SameTransaction(u, a, b) ==> a == b {
      assert SameTransaction(t, a, b) ==> a == b;
    }
    forall a, b ensures u.batches == t.batches && SameBatch(u, a, b) ==> a == b {
      assert SameBatch(t, a, b) ==> a == b;
    }
  }

  /** References survive when the rows they point at keep their tenants. */
  lemma ReferencesKept(t: Tables, u: Tables)
    requires ReferencesHold(t) && u.transactions == t.transactions && u.batches == t.batches
    requires forall id | id in t.products :: ProductOf(u, t.products[id].tenant, id)
    requires forall id | id in t.locations :: LocationOf(u, t.locations[id].tenant, id)
    ensures ReferencesHold(u)
  {
    forall id ensures TransactionRefers(u, id) { assert TransactionRefers(t, id); }
    forall id ensures BatchRefers(u, id) { assert BatchRefers(t, id); }
  }

  lemma TransactionKeeps(t: Tables, id: Id, x: Transaction)
    requires Consistent(t) && id !in t.transactions && TransactionIds(t, x) == {}
    requires ProductOf(t, x.tenant, x.product) && LocationOf(t, x.tenant, x.location)
    ensures Consistent(AddTransaction(t, id, x)) && Preserves(t, AddTransaction(t, id, x))
  {
    var u := AddTransaction(t, id, x);
    forall a, b | SameTransaction(u, a, b) ensures a == b {
      assert a !in TransactionIds(t, x) && b !in TransactionIds(t, x);
      assert a in t.transactions && b in t.transactions ==> SameTransaction(t, a, b);
    }
    forall i ensures TransactionRefers(u, i) { assert TransactionRefers(t, i); }
    forall i ensures BatchRefers(u, i) { assert BatchRefers(t, i); }
    UniquenessKept(t, u);
  }

  lemma ProductKeeps(t: Tables, id: Id, x: Product)
    requires Consistent(t) && ProductSlot(t, id, x.tenant, x.sku)
    ensures Consistent(PutProduct(t, id, x)) && Preserves(t, PutProduct(t, id, x))
  {
    var u := PutProduct(t, id, x);
    SlotKeepsSkus(t, id, x);
    forall a, b | SameProduct(u, a, b) ensures a == b {
      assert a != id && b != id ==> SameProduct(t, a, b);
      assert ItemOf(u.products[a]) == ItemOf(u.products[b]);
    }
    ReferencesKept(t, u);
    UniquenessKept(t, u);
  }

  lemma BatchKeeps(t: Tables, id: Id, x: Batch)
    requires Consistent(t) && BatchSlot(t, id, x.tenant, x.batchNo, x.product)
    requires ProductOf(t, x.tenant, x.product)
    requires x.data.location.Some? ==> LocationOf(t, x.tenant, x.data.location.value)
    ensures Consistent(PutBatch(t, id, x)) && Preserves(t, PutBatch(t, id, x))
  {
    var u := PutBatch(t, id, x);
    forall a | a in t.batches ensures
      a in BatchIds(t, x.tenant, x.batchNo, x.product) <==>
      (t.batches[a].tenant == x.tenant && t.batches[a].batchNo == x.batchNo && t.batches[a].product == x.product)
    {}
    if id in t.batches { assert id in BatchIds(t, x.tenant, x.batchNo, x.product); }
    forall a, b | SameBatch(u, a, b) ensures a == b {
      assert a != id && b != id ==> SameBatch(t, a, b);
    }
    forall i ensures TransactionRefers(u, i) { assert TransactionRefers(t, i); }
    forall i ensures BatchRefers(u, i) { assert BatchRefers(t, i); }
    UniquenessKept(t, u);
  }
}
