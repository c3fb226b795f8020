/** Which rows poison the transaction, read off the tables they meet and the environment's draw: a statement
    that is issued fails in the server, a flush fails, or an insert is needed and its primary key taken. */
module Poisoning {
  import opened Wrappers
  import opened Store
  import opened Importer
  import opened Books
  import opened Integrity
  import opened Refinement
  import opened ImportLaws

  predicate ProductFound(t: Tables, tenant: Tenant, sku: string, d: Draw) {
    d.onProduct.Fine? && ProductIds(t, tenant, sku) != {}
  }

  predicate LocationPoisons(t: Tables, tenant: Tenant, name: string, d: Draw) {
    d.onLocation.ServerSide?
    || (d.onLocation.Fine? && LocationIds(t, tenant, name) == {}
        && (!d.onLocationFlush.Fine? || d.newLocation in t.locations))
  }

  predicate LocationThere(t: Tables, tenant: Tenant, name: string, d: Draw) {
    d.onLocation.Fine?
    && (LocationIds(t, tenant, name) != {} || (d.onLocationFlush.Fine? && d.newLocation !in t.locations))
  }

  /** `present`: there is a row to update; `taken`: the drawn primary key is in use. */
  predicate UpsertPoisons(present: bool, taken: bool, d: Draw) {
    d.onStatement.ServerSide? || (d.onStatement.Fine? && ((!present && taken) || !d.onFlush.Fine?))
  }

  /** The statement is the search for an equal row, and only without one there is an insert and a flush. */
  predicate InsertPoisons(present: bool, taken: bool, d: Draw) {
    d.onStatement.ServerSide? || (d.onStatement.Fine? && !present && (taken || !d.onFlush.Fine?))
  }

  ghost predicate TransactionPoisons(t: Tables, tenant: Tenant, n: Record, d: Draw)
    requires n.TransactionRecord?
  {
    d.onProduct.ServerSide?
    || (ProductFound(t, tenant, n.sku, d)
        && (LocationPoisons(t, tenant, n.site, d)
            || (LocationThere(t, tenant, n.site, d)
                && InsertPoisons(Booked(t, EntryFor(tenant, n)), d.newId in t.transactions, d))))
  }

  ghost predicate BatchPoisons(t: Tables, tenant: Tenant, n: Record, d: Draw)
    requires n.BatchRecord?
  {
    d.onProduct.ServerSide?
    || (ProductFound(t, tenant, n.sku, d)
        && ((ShelfOf(n).Some? && LocationPoisons(t, tenant, ShelfOf(n).value, d))
            || ((ShelfOf(n).Some? ==> LocationThere(t, tenant, ShelfOf(n).value, d))
                && UpsertPoisons(Stocked(t, LotKey(Item(tenant, n.sku), n.batchNo)), d.newId in t.batches, d))))
  }

  ghost predicate RowPoisons(t: Tables, tenant: Tenant, r: Record, d: Draw) {
    match Normalize(r)
    case Failure(_) => false
    case Success(n) =>
      match n
      case ProductRecord(_, _, _, _, _, _) =>
        UpsertPoisons(ProductIds(t, tenant, n.sku) != {}, d.newId in t.products, d)
      case TransactionRecord(_, _, _, _, _, _, _) => TransactionPoisons(t, tenant, n, d)
      case BatchRecord(_, _, _, _, _, _) => BatchPoisons(t, tenant, n, d)
  }

  // ---------- one row ----------

  lemma ProductPoisonsIff(w: Work, tenant: Tenant, n: Record, d: Draw)
    requires Consistent(w.tables) && !w.poisoned && n.ProductRecord?
    ensures UpsertProduct(w, tenant, n, d).0.poisoned <==>
      UpsertPoisons(ProductIds(w.tables, tenant, n.sku) != {}, d.newId in w.tables.products, d)
  {
    OneProduct(w.tables, tenant, n.sku);
  }

  lemma LocationPoisonsIff(w: Work, tenant: Tenant, name: string, d: Draw)
    requires Consistent(w.tables) && !w.poisoned
    ensures var (w', l) := ResolveLocation(w, tenant, name, d);
      && (w'.poisoned <==> LocationPoisons(w.tables, tenant, name, d))
      && (l.Have? <==> LocationThere(w.tables, tenant, name, d))
  {
    OneLocation(w.tables, tenant, name);
  }

  lemma ProductFoundIff(w: Work, tenant: Tenant, sku: string, d: Draw)
    requires Consistent(w.tables) && !w.poisoned
    ensures var (w', p) := ResolveProduct(w, tenant, sku, d);
      && (w'.poisoned <==> d.onProduct.ServerSide?) && (p.Have? <==> ProductFound(w.tables, tenant, sku, d))
  {
    OneProduct(w.tables, tenant, sku);
  }

  /** The search for an equal row finds one exactly if the entry is booked. */
  lemma LedgerLookup(t: Tables, tenant: Tenant, n: Record, x: Transaction)
    requires Consistent(t) && n.TransactionRecord? && ProductOf(t, tenant, x.product) && SkuOf(t, x.product) == n.sku
    requires LocationOf(t, tenant, x.location) && NameOf(t, x.location) == n.site
    requires x == Transaction(tenant, x.product, x.location, n.movement, n.quantity, n.unitCost, n.reference, n.date)
    ensures TransactionIds(t, x) != {} <==> Booked(t, EntryFor(tenant, n))
  {
    if id :| id in TransactionIds(t, x) { assert EntryOf(t, t.transactions[id]) == EntryFor(tenant, n); }
    if Booked(t, EntryFor(tenant, n)) {
      var id :| id in t.transactions && EntryOf(t, t.transactions[id]) == EntryFor(tenant, n);
      SettledLookups(t, tenant, n, id);
      assert x.product in ProductIds(t, tenant, n.sku) && x.location in LocationIds(t, tenant, n.site);
      assert id in TransactionIds(t, x);
    }
  }

  /** A new location is no part of any entry yet. */
  lemma BookedBefore(t: Tables, u: Tables, e: Entry)
    requires Consistent(t) && Preserves(t, u) && u == t.(locations := u.locations)
    ensures Booked(t, e) <==> Booked(u, e)
  {
    forall id | id in t.transactions ensures EntryOf(t, t.transactions[id]) == EntryOf(u, t.transactions[id]) {
      assert TransactionRefers(t, id) && LocationKept(t, u, t.transactions[id].location);
    }
  }

  lemma InsertPoisonsIff(w: Work, x: Transaction, d: Draw)
    requires Consistent(w.tables) && !w.poisoned
    ensures InsertIfAbsent(w, x, d).0.poisoned <==>
      InsertPoisons(TransactionIds(w.tables, x) != {}, d.newId in w.tables.transactions, d)
  {
    OneTransaction(w.tables, x);
  }

  lemma TransactionPoisonsIff(w: Work, tenant: Tenant, n: Record, d: Draw)
    requires Consistent(w.tables) && !w.poisoned && n.TransactionRecord?
    ensures CreateTransaction(w, tenant, n, d).0.poisoned <==> TransactionPoisons(w.tables, tenant, n, d)
  {
    var b := BooksExist(w.tables);
    ProductResolved(w, b, tenant, n.sku, d);
    ProductFoundIff(w, tenant, n.sku, d);
    var (w1, p) := ResolveProduct(w, tenant, n.sku, d);
    if p.Have? {
      LocationResolved(w1, b, tenant, n.site, d);
      LocationPoisonsIff(w1, tenant, n.site, d);
      var (w2, l) := ResolveLocation(w1, tenant, n.site, d);
      if l.Have? {
        var x := Transaction(tenant, p.id, l.id, n.movement, n.quantity, n.unitCost, n.reference, n.date);
        InsertPoisonsIff(w2, x, d);
        LedgerLookup(w2.tables, tenant, n, x);
        BookedBefore(w.tables, w2.tables, EntryFor(tenant, n));
      }
    }
  }

  /** The upsert finds a row exactly if the lot is stocked. */
  lemma StockLookup(t: Tables, tenant: Tenant, sku: string, batchNo: string, product: Id)
    requires Consistent(t) && ProductOf(t, tenant, product) && SkuOf(t, product) == sku
    ensures BatchIds(t, tenant, batchNo, product) != {} <==> Stocked(t, LotKey(Item(tenant, sku), batchNo))
  {
    if id :| id in BatchIds(t, tenant, batchNo, product) {
      assert LotKeyOf(t, t.batches[id]) == LotKey(Item(tenant, sku), batchNo);
    }
    if Stocked(t, LotKey(Item(tenant, sku), batchNo)) {
      var id :| id in t.batches && LotKeyOf(t, t.batches[id]) == LotKey(Item(tenant, sku), batchNo);
      assert BatchRefers(t, id) && SameProduct(t, t.batches[id].product, product);
      assert id in BatchIds(t, tenant, batchNo, product);
    }
  }

  lemma ShelvingPoisonsIff(w: Work, tenant: Tenant, n: Record, product: Id, location: Option<Id>, d: Draw)
    requires Consistent(w.tables) && !w.poisoned && n.BatchRecord?
    requires ProductOf(w.tables, tenant, product) && SkuOf(w.tables, product) == n.sku
    ensures PutOnShelf(w, tenant, n, product, location, d).0.poisoned <==>
      UpsertPoisons(Stocked(w.tables, LotKey(Item(tenant, n.sku), n.batchNo)), d.newId in w.tables.batches, d)
  {
    OneBatch(w.tables, tenant, n.batchNo, product);
    StockLookup(w.tables, tenant, n.sku, n.batchNo, product);
  }

  lemma StockedBefore(t: Tables, u: Tables, k: LotKey)
    requires u == t.(locations := u.locations)
    ensures Stocked(t, k) <==> Stocked(u, k)
  {
    assert forall id | id in t.batches :: LotKeyOf(t, t.batches[id]) == LotKeyOf(u, u.batches[id]);
  }

  lemma BatchPoisonsIff(w: Work, tenant: Tenant, n: Record, d: Draw)
    requires Consistent(w.tables) && !w.poisoned && n.BatchRecord?
    ensures UpsertBatch(w, tenant, n, d).0.poisoned <==> BatchPoisons(w.tables, tenant, n, d)
  {
    var b := BooksExist(w.tables);
    ProductResolved(w, b, tenant, n.sku, d);
    ProductFoundIff(w, tenant, n.sku, d);
    var (w1, p) := ResolveProduct(w, tenant, n.sku, d);
    if p.Have? {
      if ShelfOf(n).None? {
        ShelvingPoisonsIff(w1, tenant, n, p.id, None, d);
      } else {
        LocationResolved(w1, b, tenant, n.shelf.value, d);
        LocationPoisonsIff(w1, tenant, n.shelf.value, d);
        var (w2, l) := ResolveLocation(w1, tenant, n.shelf.value, d);
        if l.Have? {
          ShelvingPoisonsIff(w2, tenant, n, p.id, Some(l.id), d);
          StockedBefore(w.tables, w2.tables, LotKey(Item(tenant, n.sku), n.batchNo));
        }
      }
    }
  }

  /** A row poisons a living transaction exactly when the predicate says so. */
  lemma RowPoisonsIff(w: Work, tenant: Tenant, r: Record, d: Draw)
    requires Consistent(w.tables) && !w.poisoned
    ensures ImportRow(w, tenant, r, d).0.poisoned <==> RowPoisons(w.tables, tenant, r, d)
  {
    match Normalize(r)
    case Failure(_) =>
    case Success(n) =>
      match n
      case ProductRecord(_, _, _, _, _, _) => ProductPoisonsIff(w, tenant, n, d);
      case TransactionRecord(_, _, _, _, _, _, _) => TransactionPoisonsIff(w, tenant, n, d);
      case BatchRecord(_, _, _, _, _, _) => BatchPoisonsIff(w, tenant, n, d);
  }

  // ---------- whole imports ----------

  /** Row `i` poisons, given the tables that the rows before it leave. */
  ghost predicate PoisonsAt(w: Work, tenant: Tenant, rows: seq<Row>, i: nat) {
    i < |rows| && RowPoisons(Before(w, tenant, rows, i).tables, tenant, rows[i].record, rows[i].draw)
  }

  /** An import ends poisoned exactly if one of its rows poisons. */
  lemma {:induction false} ImportPoisonedIff(w: Work, tenant: Tenant, rows: seq<Row>)
    requires Consistent(w.tables) && !w.poisoned
    ensures Import(w, tenant, rows).0.poisoned <==> exists i :: PoisonsAt(w, tenant, rows, i)
  {
    if rows != [] {
      var n := |rows| - 1;
      var init := rows[..n];
      var b := BooksExist(w.tables);
      var _ := ImportPostsAccepted(w, b, tenant, init);
      ImportPoisonedIff(w, tenant, init);
      ImportSnoc(w, tenant, rows);
      forall i: nat | i < n ensures PoisonsAt(w, tenant, init, i) == PoisonsAt(w, tenant, rows, i) {
        assert init[..i] == rows[..i];
      }
      var w1 := Import(w, tenant, init).0;
      if w1.poisoned {
        PoisonedRow(w1, tenant, rows[n].record, rows[n].draw);
        var i :| PoisonsAt(w, tenant, init, i);
        assert PoisonsAt(w, tenant, rows, i);
      } else {
        RowPoisonsIff(w1, tenant, rows[n].record, rows[n].draw);
        assert PoisonsAt(w, tenant, rows, n) == ImportRow(w1, tenant, rows[n].record, rows[n].draw).0.poisoned;
      }
    }
  }
}
