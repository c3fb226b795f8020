/** The tables seen through business keys: no primary keys, every reference replaced by what it
    names. On this view an import is a fold of map updates and set insertions, which is the
    specification the id-level importer is proved to refine. */
module Books {
  import opened Wrappers
  import opened Store
  import opened Importer

  datatype Entry = Entry(
    tenant: Tenant, sku: string, site: string, movement: Movement,
    quantity: int, unitCost: int, reference: Option<string>, date: int)

  datatype Lot = Lot(manufactured: Option<int>, expiry: Option<int>, quantity: int, shelf: Option<string>)

  datatype Item = Item(tenant: Tenant, sku: string)

  datatype Site = Site(tenant: Tenant, name: string)

  datatype LotKey = LotKey(item: Item, batchNo: string)

  datatype Books = Books(
    catalogue: map<Item, ProductData>,
    sites: set<Site>,
    ledger: set<Entry>,
    stock: map<LotKey, Lot>)

  // ---------- the view ----------

  function ItemOf(p: Product): Item { Item(p.tenant, p.sku) }

  function SiteOf(l: Location): Site { Site(l.tenant, l.name) }

  function SkuOf(t: Tables, product: Id): string {
    if product in t.products then t.products[product].sku else ""
  }

  function NameOf(t: Tables, location: Id): string {
    if location in t.locations then t.locations[location].name else ""
  }

  function EntryOf(t: Tables, x: Transaction): Entry {
    Entry(x.tenant, SkuOf(t, x.product), NameOf(t, x.location), x.movement,
          x.quantity, x.unitCost, x.reference, x.date)
  }

  function LotKeyOf(t: Tables, b: Batch): LotKey { LotKey(Item(b.tenant, SkuOf(t, b.product)), b.batchNo) }

  function LotOf(t: Tables, b: Batch): Lot {
    Lot(b.data.manufactured, b.data.expiry, b.data.quantity,
        if b.data.location.Some? then Some(NameOf(t, b.data.location.value)) else None)
  }

  // Some row carries the given business key. These name the witnesses of the converse halves below;
  // stated with triggers on them, those halves are used only where a lemma mentions one.

  ghost predicate Listed(t: Tables, k: Item) { exists id :: id in t.products && ItemOf(t.products[id]) == k }

  ghost predicate Sited(t: Tables, s: Site) { exists id :: id in t.locations && SiteOf(t.locations[id]) == s }

  ghost predicate Booked(t: Tables, e: Entry) {
    exists id :: id in t.transactions && EntryOf(t, t.transactions[id]) == e
  }

  ghost predicate Stocked(t: Tables, k: LotKey) {
    exists id :: id in t.batches && LotKeyOf(t, t.batches[id]) == k
  }

  ghost predicate CatalogueIs(t: Tables, catalogue: map<Item, ProductData>) {
    && (forall id | id in t.products ::
          ItemOf(t.products[id]) in catalogue && catalogue[ItemOf(t.products[id])] == t.products[id].data)
    && (forall k {:trigger Listed(t, k)} | k in catalogue :: Listed(t, k))
  }

  ghost predicate SitesAre(t: Tables, sites: set<Site>) {
    && (forall id | id in t.locations :: SiteOf(t.locations[id]) in sites)
    && (forall s {:trigger Sited(t, s)} | s in sites :: Sited(t, s))
  }

  ghost predicate LedgerIs(t: Tables, ledger: set<Entry>) {
    && (forall id | id in t.transactions :: EntryOf(t, t.transactions[id]) in ledger)
    && (forall e {:trigger Booked(t, e)} | e in ledger :: Booked(t, e))
  }

  ghost predicate StockIs(t: Tables, stock: map<LotKey, Lot>) {
    && (forall id | id in t.batches ::
          LotKeyOf(t, t.batches[id]) in stock && stock[LotKeyOf(t, t.batches[id])] == LotOf(t, t.batches[id]))
    && (forall k {:trigger Stocked(t, k)} | k in stock :: Stocked(t, k))
  }

  /** The books a set of tables keeps; they are determined by the tables. */
  ghost predicate Keeps(t: Tables, b: Books) {
    CatalogueIs(t, b.catalogue) && SitesAre(t, b.sites) && LedgerIs(t, b.ledger) && StockIs(t, b.stock)
  }

  // ---------- importing on the view ----------

  /** Why a record is refused: a missing field, or a product the catalogue does not list. */
  function Refusal(b: Books, tenant: Tenant, r: Record): Option<RowError> {
    match Normalize(r)
    case Failure(e) => Some(e)
    case Success(n) =>
      if n.ProductRecord? || Item(tenant, n.sku) in b.catalogue then None
      else Some(ProductNotFound(n.sku))
  }

  function EntryFor(tenant: Tenant, n: Record): Entry
    requires n.TransactionRecord?
  {
    Entry(tenant, n.sku, n.site, n.movement, n.quantity, n.unitCost, n.reference, n.date)
  }

  /** The shelf a batch record names; a blank one names none. */
  function ShelfOf(n: Record): Option<string>
    requires n.BatchRecord?
  {
    if n.shelf == Some("") then None else n.shelf
  }

  /** The location a normalized record refers to, if any. */
  function SiteNamed(n: Record): Option<string> {
    match n
    case ProductRecord(_, _, _, _, _, _) => None
    case TransactionRecord(_, site, _, _, _, _, _) => Some(site)
    case BatchRecord(_, _, _, _, _, _) => ShelfOf(n)
  }

  /** What recording one accepted, normalized record does to the books. */
  function Post(b: Books, tenant: Tenant, n: Record): Books {
    match n
    case ProductRecord(sku, name, category, unit, unitCost, sellingPrice) =>
      b.(catalogue := b.catalogue[Item(tenant, sku) := ProductData(name, category, unit, unitCost, sellingPrice)])
    case TransactionRecord(_, site, _, _, _, _, _) =>
      b.(sites := b.sites + {Site(tenant, site)}, ledger := b.ledger + {EntryFor(tenant, n)})
    case BatchRecord(sku, batchNo, manufactured, expiry, quantity, _) =>
      b.(sites := b.sites + (if ShelfOf(n).Some? then {Site(tenant, ShelfOf(n).value)} else {}),
         stock := b.stock[LotKey(Item(tenant, sku), batchNo) := Lot(manufactured, expiry, quantity, ShelfOf(n))])
  }

  function PostRow(b: Books, tenant: Tenant, r: Record): Books {
    if Refusal(b, tenant, r).Some? then b
    else Post(b, tenant, Normalize(r).value)
  }

  function PostAll(b: Books, tenant: Tenant, rs: seq<Record>): Books {
    if rs == [] then b
    else PostRow(PostAll(b, tenant, rs[..|rs| - 1]), tenant, rs[|rs| - 1])
  }

  // ---------- each table write, seen on the books ----------

  lemma LookupsAgree(t: Tables, catalogue: map<Item, ProductData>, tenant: Tenant, sku: string)
    requires CatalogueIs(t, catalogue)
    ensures ProductIds(t, tenant, sku) == {} <==> Item(tenant, sku) !in catalogue
  {
    if Item(tenant, sku) in catalogue {
      assert Listed(t, Item(tenant, sku));
      var id :| id in t.products && ItemOf(t.products[id]) == Item(tenant, sku);
      assert id in ProductIds(t, tenant, sku);
    }
  }

  lemma LedgerKept(t: Tables, u: Tables, ledger: set<Entry>)
    requires ReferencesHold(t) && LedgerIs(t, ledger) && u.transactions == t.transactions
    requires forall id | id in t.products :: SkuOf(u, id) == SkuOf(t, id)
    requires forall id | id in t.locations :: NameOf(u, id) == NameOf(t, id)
    ensures LedgerIs(u, ledger)
  {
    forall id | id in t.transactions ensures EntryOf(u, t.transactions[id]) == EntryOf(t, t.transactions[id]) {
      assert TransactionRefers(t, id);
    }
    forall e | e in ledger ensures Booked(u, e) { assert Booked(t, e); }
  }

  lemma StockKept(t: Tables, u: Tables, stock: map<LotKey, Lot>)
    requires ReferencesHold(t) && StockIs(t, stock) && u.batches == t.batches
    requires forall id | id in t.products :: SkuOf(u, id) == SkuOf(t, id)
    requires forall id | id in t.locations :: NameOf(u, id) == NameOf(t, id)
    ensures StockIs(u, stock)
  {
    forall id | id in t.batches
      ensures LotOf(u, t.batches[id]) == LotOf(t, t.batches[id])
      ensures LotKeyOf(u, t.batches[id]) == LotKeyOf(t, t.batches[id])
    {
      assert BatchRefers(t, id);
    }
    forall k | k in stock ensures Stocked(u, k) {
      assert Stocked(t, k);
      var i :| i in t.batches && LotKeyOf(t, t.batches[i]) == k;
      assert LotKeyOf(u, u.batches[i]) == k;
    }
  }

  lemma LocationAdded(t: Tables, b: Books, id: Id, x: Location)
    requires ReferencesHold(t) && Keeps(t, b) && id !in t.locations
    ensures Keeps(AddLocation(t, id, x), b.(sites := b.sites + {SiteOf(x)}))
  {
    var u := AddLocation(t, id, x);
    assert u.locations[id] == x;
    forall s | s in b.sites ensures Sited(u, s) {
      assert Sited(t, s);
      var i :| i in t.locations && SiteOf(t.locations[i]) == s;
      assert u.locations[i] == t.locations[i];
    }
    forall k | k in b.catalogue ensures Listed(u, k) { assert Listed(t, k); }
    LedgerKept(t, u, b.ledger);
    StockKept(t, u, b.stock);
  }

  lemma TransactionAdded(t: Tables, b: Books, id: Id, x: Transaction)
    requires Keeps(t, b) && id !in t.transactions
    ensures Keeps(AddTransaction(t, id, x), b.(ledger := b.ledger + {EntryOf(t, x)}))
  {
    var u := AddTransaction(t, id, x);
    assert u.transactions[id] == x;
    forall e | e in b.ledger ensures Booked(u, e) {
      assert Booked(t, e);
      var i :| i in t.transactions && EntryOf(t, t.transactions[i]) == e;
      assert u.transactions[i] == t.transactions[i];
      assert EntryOf(u, u.transactions[i]) == e;
    }
    assert EntryOf(u, x) == EntryOf(t, x);
    CatalogueStays(t, u, b.catalogue);
    SitesStay(t, u, b.sites);
    StockStays(t, u, b.stock);
  }

  // Writes to transactions leave the other three views alone.

  lemma CatalogueStays(t: Tables, u: Tables, catalogue: map<Item, ProductData>)
    requires CatalogueIs(t, catalogue) && u.products == t.products
    ensures CatalogueIs(u, catalogue)
  {
    forall k | k in catalogue ensures Listed(u, k) { assert Listed(t, k); }
  }

  lemma SitesStay(t: Tables, u: Tables, sites: set<Site>)
    requires SitesAre(t, sites) && u.locations == t.locations
    ensures SitesAre(u, sites)
  {
    forall s | s in sites ensures Sited(u, s) { assert Sited(t, s); }
  }

  lemma SameLot(t: Tables, u: Tables, y: Batch)
    requires u.products == t.products && u.locations == t.locations
    ensures LotKeyOf(u, y) == LotKeyOf(t, y) && LotOf(u, y) == LotOf(t, y)
  {
  }

  lemma StockStays(t: Tables, u: Tables, stock: map<LotKey, Lot>)
    requires StockIs(t, stock) && u == t.(transactions := u.transactions)
    ensures StockIs(u, stock)
  {
    forall id | id in u.batches
      ensures LotKeyOf(u, u.batches[id]) in stock && stock[LotKeyOf(u, u.batches[id])] == LotOf(u, u.batches[id])
    {
      SameLot(t, u, t.batches[id]);
    }
    forall k | k in stock ensures Stocked(u, k) {
      assert Stocked(t, k);
      var i :| i in t.batches && LotKeyOf(t, t.batches[i]) == k;
      SameLot(t, u, t.batches[i]);
    }
  }

  /** `id` is free and no product has the key, or it is the one product that has it. */
  ghost predicate ProductSlot(t: Tables, id: Id, tenant: Tenant, sku: string) {
    (id !in t.products && ProductIds(t, tenant, sku) == {}) || ProductIds(t, tenant, sku) == {id}
  }

  lemma ProductPut(t: Tables, b: Books, id: Id, x: Product)
    requires ReferencesHold(t) && Keeps(t, b) && ProductSlot(t, id, x.tenant, x.sku)
    ensures Keeps(PutProduct(t, id, x), b.(catalogue := b.catalogue[ItemOf(x) := x.data]))
  {
    var u := PutProduct(t, id, x);
    SlotKeepsSkus(t, id, x);
    CataloguePut(t, b.catalogue, id, x);
    forall s | s in b.sites ensures Sited(u, s) { assert Sited(t, s); }
    LedgerKept(t, u, b.ledger);
    StockKept(t, u, b.stock);
  }

  lemma SlotKeepsSkus(t: Tables, id: Id, x: Product)
    requires ProductSlot(t, id, x.tenant, x.sku)
    ensures forall i | i in t.products :: SkuOf(PutProduct(t, id, x), i) == SkuOf(t, i)
    ensures forall i | i in t.products && i != id :: ItemOf(t.products[i]) != ItemOf(x)
    ensures id in t.products ==> ItemOf(t.products[id]) == ItemOf(x)
  {
    forall i | i in t.products ensures ItemOf(t.products[i]) == ItemOf(x) <==> i in ProductIds(t, x.tenant, x.sku) {}
    if id in t.products { assert id in ProductIds(t, x.tenant, x.sku); }
  }

  lemma CataloguePut(t: Tables, catalogue: map<Item, ProductData>, id: Id, x: Product)
    requires CatalogueIs(t, catalogue) && ProductSlot(t, id, x.tenant, x.sku)
    ensures CatalogueIs(PutProduct(t, id, x), catalogue[ItemOf(x) := x.data])
  {
    var u := PutProduct(t, id, x);
    SlotKeepsSkus(t, id, x);
    assert u.products[id] == x;
    forall k | k in catalogue && k != ItemOf(x) ensures Listed(u, k) {
      assert Listed(t, k);
      var i :| i in t.products && ItemOf(t.products[i]) == k;
      assert u.products[i] == t.products[i];
    }
    assert Listed(u, ItemOf(x));
  }

  ghost predicate BatchSlot(t: Tables, id: Id, tenant: Tenant, batchNo: string, product: Id) {
    (id !in t.batches && BatchIds(t, tenant, batchNo, product) == {}) || BatchIds(t, tenant, batchNo, product) == {id}
  }

  /** A batch's business key, with the product's SKU for its id, is as unique as its table key. */
  lemma SameLotSameBatch(t: Tables, a: Batch, c: Batch)
    requires UniqueProducts(t) && ProductOf(t, a.tenant, a.product) && ProductOf(t, c.tenant, c.product)
    requires LotKeyOf(t, a) == LotKeyOf(t, c)
    ensures a.tenant == c.tenant && a.product == c.product && a.batchNo == c.batchNo
  {
    assert SameProduct(t, a.product, c.product);
  }

  lemma BatchPut(t: Tables, b: Books, id: Id, x: Batch)
    requires UniqueProducts(t) && ReferencesHold(t) && Keeps(t, b) && ProductOf(t, x.tenant, x.product)
    requires BatchSlot(t, id, x.tenant, x.batchNo, x.product)
    ensures Keeps(PutBatch(t, id, x), b.(stock := b.stock[LotKeyOf(t, x) := LotOf(t, x)]))
  {
    var u := PutBatch(t, id, x);
    SlotSeparates(t, id, x);
    StockPut(t, b.stock, id, x);
    forall k | k in b.catalogue ensures Listed(u, k) { assert Listed(t, k); }
    forall s | s in b.sites ensures Sited(u, s) { assert Sited(t, s); }
    LedgerKept(t, u, b.ledger);
  }

  lemma StockPut(t: Tables, stock: map<LotKey, Lot>, id: Id, x: Batch)
    requires StockIs(t, stock)
    requires forall i | i in t.batches && i != id :: LotKeyOf(t, t.batches[i]) != LotKeyOf(t, x)
    requires id in t.batches ==> LotKeyOf(t, t.batches[id]) == LotKeyOf(t, x)
    ensures StockIs(PutBatch(t, id, x), stock[LotKeyOf(t, x) := LotOf(t, x)])
  {
    var u := PutBatch(t, id, x);
    assert u.batches[id] == x;
    forall i | i in u.batches
      ensures LotKeyOf(u, u.batches[i]) == LotKeyOf(t, u.batches[i]) && LotOf(u, u.batches[i]) == LotOf(t, u.batches[i])
    {}
    forall k | k in stock && k != LotKeyOf(t, x) ensures Stocked(u, k) {
      assert Stocked(t, k);
      var i :| i in t.batches && LotKeyOf(t, t.batches[i]) == k;
      assert u.batches[i] == t.batches[i];
    }
    assert Stocked(u, LotKeyOf(t, x));
  }

  lemma SlotSeparates(t: Tables, id: Id, x: Batch)
    requires UniqueProducts(t) && ReferencesHold(t) && ProductOf(t, x.tenant, x.product)
    requires BatchSlot(t, id, x.tenant, x.batchNo, x.product)
    ensures forall i | i in t.batches && i != id :: LotKeyOf(t, t.batches[i]) != LotKeyOf(t, x)
    ensures id in t.batches ==> LotKeyOf(t, t.batches[id]) == LotKeyOf(t, x)
  {
    forall i | i in t.batches && LotKeyOf(t, t.batches[i]) == LotKeyOf(t, x) ensures i == id {
      assert BatchRefers(t, i);
      SameLotSameBatch(t, t.batches[i], x);
      assert i in BatchIds(t, x.tenant, x.batchNo, x.product);
    }
    if id in t.batches { assert id in BatchIds(t, x.tenant, x.batchNo, x.product); }
  }
}
