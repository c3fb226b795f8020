/** What importing a list of records amounts to on the books: set union for transactions, last
    writer wins for products and batches, and no effect at all when it is repeated. */
module BookLaws {
  import opened Wrappers
  import opened Store
  import opened Importer
  import opened Books

  ghost predicate AllProducts(rs: seq<Record>) { forall r | r in rs :: r.ProductRecord? }

  ghost predicate AllTransactions(rs: seq<Record>) { forall r | r in rs :: r.TransactionRecord? }

  ghost predicate AllBatches(rs: seq<Record>) { forall r | r in rs :: r.BatchRecord? }

  // ---------- transactions: set union ----------

  /** A transaction record whose product is listed. */
  predicate Bookable(b: Books, tenant: Tenant, r: Record) {
    r.TransactionRecord? && Refusal(b, tenant, r).None?
  }

  /** The entries that the bookable records stand for. */
  ghost function Entries(b: Books, tenant: Tenant, rs: seq<Record>): set<Entry> {
    set r | r in rs && Bookable(b, tenant, r) :: EntryFor(tenant, Normalize(r).value)
  }

  predicate Names(b: Books, tenant: Tenant, r: Record) {
    Refusal(b, tenant, r).None? && SiteNamed(Normalize(r).value).Some?
  }

  /** The sites that the records with a listed product name. */
  ghost function SitesUsed(b: Books, tenant: Tenant, rs: seq<Record>): set<Site> {
    set r | r in rs && Names(b, tenant, r) :: Site(tenant, SiteNamed(Normalize(r).value).value)
  }

  lemma EntriesSnoc(b: Books, tenant: Tenant, rs: seq<Record>, r: Record)
    ensures Entries(b, tenant, rs + [r]) ==
      Entries(b, tenant, rs) + (if Bookable(b, tenant, r) then {EntryFor(tenant, Normalize(r).value)} else {})
  {
    assert forall x :: x in rs + [r] <==> x in rs || x == r;
  }

  lemma SitesUsedSnoc(b: Books, tenant: Tenant, rs: seq<Record>, r: Record)
    ensures SitesUsed(b, tenant, rs + [r]) ==
      SitesUsed(b, tenant, rs) +
      (if Names(b, tenant, r) then {Site(tenant, SiteNamed(Normalize(r).value).value)} else {})
  {
    assert forall x :: x in rs + [r] <==> x in rs || x == r;
  }

  /** Importing transactions adds exactly the entries of the records whose product was listed to
      begin with, in whatever order and however often they occur, and the sites they name. */
  lemma {:induction false} TransactionsUnite(b: Books, tenant: Tenant, rs: seq<Record>)
    requires AllTransactions(rs)
    ensures PostAll(b, tenant, rs) ==
      b.(ledger := b.ledger + Entries(b, tenant, rs), sites := b.sites + SitesUsed(b, tenant, rs))
  {
    if rs == [] {
      assert b.ledger + Entries(b, tenant, []) == b.ledger && b.sites + SitesUsed(b, tenant, []) == b.sites;
    } else {
      var init, r := rs[..|rs| - 1], rs[|rs| - 1];
      assert r in rs && rs == init + [r];
      TransactionsUnite(b, tenant, init);
      EntriesSnoc(b, tenant, init, r);
      SitesUsedSnoc(b, tenant, init, r);
      var b1 := PostAll(b, tenant, init);
      assert Refusal(b1, tenant, r) == Refusal(b, tenant, r);
      assert PostRow(b1, tenant, r).ledger == b.ledger + Entries(b, tenant, rs);
      assert PostRow(b1, tenant, r).sites == b.sites + SitesUsed(b, tenant, rs);
    }
  }

  /** Importing again any selection of the same records, in any order, changes nothing. */
  lemma TransactionsIdempotent(b: Books, tenant: Tenant, rs: seq<Record>, again: seq<Record>)
    requires AllTransactions(rs) && forall r | r in again :: r in rs
    ensures PostAll(PostAll(b, tenant, rs), tenant, again) == PostAll(b, tenant, rs)
  {
    var b1 := PostAll(b, tenant, rs);
    TransactionsUnite(b, tenant, rs);
    TransactionsUnite(b1, tenant, again);
    assert Entries(b1, tenant, again) <= Entries(b, tenant, rs);
    assert SitesUsed(b1, tenant, again) <= SitesUsed(b, tenant, rs);
    assert b1.ledger + Entries(b1, tenant, again) == b1.ledger;
    assert b1.sites + SitesUsed(b1, tenant, again) == b1.sites;
  }

  // ---------- products: last writer wins ----------

  /** The last record in the list that sets the product's data, if any does. */
  function LastListing(tenant: Tenant, rs: seq<Record>, k: Item): Option<ProductData> {
    if rs == [] then None
    else
      var r := Normalize(rs[|rs| - 1]);
      if r.Success? && r.value.ProductRecord? && k == Item(tenant, r.value.sku) then
        Some(ProductData(r.value.name, r.value.category, r.value.unit, r.value.unitCost, r.value.sellingPrice))
      else LastListing(tenant, rs[..|rs| - 1], k)
  }

  lemma {:induction false} ProductsLastWriterWins(b: Books, tenant: Tenant, rs: seq<Record>)
    requires AllProducts(rs)
    ensures var b' := PostAll(b, tenant, rs);
      && b' == b.(catalogue := b'.catalogue)
      && (forall k :: k in b'.catalogue <==> k in b.catalogue || LastListing(tenant, rs, k).Some?)
      && (forall k | k in b'.catalogue :: b'.catalogue[k] ==
            if LastListing(tenant, rs, k).Some? then LastListing(tenant, rs, k).value else b.catalogue[k])
  {
    if rs != [] {
      ProductsLastWriterWins(b, tenant, rs[..|rs| - 1]);
    }
  }

  lemma ProductsIdempotent(b: Books, tenant: Tenant, rs: seq<Record>)
    requires AllProducts(rs)
    ensures PostAll(PostAll(b, tenant, rs), tenant, rs) == PostAll(b, tenant, rs)
  {
    ProductsLastWriterWins(b, tenant, rs);
    ProductsLastWriterWins(PostAll(b, tenant, rs), tenant, rs);
    assert PostAll(PostAll(b, tenant, rs), tenant, rs).catalogue == PostAll(b, tenant, rs).catalogue;
  }

  /** `LastListing` finds what its name says: no later valid record has the same SKU. */
  lemma {:induction false} LastListingIsLast(tenant: Tenant, rs: seq<Record>, i: nat)
    requires i < |rs| && AllProducts(rs) && Normalize(rs[i]).Success?
    requires forall j | i < j < |rs| ::
      Normalize(rs[j]).Success? ==> Normalize(rs[j]).value.sku != Normalize(rs[i]).value.sku
    ensures var n := Normalize(rs[i]).value;
      LastListing(tenant, rs, Item(tenant, n.sku)) ==
      Some(ProductData(n.name, n.category, n.unit, n.unitCost, n.sellingPrice))
  {
    if i < |rs| - 1 {
      assert rs[|rs| - 1] in rs;
      forall r | r in rs[..|rs| - 1] ensures r in rs {}
      LastListingIsLast(tenant, rs[..|rs| - 1], i);
    } else {
      assert rs[i] in rs;
    }
  }

  // ---------- batches: last writer wins among records whose product is listed ----------

  function LastLot(b: Books, tenant: Tenant, rs: seq<Record>, k: LotKey): Option<Lot> {
    if rs == [] then None
    else
      var r := rs[|rs| - 1];
      if Refusal(b, tenant, r).None? && r.BatchRecord?
         && k == LotKey(Item(tenant, Normalize(r).value.sku), Normalize(r).value.batchNo) then
        var n := Normalize(r).value;
        Some(Lot(n.manufactured, n.expiry, n.quantity, ShelfOf(n)))
      else LastLot(b, tenant, rs[..|rs| - 1], k)
  }

  lemma {:induction false} BatchesFrame(b: Books, tenant: Tenant, rs: seq<Record>)
    requires AllBatches(rs)
    ensures var b' := PostAll(b, tenant, rs); b' == b.(stock := b'.stock, sites := b.sites + SitesUsed(b, tenant, rs))
  {
    if rs == [] {
      assert b.sites + SitesUsed(b, tenant, []) == b.sites;
    } else {
      var init, r := rs[..|rs| - 1], rs[|rs| - 1];
      assert r in rs && rs == init + [r];
      BatchesFrame(b, tenant, init);
      SitesUsedSnoc(b, tenant, init, r);
      assert Refusal(PostAll(b, tenant, init), tenant, r) == Refusal(b, tenant, r);
      assert PostRow(PostAll(b, tenant, init), tenant, r).sites == b.sites + SitesUsed(b, tenant, rs);
    }
  }

  lemma {:induction false} BatchesLastWriterWins(b: Books, tenant: Tenant, rs: seq<Record>)
    requires AllBatches(rs)
    ensures var stock := PostAll(b, tenant, rs).stock;
      && (forall k :: k in stock <==> k in b.stock || LastLot(b, tenant, rs, k).Some?)
      && (forall k | k in stock :: stock[k] ==
            if LastLot(b, tenant, rs, k).Some? then LastLot(b, tenant, rs, k).value else b.stock[k])
  {
    if rs != [] {
      var init, r := rs[..|rs| - 1], rs[|rs| - 1];
      assert r in rs;
      BatchesFrame(b, tenant, init);
      BatchesLastWriterWins(b, tenant, init);
      assert Refusal(PostAll(b, tenant, init), tenant, r) == Refusal(b, tenant, r);
    }
  }

  lemma {:induction false} LastLotDependsOnCatalogue(b: Books, c: Books, tenant: Tenant, rs: seq<Record>, k: LotKey)
    requires b.catalogue == c.catalogue
    ensures LastLot(b, tenant, rs, k) == LastLot(c, tenant, rs, k)
  {
    if rs != [] { LastLotDependsOnCatalogue(b, c, tenant, rs[..|rs| - 1], k); }
  }

  lemma BatchesIdempotent(b: Books, tenant: Tenant, rs: seq<Record>)
    requires AllBatches(rs)
    ensures PostAll(PostAll(b, tenant, rs), tenant, rs) == PostAll(b, tenant, rs)
  {
    var b1 := PostAll(b, tenant, rs);
    BatchesFrame(b, tenant, rs);
    BatchesFrame(b1, tenant, rs);
    BatchesLastWriterWins(b, tenant, rs);
    BatchesLastWriterWins(b1, tenant, rs);
    forall k ensures LastLot(b1, tenant, rs, k) == LastLot(b, tenant, rs, k) {
      LastLotDependsOnCatalogue(b, b1, tenant, rs, k);
    }
    assert SitesUsed(b1, tenant, rs) == SitesUsed(b, tenant, rs);
    assert PostAll(b1, tenant, rs).stock == b1.stock;
    assert b1.sites + SitesUsed(b1, tenant, rs) == b1.sites;
  }

  // ---------- tenants ----------

  /** The same books, as far as one tenant is concerned. */
  ghost predicate SameFor(b: Books, c: Books, tenant: Tenant) {
    && (forall k: Item | k.tenant == tenant :: (k in b.catalogue <==> k in c.catalogue)
          && (k in b.catalogue ==> b.catalogue[k] == c.catalogue[k]))
    && (forall s: Site | s.tenant == tenant :: s in b.sites <==> s in c.sites)
    && (forall e: Entry | e.tenant == tenant :: e in b.ledger <==> e in c.ledger)
    && (forall k: LotKey | k.item.tenant == tenant :: (k in b.stock <==> k in c.stock)
          && (k in b.stock ==> b.stock[k] == c.stock[k]))
  }

  /** The books of all tenants but one. */
  ghost predicate SameForOthers(b: Books, c: Books, tenant: Tenant) {
    forall other: Tenant | other != tenant :: SameFor(b, c, other)
  }

  /** An import touches the books of its own tenant only. */
  lemma {:induction false} OtherTenantsUntouched(b: Books, tenant: Tenant, rs: seq<Record>)
    ensures SameForOthers(b, PostAll(b, tenant, rs), tenant)
  {
    if rs != [] {
      var init := PostAll(b, tenant, rs[..|rs| - 1]);
      OtherTenantsUntouched(b, tenant, rs[..|rs| - 1]);
      forall other: Tenant | other != tenant ensures SameFor(b, PostAll(b, tenant, rs), other) {
        assert SameFor(b, init, other);
        PostElsewhere(init, tenant, rs[|rs| - 1], other);
      }
    }
  }

  lemma PostElsewhere(b: Books, tenant: Tenant, r: Record, other: Tenant)
    requires other != tenant
    ensures SameFor(b, PostRow(b, tenant, r), other)
  {
  }

  /** And what it does there depends on nothing but that tenant's books. */
  lemma {:induction false} PostingIsLocal(b: Books, c: Books, tenant: Tenant, rs: seq<Record>)
    requires SameFor(b, c, tenant)
    ensures SameFor(PostAll(b, tenant, rs), PostAll(c, tenant, rs), tenant)
  {
    if rs != [] {
      PostingIsLocal(b, c, tenant, rs[..|rs| - 1]);
      PostRowIsLocal(PostAll(b, tenant, rs[..|rs| - 1]), PostAll(c, tenant, rs[..|rs| - 1]), tenant, rs[|rs| - 1]);
    }
  }

  lemma PostRowIsLocal(b: Books, c: Books, tenant: Tenant, r: Record)
    requires SameFor(b, c, tenant)
    ensures Refusal(b, tenant, r) == Refusal(c, tenant, r)
    ensures SameFor(PostRow(b, tenant, r), PostRow(c, tenant, r), tenant)
  {
  }

  /** `LastListing` is empty only when no record in the list sets the product's data. */
  lemma {:induction false} NoListing(tenant: Tenant, rs: seq<Record>, k: Item, i: nat)
    requires i < |rs| && LastListing(tenant, rs, k).None? && Normalize(rs[i]).Success? && rs[i].ProductRecord?
    ensures k != Item(tenant, Normalize(rs[i]).value.sku)
  {
    if i < |rs| - 1 { NoListing(tenant, rs[..|rs| - 1], k, i); }
  }

  /** `LastLot` finds the lot of the last record that is not refused and has the same key. */
  lemma {:induction false} LastLotIsLast(b: Books, tenant: Tenant, rs: seq<Record>, i: nat)
    requires i < |rs| && AllBatches(rs) && rs[i].BatchRecord? && Refusal(b, tenant, rs[i]).None?
    requires forall j | i < j < |rs| && Refusal(b, tenant, rs[j]).None? ::
      BatchKey(tenant, Normalize(rs[j]).value) != BatchKey(tenant, Normalize(rs[i]).value)
    ensures var n := Normalize(rs[i]).value;
      LastLot(b, tenant, rs, BatchKey(tenant, n)) == Some(Lot(n.manufactured, n.expiry, n.quantity, ShelfOf(n)))
  {
    var last := |rs| - 1;
    assert rs[last] in rs && rs[i] in rs;
    if i < last {
      forall r | r in rs[..last] ensures r in rs {}
      LastLotIsLast(b, tenant, rs[..last], i);
    }
  }

  function BatchKey(tenant: Tenant, n: Record): LotKey {
    LotKey(Item(tenant, n.sku), if n.BatchRecord? then n.batchNo else "")
  }
}
