/** Laws of a whole import on the id-level tables, for every stream of rows and every fault. */
module ImportLaws {
  import opened Wrappers
  import opened Store
  import opened Importer
  import opened Books
  import opened BookLaws
  import opened Integrity
  import opened Refinement

  function Records(rows: seq<Row>): (rs: seq<Record>)
    ensures |rs| == |rows| && forall i | 0 <= i < |rs| :: rs[i] == rows[i].record
  {
    seq(|rows|, i requires 0 <= i < |rows| => rows[i].record)
  }

  /** The records of the rows that were accepted. */
  function AcceptedRecords(rows: seq<Row>, os: seq<Outcome>): seq<Record>
    requires |rows| == |os|
  {
    if rows == [] then []
    else
      AcceptedRecords(rows[..|rows| - 1], os[..|os| - 1])
      + (if os[|os| - 1].Accepted? then [rows[|rows| - 1].record] else [])
  }

  lemma ImportSnoc(w: Work, tenant: Tenant, rows: seq<Row>)
    requires rows != []
    ensures var init := rows[..|rows| - 1];
      var row := rows[|rows| - 1];
      var (w', os) := Import(w, tenant, init);
      var (w'', o) := ImportRow(w', tenant, row.record, row.draw);
      Import(w, tenant, rows) == (w'', os + [o]) && (os + [o])[..|rows| - 1] == os
  {
  }

  // ---------- poison ----------

  lemma PoisonedRow(w: Work, tenant: Tenant, r: Record, d: Draw)
    requires w.poisoned
    ensures var (w', o) := ImportRow(w, tenant, r, d); w' == w && !o.Accepted?
  {
  }

  /** Once a statement has poisoned the session it stays poisoned, and nothing is written any more,
      though the loop goes on counting rows. */
  lemma {:induction false} PoisonIsForever(w: Work, tenant: Tenant, rows: seq<Row>, i: nat)
    requires i <= |rows| && Before(w, tenant, rows, i).poisoned
    ensures Import(w, tenant, rows).0 == Before(w, tenant, rows, i)
    ensures forall j | i <= j < |rows| :: !Import(w, tenant, rows).1[j].Accepted?
  {
    if i == |rows| {
      assert rows[..i] == rows;
    } else {
      var init := rows[..|rows| - 1];
      assert init[..i] == rows[..i];
      PoisonIsForever(w, tenant, init, i);
      ImportSnoc(w, tenant, rows);
      PoisonedRow(Import(w, tenant, init).0, tenant, rows[|rows| - 1].record, rows[|rows| - 1].draw);
    }
  }

  // ---------- refinement of whole imports ----------

  /** The row raised, was valid, and names a location: it may have created it before it raised. */
  predicate RaisedAtSite(rows: seq<Row>, os: seq<Outcome>, i: nat) {
    && i < |rows| && i < |os| && os[i].Errored? && Normalize(rows[i].record).Success?
    && SiteNamed(Normalize(rows[i].record).value).Some?
  }

  function SiteOfRow(tenant: Tenant, row: Row): Site {
    if Normalize(row.record).Success? && SiteNamed(Normalize(row.record).value).Some? then
      Site(tenant, SiteNamed(Normalize(row.record).value).value)
    else Site(tenant, "")
  }

  /** The sites named by the rows that raised. */
  ghost function RaisedSites(tenant: Tenant, rows: seq<Row>, os: seq<Outcome>): set<Site> {
    set i: nat | i < |rows| && RaisedAtSite(rows, os, i) :: SiteOfRow(tenant, rows[i])
  }

  lemma RaisedSitesSnoc(tenant: Tenant, rows: seq<Row>, os: seq<Outcome>, row: Row, o: Outcome)
    requires |rows| == |os|
    ensures RaisedSites(tenant, rows + [row], os + [o]) ==
      RaisedSites(tenant, rows, os)
      + (if RaisedAtSite(rows + [row], os + [o], |rows|) then {SiteOfRow(tenant, row)} else {})
  {
    var all, outcomes := rows + [row], os + [o];
    forall i: nat | i < |rows|
      ensures RaisedAtSite(all, outcomes, i) == RaisedAtSite(rows, os, i) && all[i] == rows[i]
    {}
    forall s | s in RaisedSites(tenant, rows, os) ensures s in RaisedSites(tenant, all, outcomes) {
      var i: nat :| i < |rows| && RaisedAtSite(rows, os, i) && s == SiteOfRow(tenant, rows[i]);
      assert RaisedAtSite(all, outcomes, i) && s == SiteOfRow(tenant, all[i]);
    }
  }

  /** Without rows that raise there are none. */
  lemma NoneRaised(tenant: Tenant, rows: seq<Row>, os: seq<Outcome>)
    requires NoneErrored(os)
    ensures RaisedSites(tenant, rows, os) == {}
  {
  }

  /** Equal books, except that `b` may list some of the sites in `extra` besides. */
  predicate UpToSites(b: Books, c: Books, extra: set<Site>) {
    b == c.(sites := b.sites) && c.sites <= b.sites <= c.sites + extra
  }

  lemma PostUpToSites(b: Books, c: Books, tenant: Tenant, r: Record, extra: set<Site>)
    requires UpToSites(b, c, extra)
    ensures Refusal(b, tenant, r) == Refusal(c, tenant, r)
    ensures UpToSites(PostRow(b, tenant, r), PostRow(c, tenant, r), extra)
  {
  }

  /** Any import that ends with the session alive keeps the books of posting exactly the accepted records,
      but that rows which raised in the client may have left the locations they name. */
  lemma {:induction false} ImportPostsAccepted(w: Work, b: Books, tenant: Tenant, rows: seq<Row>) returns (c: Books)
    requires Consistent(w.tables) && Keeps(w.tables, b)
    ensures var (w', os) := Import(w, tenant, rows);
      && Consistent(w'.tables) && Preserves(w.tables, w'.tables)
      && (!w'.poisoned ==>
            && !w.poisoned && Keeps(w'.tables, c)
            && UpToSites(c, PostAll(b, tenant, AcceptedRecords(rows, os)), RaisedSites(tenant, rows, os)))
  {
    if rows == [] {
      c := b;
    } else {
      var init, row := rows[..|rows| - 1], rows[|rows| - 1];
      var (w1, os1) := Import(w, tenant, init);
      c := ImportPostsAccepted(w, b, tenant, init);
      ImportSnoc(w, tenant, rows);
      if w1.poisoned {
        PoisonedRow(w1, tenant, row.record, row.draw);
      } else {
        c := RowPosts(w1, c, PostAll(b, tenant, AcceptedRecords(init, os1)), tenant, row, init, os1);
        var (w2, o) := ImportRow(w1, tenant, row.record, row.draw);
        PreservesTransitive(w.tables, w1.tables, w2.tables);
        PostAcceptedSnoc(b, tenant, rows, os1, o);
        assert rows == init + [row];
      }
    }
  }

  lemma PostAcceptedSnoc(b: Books, tenant: Tenant, rows: seq<Row>, os: seq<Outcome>, o: Outcome)
    requires |rows| == |os| + 1
    ensures var p := PostAll(b, tenant, AcceptedRecords(rows[..|os|], os));
      PostAll(b, tenant, AcceptedRecords(rows, os + [o])) ==
        if o.Accepted? then PostRow(p, tenant, rows[|os|].record) else p
  {
    var rs := AcceptedRecords(rows[..|os|], os);
    assert (os + [o])[..|os|] == os;
    if o.Accepted? {
      assert (rs + [rows[|os|].record])[..|rs|] == rs;
    } else {
      assert AcceptedRecords(rows, os + [o]) == rs;
    }
  }

  lemma RowPosts(w: Work, c: Books, p: Books, tenant: Tenant, row: Row, rows: seq<Row>, os: seq<Outcome>)
    returns (c': Books)
    requires Consistent(w.tables) && Keeps(w.tables, c) && |rows| == |os|
    requires UpToSites(c, p, RaisedSites(tenant, rows, os))
    ensures var (w', o) := ImportRow(w, tenant, row.record, row.draw);
      && Consistent(w'.tables) && Preserves(w.tables, w'.tables)
      && (!w'.poisoned ==>
            && !w.poisoned && Keeps(w'.tables, c')
            && UpToSites(c', if o.Accepted? then PostRow(p, tenant, row.record) else p,
                         RaisedSites(tenant, rows + [row], os + [o])))
  {
    RowRefines(w, c, tenant, row.record, row.draw);
    PostUpToSites(c, p, tenant, row.record, RaisedSites(tenant, rows, os));
    var (w', o) := ImportRow(w, tenant, row.record, row.draw);
    RaisedSitesSnoc(tenant, rows, os, row, o);
    c' := if o.Accepted? then PostRow(c, tenant, row.record)
          else if o.Errored? && !Keeps(w'.tables, c) && Normalize(row.record).Success?
                  && SiteNamed(Normalize(row.record).value).Some?
               then WithSite(c, tenant, SiteNamed(Normalize(row.record).value).value)
          else c;
  }

  predicate NoneErrored(os: seq<Outcome>) { forall i | 0 <= i < |os| :: !os[i].Errored? }

  // ---------- prefixes ----------

  /** Row `i` of an import meets the session its predecessors left. */
  lemma {:induction false} OutcomeAt(w: Work, tenant: Tenant, rows: seq<Row>, i: nat)
    requires i < |rows|
    ensures Import(w, tenant, rows).1[i]
         == ImportRow(Before(w, tenant, rows, i), tenant, rows[i].record, rows[i].draw).1
    ensures !Import(w, tenant, rows).0.poisoned ==> !Before(w, tenant, rows, i).poisoned
  {
    if Before(w, tenant, rows, i).poisoned { PoisonIsForever(w, tenant, rows, i); }
    var init := rows[..|rows| - 1];
    ImportSnoc(w, tenant, rows);
    if i < |init| {
      OutcomeAt(w, tenant, init, i);
      assert init[..i] == rows[..i];
    }
  }

  // ---------- clean imports ----------

  lemma NoneErroredBefore(w: Work, tenant: Tenant, rows: seq<Row>, i: nat)
    requires i <= |rows| && NoneErrored(Import(w, tenant, rows).1)
    ensures NoneErrored(Import(w, tenant, rows[..i]).1)
  {
    forall j | 0 <= j < i ensures Import(w, tenant, rows[..i]).1[j] == Import(w, tenant, rows).1[j] {
      OutcomeAt(w, tenant, rows, j);
      OutcomeAt(w, tenant, rows[..i], j);
      assert rows[..i][..j] == rows[..j];
    }
  }

  lemma {:induction false} CleanImportTables(w: Work, b: Books, tenant: Tenant, rows: seq<Row>)
    requires Consistent(w.tables) && Keeps(w.tables, b) && !w.poisoned && NoneErrored(Import(w, tenant, rows).1)
    ensures var w' := Import(w, tenant, rows).0;
      !w'.poisoned && Consistent(w'.tables) && Keeps(w'.tables, PostAll(b, tenant, Records(rows)))
  {
    if rows != [] {
      var n := |rows| - 1;
      NoneErroredBefore(w, tenant, rows, n);
      CleanImportTables(w, b, tenant, rows[..n]);
      OutcomeAt(w, tenant, rows, n);
      CleanRow(Before(w, tenant, rows, n), PostAll(b, tenant, Records(rows[..n])), tenant,
               rows[n].record, rows[n].draw);
      assert Records(rows)[..n] == Records(rows[..n]);
    }
  }

  /** An import in which no row raised is exactly the import on the books: same tables, same
      acceptances, same reasons for refusal. */
  lemma CleanImport(w: Work, b: Books, tenant: Tenant, rows: seq<Row>)
    requires Consistent(w.tables) && Keeps(w.tables, b) && !w.poisoned && NoneErrored(Import(w, tenant, rows).1)
    ensures var (w', os) := Import(w, tenant, rows);
      && !w'.poisoned && Consistent(w'.tables) && Keeps(w'.tables, PostAll(b, tenant, Records(rows)))
      && forall i | 0 <= i < |rows| :: Verdict(PostAll(b, tenant, Records(rows)[..i]), tenant, rows[i].record, os[i])
  {
    CleanImportTables(w, b, tenant, rows);
    forall i | 0 <= i < |rows|
      ensures Verdict(PostAll(b, tenant, Records(rows)[..i]), tenant, rows[i].record, Import(w, tenant, rows).1[i])
    {
      NoneErroredBefore(w, tenant, rows, i);
      CleanImportTables(w, b, tenant, rows[..i]);
      OutcomeAt(w, tenant, rows, i);
      assert Records(rows)[..i] == Records(rows[..i]);
      CleanRow(Before(w, tenant, rows, i), PostAll(b, tenant, Records(rows[..i])), tenant,
               rows[i].record, rows[i].draw);
    }
  }

  /** Row `i` has the record and was accepted. */
  predicate AcceptedAt(rows: seq<Row>, os: seq<Outcome>, r: Record, i: nat) {
    i < |rows| && i < |os| && rows[i].record == r && os[i].Accepted?
  }

  lemma {:induction false} AcceptedAreRecords(rows: seq<Row>, os: seq<Outcome>, r: Record)
    requires |rows| == |os|
    ensures r in AcceptedRecords(rows, os) <==> exists i :: AcceptedAt(rows, os, r, i)
  {
    if rows != [] {
      var n := |rows| - 1;
      AcceptedAreRecords(rows[..n], os[..n], r);
      if i :| AcceptedAt(rows[..n], os[..n], r, i) { assert AcceptedAt(rows, os, r, i); }
      if i :| AcceptedAt(rows, os, r, i) { assert i == n || AcceptedAt(rows[..n], os[..n], r, i); }
      assert AcceptedAt(rows, os, r, n) <==> rows[n].record == r && os[n].Accepted?;
    }
  }

  lemma AcceptedAmong(rows: seq<Row>, os: seq<Outcome>)
    requires |rows| == |os|
    ensures forall r | r in AcceptedRecords(rows, os) :: r in Records(rows)
  {
    forall r | r in AcceptedRecords(rows, os) ensures r in Records(rows) {
      AcceptedAreRecords(rows, os, r);
      var i: nat :| AcceptedAt(rows, os, r, i);
      assert Records(rows)[i] == r;
    }
  }

  ghost predicate LeavesCatalogue(rs: seq<Record>) { AllTransactions(rs) || AllBatches(rs) }

  lemma CatalogueFixed(b: Books, tenant: Tenant, rows: seq<Row>, os: seq<Outcome>)
    requires |rows| == |os| && LeavesCatalogue(Records(rows))
    ensures PostAll(b, tenant, AcceptedRecords(rows, os)).catalogue == b.catalogue
  {
    var rs := AcceptedRecords(rows, os);
    AcceptedAmong(rows, os);
    if AllTransactions(Records(rows)) {
      TransactionsUnite(b, tenant, rs);
    } else {
      BatchesFrame(b, tenant, rs);
    }
  }

  /** For transactions and batches, the products listed before the import decide every row. */
  lemma DecidedByInitialCatalogue(w: Work, b: Books, tenant: Tenant, rows: seq<Row>, i: nat)
    requires Consistent(w.tables) && Keeps(w.tables, b) && LeavesCatalogue(Records(rows)) && i < |rows|
    requires !Import(w, tenant, rows).0.poisoned
    ensures var o := Import(w, tenant, rows).1[i];
      && (o.Accepted? ==> Refusal(b, tenant, rows[i].record).None?)
      && (o.Rejected? ==> Refusal(b, tenant, rows[i].record) == Some(o.reason))
  {
    OutcomeAt(w, tenant, rows, i);
    var pre := rows[..i];
    var w1 := Before(w, tenant, rows, i);
    var c := ImportPostsAccepted(w, b, tenant, pre);
    assert forall r | r in Records(pre) :: r in Records(rows) by {
      forall j | 0 <= j < i ensures Records(pre)[j] == Records(rows)[j] {}
    }
    CatalogueFixed(b, tenant, pre, Import(w, tenant, pre).1);
    RowRefines(w1, c, tenant, rows[i].record, rows[i].draw);
  }

  // ---------- transactions at the id level ----------

  /** Importing transactions unites the ledger with the entries of the accepted records, and the locations
      with the sites of those records and at most those that raising rows left. */
  lemma TransactionImportIsUnion(w: Work, b: Books, tenant: Tenant, rows: seq<Row>) returns (sites: set<Site>)
    requires Consistent(w.tables) && Keeps(w.tables, b) && AllTransactions(Records(rows))
    requires !Import(w, tenant, rows).0.poisoned
    ensures var (w', os) := Import(w, tenant, rows);
      var accepted := AcceptedRecords(rows, os);
      var united := b.sites + SitesUsed(b, tenant, accepted);
      && Consistent(w'.tables)
      && LedgerIs(w'.tables, b.ledger + Entries(b, tenant, accepted))
      && SitesAre(w'.tables, sites) && united <= sites <= united + RaisedSites(tenant, rows, os)
      && CatalogueIs(w'.tables, b.catalogue) && StockIs(w'.tables, b.stock)
  {
    var os := Import(w, tenant, rows).1;
    var c := ImportPostsAccepted(w, b, tenant, rows);
    AcceptedTransactions(rows, os);
    TransactionsUnite(b, tenant, AcceptedRecords(rows, os));
    sites := c.sites;
  }

  lemma AcceptedTransactions(rows: seq<Row>, os: seq<Outcome>)
    requires |rows| == |os| && AllTransactions(Records(rows))
    ensures AllTransactions(AcceptedRecords(rows, os))
  {
    AcceptedAmong(rows, os);
  }

  lemma AcceptedOfKind(rows: seq<Row>, os: seq<Outcome>)
    requires |rows| == |os|
    ensures AllProducts(Records(rows)) ==> AllProducts(AcceptedRecords(rows, os))
    ensures AllBatches(Records(rows)) ==> AllBatches(AcceptedRecords(rows, os))
  {
    AcceptedAmong(rows, os);
  }

  lemma ProductsNameNoSites(tenant: Tenant, rows: seq<Row>, os: seq<Outcome>)
    requires AllProducts(Records(rows))
    ensures RaisedSites(tenant, rows, os) == {}
  {
    forall i: nat | i < |rows| ensures !RaisedAtSite(rows, os, i) {
      assert Records(rows)[i] in Records(rows);
    }
  }

  /** Importing products: each key ends with the data of the last accepted record for it, every other
      key keeps its own, and no row changes its id. */
  lemma ProductImportIsLastWriterWins(w: Work, b: Books, tenant: Tenant, rows: seq<Row>)
    returns (catalogue: map<Item, ProductData>)
    requires Consistent(w.tables) && Keeps(w.tables, b) && AllProducts(Records(rows))
    requires !Import(w, tenant, rows).0.poisoned
    ensures var (w', os) := Import(w, tenant, rows);
      var rs := AcceptedRecords(rows, os);
      && Consistent(w'.tables) && Preserves(w.tables, w'.tables) && CatalogueIs(w'.tables, catalogue)
      && (forall k :: k in catalogue <==> k in b.catalogue || LastListing(tenant, rs, k).Some?)
      && (forall k | k in catalogue :: catalogue[k] ==
            if LastListing(tenant, rs, k).Some? then LastListing(tenant, rs, k).value else b.catalogue[k])
      && SitesAre(w'.tables, b.sites) && LedgerIs(w'.tables, b.ledger) && StockIs(w'.tables, b.stock)
  {
    var os := Import(w, tenant, rows).1;
    var c := ImportPostsAccepted(w, b, tenant, rows);
    AcceptedOfKind(rows, os);
    ProductsLastWriterWins(b, tenant, AcceptedRecords(rows, os));
    ProductsNameNoSites(tenant, rows, os);
    assert c.sites == b.sites;
    catalogue := c.catalogue;
  }

  /** Importing batches, likewise; the locations are as for transactions. */
  lemma BatchImportIsLastWriterWins(w: Work, b: Books, tenant: Tenant, rows: seq<Row>)
    returns (stock: map<LotKey, Lot>, sites: set<Site>)
    requires Consistent(w.tables) && Keeps(w.tables, b) && AllBatches(Records(rows))
    requires !Import(w, tenant, rows).0.poisoned
    ensures var (w', os) := Import(w, tenant, rows);
      var rs := AcceptedRecords(rows, os);
      && Consistent(w'.tables) && Preserves(w.tables, w'.tables) && StockIs(w'.tables, stock)
      && (forall k :: k in stock <==> k in b.stock || LastLot(b, tenant, rs, k).Some?)
      && (forall k | k in stock :: stock[k] ==
            if LastLot(b, tenant, rs, k).Some? then LastLot(b, tenant, rs, k).value else b.stock[k])
      && CatalogueIs(w'.tables, b.catalogue) && LedgerIs(w'.tables, b.ledger) && SitesAre(w'.tables, sites)
      && b.sites + SitesUsed(b, tenant, rs) <= sites
      && sites <= b.sites + SitesUsed(b, tenant, rs) + RaisedSites(tenant, rows, os)
  {
    var os := Import(w, tenant, rows).1;
    var c := ImportPostsAccepted(w, b, tenant, rows);
    AcceptedOfKind(rows, os);
    BatchesLastWriterWins(b, tenant, AcceptedRecords(rows, os));
    BatchesFrame(b, tenant, AcceptedRecords(rows, os));
    stock, sites := c.stock, c.sites;
  }

  /** A transaction record that the books refuse, or already hold the entry of. */
  ghost predicate Settled(b: Books, tenant: Tenant, r: Record) {
    r.TransactionRecord? && (Refusal(b, tenant, r).None? ==> EntryFor(tenant, Normalize(r).value) in b.ledger)
  }

  lemma SettledRow(w: Work, b: Books, tenant: Tenant, r: Record, d: Draw)
    requires Consistent(w.tables) && Keeps(w.tables, b) && Settled(b, tenant, r)
    ensures ImportRow(w, tenant, r, d).0.tables == w.tables
  {
    if Normalize(r).Success? {
      var n, t := Normalize(r).value, w.tables;
      LookupsAgree(t, b.catalogue, tenant, n.sku);
      if Refusal(b, tenant, r).None? {
        var e := EntryFor(tenant, n);
        assert Booked(t, e);
        var id :| id in t.transactions && EntryOf(t, t.transactions[id]) == e;
        SettledLookups(t, tenant, n, id);
      }
    }
  }

  lemma SettledLookups(t: Tables, tenant: Tenant, n: Record, id: Id)
    requires Consistent(t) && n.TransactionRecord? && id in t.transactions
    requires EntryOf(t, t.transactions[id]) == EntryFor(tenant, n)
    ensures var x := t.transactions[id];
      && ScalarOneOrNone(ProductIds(t, tenant, n.sku)) == One(x.product)
      && ScalarOneOrNone(LocationIds(t, tenant, n.site)) == One(x.location)
      && ScalarOneOrNone(TransactionIds(t, x)) == One(id)
      && x == Transaction(tenant, x.product, x.location, n.movement, n.quantity, n.unitCost, n.reference, n.date)
  {
    var x := t.transactions[id];
    assert TransactionRefers(t, id);
    OneProduct(t, tenant, n.sku);
    OneLocation(t, tenant, n.site);
    OneTransaction(t, x);
    assert x.product in ProductIds(t, tenant, n.sku);
    assert x.location in LocationIds(t, tenant, n.site);
    assert id in TransactionIds(t, x);
  }

  lemma {:induction false} SettledImport(w: Work, b: Books, tenant: Tenant, rows: seq<Row>)
    requires Consistent(w.tables) && Keeps(w.tables, b)
    requires forall r | r in Records(rows) :: Settled(b, tenant, r)
    ensures Import(w, tenant, rows).0.tables == w.tables
  {
    if rows != [] {
      var n := |rows| - 1;
      assert forall j | 0 <= j < |rows| :: rows[j].record == Records(rows)[j];
      SettledImport(w, b, tenant, rows[..n]);
      SettledRow(Import(w, tenant, rows[..n]).0, b, tenant, rows[n].record, rows[n].draw);
    }
  }

  lemma ImportedIsSettled(b: Books, c: Books, tenant: Tenant, rows: seq<Row>, os: seq<Outcome>, i: nat)
    requires i < |rows| == |os| && AllTransactions(Records(rows)) && !os[i].Errored?
    requires UpToSites(c, PostAll(b, tenant, AcceptedRecords(rows, os)), RaisedSites(tenant, rows, os))
    requires os[i].Accepted? ==> Refusal(b, tenant, rows[i].record).None?
    requires os[i].Rejected? ==> Refusal(b, tenant, rows[i].record) == Some(os[i].reason)
    ensures Settled(c, tenant, rows[i].record)
  {
    var rs, r := AcceptedRecords(rows, os), rows[i].record;
    AcceptedTransactions(rows, os);
    TransactionsUnite(b, tenant, rs);
    assert r == Records(rows)[i];
    AcceptedAreRecords(rows, os, r);
    if os[i].Accepted? {
      assert AcceptedAt(rows, os, r, i);
      assert Bookable(b, tenant, r);
      assert EntryFor(tenant, Normalize(r).value) in Entries(b, tenant, rs);
    }
  }

  /** Importing again any of the records that did not raise, in any order and number and whatever
      the environment does this time, leaves all four tables exactly as they were. */
  lemma ReimportChangesNothing(w: Work, b: Books, tenant: Tenant, rows: seq<Row>, again: seq<Row>)
    requires Consistent(w.tables) && Keeps(w.tables, b) && AllTransactions(Records(rows))
    requires !Import(w, tenant, rows).0.poisoned
    requires forall r | r in Records(again) ::
      exists i :: 0 <= i < |rows| && rows[i].record == r && !Import(w, tenant, rows).1[i].Errored?
    ensures var w' := Import(w, tenant, rows).0; Import(w', tenant, again).0.tables == w'.tables
  {
    var (w', os) := Import(w, tenant, rows);
    var c := ImportPostsAccepted(w, b, tenant, rows);
    forall r | r in Records(again) ensures Settled(c, tenant, r) {
      var i :| 0 <= i < |rows| && rows[i].record == r && !os[i].Errored?;
      DecidedByInitialCatalogue(w, b, tenant, rows, i);
      ImportedIsSettled(b, c, tenant, rows, os, i);
    }
    SettledImport(w', c, tenant, again);
  }

  // ---------- row isolation ----------

  function WithoutRejected(rows: seq<Row>, os: seq<Outcome>): seq<Row>
    requires |rows| == |os|
  {
    if rows == [] then []
    else
      WithoutRejected(rows[..|rows| - 1], os[..|os| - 1])
      + (if os[|os| - 1].Rejected? then [] else [rows[|rows| - 1]])
  }

  lemma RejectedRow(w: Work, tenant: Tenant, r: Record, d: Draw)
    requires ImportRow(w, tenant, r, d).1.Rejected?
    ensures ImportRow(w, tenant, r, d).0 == w
  {
    match Normalize(r)
    case Failure(_) =>
    case Success(n) =>
      match n
      case ProductRecord(_, _, _, _, _, _) =>
      case TransactionRecord(_, _, _, _, _, _, _) => RejectedOnlyUnresolved(w, tenant, n, d);
      case BatchRecord(_, _, _, _, _, _) => RejectedOnlyUnresolved(w, tenant, n, d);
  }

  /** Past validation, the one ground for rejection is the product lookup, the first statement. */
  lemma RejectedOnlyUnresolved(w: Work, tenant: Tenant, n: Record, d: Draw)
    requires !n.ProductRecord?
    ensures
      var (w', o) := if n.TransactionRecord? then CreateTransaction(w, tenant, n, d) else UpsertBatch(w, tenant, n, d);
      o.Rejected? ==> w' == w && ResolveProduct(w, tenant, n.sku, d) == (w, Absent)
  {
    var (w1, p) := ResolveProduct(w, tenant, n.sku, d);
    if p.Have? && n.BatchRecord? && n.shelf.Some? {
      var (w2, l) := ResolveLocation(w1, tenant, n.shelf.value, d);
    }
  }

  /** Striking the rejected rows out of a file changes neither the tables nor what becomes of the
      other rows: a row is rejected before anything is written for it. */
  lemma {:induction false} RejectedRowsLeaveNoTrace(w: Work, tenant: Tenant, rows: seq<Row>)
    ensures var (w', os) := Import(w, tenant, rows);
      Import(w, tenant, WithoutRejected(rows, os)) == (w', Kept(os))
  {
    if rows != [] {
      var n := |rows| - 1;
      var row := rows[n];
      ImportSnoc(w, tenant, rows);
      var (w1, os1) := Import(w, tenant, rows[..n]);
      var (w', os) := Import(w, tenant, rows);
      RejectedRowsLeaveNoTrace(w, tenant, rows[..n]);
      var kept := WithoutRejected(rows[..n], os1);
      if os[n].Rejected? {
        RejectedRow(w1, tenant, row.record, row.draw);
        assert WithoutRejected(rows, os) == kept;
        assert Kept(os) == Kept(os1);
      } else {
        ImportSnoc(w, tenant, kept + [row]);
        assert (kept + [row])[..|kept|] == kept;
      }
    }
  }

  function Kept(os: seq<Outcome>): seq<Outcome> {
    if os == [] then []
    else Kept(os[..|os| - 1]) + (if os[|os| - 1].Rejected? then [] else [os[|os| - 1]])
  }

  // ---------- liveness ----------

  /** No table uses the first key for a row of its own, nor `locations` the second. */
  predicate Unused(t: Tables, id: Id, location: Id) {
    id !in t.products && id !in t.transactions && id !in t.batches && location !in t.locations
  }

  /** No statement fails and all random primary keys are new and distinct. */
  ghost predicate Undisturbed(t: Tables, rows: seq<Row>) {
    && (forall i | 0 <= i < |rows| ::
          FaultFree(rows[i].draw) && Unused(t, rows[i].draw.newId, rows[i].draw.newLocation))
    && (forall i, j | 0 <= i < j < |rows| ::
          rows[i].draw.newId != rows[j].draw.newId && rows[i].draw.newLocation != rows[j].draw.newLocation)
  }

  lemma BatchLeavesUnused(w: Work, tenant: Tenant, n: Record, product: Id, location: Option<Id>, d: Draw, a: Id, c: Id)
    requires n.BatchRecord? && Unused(w.tables, a, c) && a != d.newId
    ensures Unused(PutOnShelf(w, tenant, n, product, location, d).0.tables, a, c)
  {
    var r := ScalarOneOrNone(BatchIds(w.tables, tenant, n.batchNo, product));
    if r.One? { assert r.id in BatchIds(w.tables, tenant, n.batchNo, product); }
  }

  lemma ProductLeavesUnused(w: Work, tenant: Tenant, n: Record, d: Draw, a: Id, c: Id)
    requires n.ProductRecord? && Unused(w.tables, a, c) && a != d.newId
    ensures Unused(UpsertProduct(w, tenant, n, d).0.tables, a, c)
  {
    var r := ScalarOneOrNone(ProductIds(w.tables, tenant, n.sku));
    if r.One? { assert r.id in ProductIds(w.tables, tenant, n.sku); }
  }

  lemma ReferringRowLeavesUnused(w: Work, tenant: Tenant, n: Record, d: Draw, a: Id, c: Id)
    requires Unused(w.tables, a, c) && a != d.newId && c != d.newLocation
    ensures n.TransactionRecord? ==> Unused(CreateTransaction(w, tenant, n, d).0.tables, a, c)
    ensures n.BatchRecord? ==> Unused(UpsertBatch(w, tenant, n, d).0.tables, a, c)
  {
    if !n.ProductRecord? {
      var (w1, p) := ResolveProduct(w, tenant, n.sku, d);
      if p.Have? && n.BatchRecord? {
        BatchLeavesUnused(w1, tenant, n, p.id, None, d, a, c);
        if n.shelf.Some? {
          var (w2, l) := ResolveLocation(w1, tenant, n.shelf.value, d);
          if l.Have? { BatchLeavesUnused(w2, tenant, n, p.id, Some(l.id), d, a, c); }
        }
      }
    }
  }

  /** Every row an import adds carries one of the primary keys drawn for it. */
  lemma RowLeavesUnused(w: Work, tenant: Tenant, r: Record, d: Draw, a: Id, c: Id)
    requires Unused(w.tables, a, c) && a != d.newId && c != d.newLocation
    ensures Unused(ImportRow(w, tenant, r, d).0.tables, a, c)
  {
    match Normalize(r)
    case Failure(_) =>
    case Success(n) =>
      match n
      case ProductRecord(_, _, _, _, _, _) => ProductLeavesUnused(w, tenant, n, d, a, c);
      case TransactionRecord(_, _, _, _, _, _, _) => ReferringRowLeavesUnused(w, tenant, n, d, a, c);
      case BatchRecord(_, _, _, _, _, _) => ReferringRowLeavesUnused(w, tenant, n, d, a, c);
  }

  lemma {:induction false} ImportLeavesUnused(w: Work, tenant: Tenant, rows: seq<Row>, a: Id, c: Id)
    requires Unused(w.tables, a, c)
    requires forall i | 0 <= i < |rows| :: a != rows[i].draw.newId && c != rows[i].draw.newLocation
    ensures Unused(Import(w, tenant, rows).0.tables, a, c)
  {
    if rows != [] {
      var n := |rows| - 1;
      ImportLeavesUnused(w, tenant, rows[..n], a, c);
      RowLeavesUnused(Import(w, tenant, rows[..n]).0, tenant, rows[n].record, rows[n].draw, a, c);
    }
  }

  lemma UndisturbedLast(w: Work, tenant: Tenant, rows: seq<Row>)
    requires rows != [] && Undisturbed(w.tables, rows)
    ensures var n := |rows| - 1;
      var w1 := Import(w, tenant, rows[..n]).0;
      Undisturbed(w.tables, rows[..n]) && (!w1.poisoned ==> Smooth(w1, rows[n].draw))
  {
    var n := |rows| - 1;
    ImportLeavesUnused(w, tenant, rows[..n], rows[n].draw.newId, rows[n].draw.newLocation);
  }

  /** An undisturbed import loses no row to anything but validation. */
  lemma {:induction false} UndisturbedImport(w: Work, b: Books, tenant: Tenant, rows: seq<Row>)
    requires Consistent(w.tables) && Keeps(w.tables, b) && !w.poisoned && Undisturbed(w.tables, rows)
    ensures var (w', os) := Import(w, tenant, rows); !w'.poisoned && NoneErrored(os)
  {
    if rows != [] {
      var n := |rows| - 1;
      UndisturbedLast(w, tenant, rows);
      UndisturbedImport(w, b, tenant, rows[..n]);
      var c := ImportPostsAccepted(w, b, tenant, rows[..n]);
      var (w1, os1) := Import(w, tenant, rows[..n]);
      RowRefines(w1, c, tenant, rows[n].record, rows[n].draw);
      ImportSnoc(w, tenant, rows);
    }
  }

  // ---------- books exist and are unique ----------

  /** Every consistent set of tables keeps books. */
  lemma BooksExist(t: Tables) returns (b: Books)
    requires Consistent(t)
    ensures Keeps(t, b)
  {
    var catalogue := CatalogueExists(t);
    var stock := StockExists(t);
    var sites := set id | id in t.locations :: SiteOf(t.locations[id]);
    var ledger := set id | id in t.transactions :: EntryOf(t, t.transactions[id]);
    assert SitesAre(t, sites);
    assert LedgerIs(t, ledger);
    b := Books(catalogue, sites, ledger, stock);
  }

  lemma CatalogueExists(t: Tables) returns (catalogue: map<Item, ProductData>)
    requires UniqueProducts(t)
    ensures CatalogueIs(t, catalogue)
  {
    forall a, c | a in t.products && c in t.products && ItemOf(t.products[a]) == ItemOf(t.products[c]) ensures a == c {
      assert SameProduct(t, a, c);
    }
    catalogue := map id | id in t.products :: ItemOf(t.products[id]) := t.products[id].data;
  }

  lemma StockExists(t: Tables) returns (stock: map<LotKey, Lot>)
    requires UniqueProducts(t) && UniqueBatches(t) && ReferencesHold(t)
    ensures StockIs(t, stock)
  {
    forall a, c | a in t.batches && c in t.batches && LotKeyOf(t, t.batches[a]) == LotKeyOf(t, t.batches[c])
      ensures a == c
    {
      assert BatchRefers(t, a) && BatchRefers(t, c);
      SameLotSameBatch(t, t.batches[a], t.batches[c]);
      assert SameBatch(t, a, c);
    }
    stock := map id | id in t.batches :: LotKeyOf(t, t.batches[id]) := LotOf(t, t.batches[id]);
  }

  lemma BooksUnique(t: Tables, b: Books, c: Books)
    requires Keeps(t, b) && Keeps(t, c)
    ensures b == c
  {
    assert b.catalogue == c.catalogue by {
      forall k ensures k in b.catalogue ==> Listed(t, k) {}
      forall k ensures k in c.catalogue ==> Listed(t, k) {}
    }
    assert b.sites == c.sites by {
      forall k ensures k in b.sites ==> Sited(t, k) {}
      forall k ensures k in c.sites ==> Sited(t, k) {}
    }
    assert b.ledger == c.ledger by {
      forall k ensures k in b.ledger ==> Booked(t, k) {}
      forall k ensures k in c.ledger ==> Booked(t, k) {}
    }
    assert b.stock == c.stock by {
      forall k ensures k in b.stock ==> Stocked(t, k) {}
      forall k ensures k in c.stock ==> Stocked(t, k) {}
    }
  }

  /** When no row raised, posting the accepted records is posting all of them, and nothing is left besides. */
  lemma CleanImportPosts(w: Work, b: Books, tenant: Tenant, rows: seq<Row>)
    requires Consistent(w.tables) && Keeps(w.tables, b) && !w.poisoned && NoneErrored(Import(w, tenant, rows).1)
    ensures PostAll(b, tenant, AcceptedRecords(rows, Import(w, tenant, rows).1)) == PostAll(b, tenant, Records(rows))
  {
    var (w', os) := Import(w, tenant, rows);
    var c := ImportPostsAccepted(w, b, tenant, rows);
    CleanImportTables(w, b, tenant, rows);
    NoneRaised(tenant, rows, os);
    assert c.sites == PostAll(b, tenant, AcceptedRecords(rows, os)).sites;
    BooksUnique(w'.tables, c, PostAll(b, tenant, Records(rows)));
  }
}
