/** What importing a row does to the tables when every reference is looked up with a query: the
    normalizer of `app/integrations/normalizer.py` with its two caches taken away.

    The session is a working copy of the tables and a flag. A statement the server refuses, or a
    failed flush, poisons the session: every later statement fails as well. A statement that fails
    in the client library, before anything is sent, raises without poisoning. */
module Importer {
  import opened Wrappers
  import opened Store
  import Text

  // ---------- records as a connector yields them ----------

  datatype Record =
    | ProductRecord(sku: string, name: string, category: Option<string>, unit: string,
                    unitCost: int, sellingPrice: int)
    | TransactionRecord(sku: string, site: string, movement: Movement, quantity: int,
                        unitCost: int, reference: Option<string>, date: int)
    | BatchRecord(sku: string, batchNo: string, manufactured: Option<int>, expiry: Option<int>,
                  quantity: int, shelf: Option<string>)

  datatype RowError = MissingField(field: string) | ProductNotFound(sku: string)

  /** An optional text column: the empty string counts as absent, anything else is stripped. */
  function Optional(text: Option<string>): Option<string> {
    if text.Some? && text.value != "" then Some(Text.Strip(text.value)) else None
  }

  /** The validation step. Values are typed already, so only absent required texts are refused;
      absence is decided before stripping. */
  function Normalize(r: Record): Result<Record, RowError> {
    match r
    case ProductRecord(sku, name, category, unit, unitCost, sellingPrice) =>
      if sku == "" then Failure(MissingField("sku_code"))
      else if name == "" then Failure(MissingField("name"))
      else Success(ProductRecord(Text.Strip(sku), Text.Strip(name), Optional(category),
                                 Text.Strip(if unit == "" then "pcs" else unit), unitCost, sellingPrice))
    case TransactionRecord(sku, site, movement, quantity, unitCost, reference, date) =>
      if sku == "" then Failure(MissingField("sku_code"))
      else if site == "" then Failure(MissingField("location_name"))
      else Success(TransactionRecord(Text.Strip(sku), Text.Strip(site), movement, quantity, unitCost,
                                     Optional(reference), date))
    case BatchRecord(sku, batchNo, manufactured, expiry, quantity, shelf) =>
      if sku == "" then Failure(MissingField("sku_code"))
      else if batchNo == "" then Failure(MissingField("batch_no"))
      else Success(BatchRecord(Text.Strip(sku), Text.Strip(batchNo), manufactured, expiry, quantity,
                               Optional(shelf)))
  }

  predicate Stripped(t: Option<string>) { t.Some? ==> t.value != "" && Text.Strip(t.value) == t.value }

  /** A record whose texts carry no blanks at their ends and whose absent texts are `None`: what a
      connector that strips its cells yields. */
  predicate Tidy(r: Record) {
    Text.Strip(r.sku) == r.sku &&
    match r
    case ProductRecord(_, name, category, unit, _, _) =>
      Text.Strip(name) == name && Stripped(category) && unit != "" && Text.Strip(unit) == unit
    case TransactionRecord(_, site, _, _, _, reference, _) => Text.Strip(site) == site && Stripped(reference)
    case BatchRecord(_, batchNo, _, _, _, shelf) => Text.Strip(batchNo) == batchNo && Stripped(shelf)
  }

  /** The two texts without which a record is refused. */
  function RequiredTexts(r: Record): (string, string) {
    match r
    case ProductRecord(sku, name, _, _, _, _) => (sku, name)
    case TransactionRecord(sku, site, _, _, _, _, _) => (sku, site)
    case BatchRecord(sku, batchNo, _, _, _, _) => (sku, batchNo)
  }

  /** Validation hands a tidy record on unchanged, in every field, or refuses it for a missing text. */
  lemma NormalizeKeepsTidy(r: Record)
    requires Tidy(r)
    ensures Normalize(r).Success? <==> RequiredTexts(r).0 != "" && RequiredTexts(r).1 != ""
    ensures Normalize(r).Success? ==> Normalize(r).value == r
  {
  }

  /** Which records are refused, and for which reason: the SKU is asked for first, then the other text. */
  lemma RefusedFor(r: Record)
    ensures Normalize(r) == Failure(MissingField("sku_code")) <==> r.sku == ""
    ensures r.ProductRecord? ==> (Normalize(r) == Failure(MissingField("name")) <==> r.sku != "" && r.name == "")
    ensures r.TransactionRecord? ==>
      (Normalize(r) == Failure(MissingField("location_name")) <==> r.sku != "" && r.site == "")
    ensures r.BatchRecord? ==>
      (Normalize(r) == Failure(MissingField("batch_no")) <==> r.sku != "" && r.batchNo == "")
    ensures Normalize(r).Success? <==> RequiredTexts(r).0 != "" && RequiredTexts(r).1 != ""
  {
  }

  /** Any other record keeps its kind, its numbers and its dates. Its texts lose the blanks at their ends; an
      optional text that is empty becomes absent, and a product without a unit is counted in pieces. */
  lemma NormalizedFields(r: Record)
    requires Normalize(r).Success?
    ensures var n := Normalize(r).value;
      && n.sku == Text.Strip(r.sku)
      && (r.ProductRecord? ==>
            && n.ProductRecord? && n.name == Text.Strip(r.name)
            && n.unitCost == r.unitCost && n.sellingPrice == r.sellingPrice
            && (r.unit == "" ==> n.unit == "pcs") && (r.unit != "" ==> n.unit == Text.Strip(r.unit))
            && OptionalKept(r.category, n.category))
      && (r.TransactionRecord? ==>
            && n.TransactionRecord? && n.site == Text.Strip(r.site) && n.movement == r.movement
            && n.quantity == r.quantity && n.unitCost == r.unitCost && n.date == r.date
            && OptionalKept(r.reference, n.reference))
      && (r.BatchRecord? ==>
            && n.BatchRecord? && n.batchNo == Text.Strip(r.batchNo) && n.manufactured == r.manufactured
            && n.expiry == r.expiry && n.quantity == r.quantity && OptionalKept(r.shelf, n.shelf))
  {
    assert Text.Strip("pcs") == "pcs";
  }

  predicate OptionalKept(before: Option<string>, after: Option<string>) {
    match before
    case None => after.None?
    case Some(text) => if text == "" then after.None? else after.Some? && after.value == Text.Strip(text)
  }

  // ---------- the session ----------

  datatype Fault = Fine | ClientSide | ServerSide

  /** What the environment contributes to one row: the random primary keys drawn for it, and the
      fate of each statement it may issue. */
  datatype Draw = Draw(
    newId: Id, newLocation: Id,
    onProduct: Fault, onLocation: Fault, onLocationFlush: Fault, onStatement: Fault, onFlush: Fault)

  predicate FaultFree(d: Draw) {
    d.onProduct.Fine? && d.onLocation.Fine? && d.onLocationFlush.Fine? && d.onStatement.Fine? && d.onFlush.Fine?
  }

  datatype Work = Work(tables: Tables, poisoned: bool)

  predicate Refused(w: Work, f: Fault) { w.poisoned || f != Fine }

  function AfterRefusal(w: Work, f: Fault): Work { w.(poisoned := w.poisoned || f == ServerSide) }

  function AfterFailedFlush(w: Work): Work { w.(poisoned := true) }

  // ---------- reference resolution ----------

  datatype Resolved = Have(id: Id) | Absent | Broken

  function ResolveProduct(w: Work, tenant: Tenant, sku: string, d: Draw): (Work, Resolved) {
    if Refused(w, d.onProduct) then (AfterRefusal(w, d.onProduct), Broken)
    else
      match ScalarOneOrNone(ProductIds(w.tables, tenant, sku))
      case Missing => (w, Absent)
      case One(id) => (w, Have(id))
      case Many => (w, Broken)
  }

  /** Find or create. An insert whose primary key is taken already fails in the server. */
  function ResolveLocation(w: Work, tenant: Tenant, name: string, d: Draw): (Work, Resolved) {
    if Refused(w, d.onLocation) then (AfterRefusal(w, d.onLocation), Broken)
    else
      match ScalarOneOrNone(LocationIds(w.tables, tenant, name))
      case One(id) => (w, Have(id))
      case Many => (w, Broken)
      case Missing =>
        if d.onLocationFlush != Fine || d.newLocation in w.tables.locations then
          (AfterFailedFlush(w), Broken)
        else
          (w.(tables := AddLocation(w.tables, d.newLocation, Location(tenant, name))), Have(d.newLocation))
  }

  function AddLocation(t: Tables, id: Id, x: Location): Tables { t.(locations := t.locations[id := x]) }

  function AddTransaction(t: Tables, id: Id, x: Transaction): Tables {
    t.(transactions := t.transactions[id := x])
  }

  function PutProduct(t: Tables, id: Id, x: Product): Tables { t.(products := t.products[id := x]) }

  function PutBatch(t: Tables, id: Id, x: Batch): Tables { t.(batches := t.batches[id := x]) }

  // ---------- the three row operations ----------

  datatype Outcome = Accepted | Rejected(reason: RowError) | Errored

  function UpsertProduct(w: Work, tenant: Tenant, n: Record, d: Draw): (Work, Outcome)
    requires n.ProductRecord?
  {
    if Refused(w, d.onStatement) then (AfterRefusal(w, d.onStatement), Errored)
    else
      var x := Product(tenant, n.sku, ProductData(n.name, n.category, n.unit, n.unitCost, n.sellingPrice));
      match ScalarOneOrNone(ProductIds(w.tables, tenant, n.sku))
      case Many => (AfterRefusal(w, ServerSide), Errored)
      case One(id) => Flushed(w.(tables := PutProduct(w.tables, id, x)), d)
      case Missing =>
        if d.newId in w.tables.products then (AfterRefusal(w, ServerSide), Errored)
        else Flushed(w.(tables := PutProduct(w.tables, d.newId, x)), d)
  }

  function Flushed(w: Work, d: Draw): (Work, Outcome) {
    if d.onFlush.Fine? then (w, Accepted) else (AfterFailedFlush(w), Errored)
  }

  function CreateTransaction(w: Work, tenant: Tenant, n: Record, d: Draw): (Work, Outcome)
    requires n.TransactionRecord?
  {
    var (w1, p) := ResolveProduct(w, tenant, n.sku, d);
    if p.Absent? then (w1, Rejected(ProductNotFound(n.sku)))
    else if p.Broken? then (w1, Errored)
    else
      var (w2, l) := ResolveLocation(w1, tenant, n.site, d);
      if !l.Have? then (w2, Errored)
      else InsertIfAbsent(w2, Transaction(tenant, p.id, l.id, n.movement, n.quantity, n.unitCost,
                                          n.reference, n.date), d)
  }

  function InsertIfAbsent(w: Work, x: Transaction, d: Draw): (Work, Outcome) {
    if Refused(w, d.onStatement) then (AfterRefusal(w, d.onStatement), Errored)
    else
      match ScalarOneOrNone(TransactionIds(w.tables, x))
      case One(_) => (w, Accepted)
      case Many => (w, Errored)
      case Missing =>
        if !d.onFlush.Fine? || d.newId in w.tables.transactions then (AfterFailedFlush(w), Errored)
        else (w.(tables := AddTransaction(w.tables, d.newId, x)), Accepted)
  }

  function UpsertBatch(w: Work, tenant: Tenant, n: Record, d: Draw): (Work, Outcome)
    requires n.BatchRecord?
  {
    var (w1, p) := ResolveProduct(w, tenant, n.sku, d);
    if p.Absent? then (w1, Rejected(ProductNotFound(n.sku)))
    else if p.Broken? then (w1, Errored)
    else if n.shelf.None? || n.shelf.value == "" then
      PutOnShelf(w1, tenant, n, p.id, None, d)
    else
      var (w2, l) := ResolveLocation(w1, tenant, n.shelf.value, d);
      if !l.Have? then (w2, Errored)
      else PutOnShelf(w2, tenant, n, p.id, Some(l.id), d)
  }

  function PutOnShelf(w: Work, tenant: Tenant, n: Record, product: Id, location: Option<Id>, d: Draw): (Work, Outcome)
    requires n.BatchRecord?
  {
    if Refused(w, d.onStatement) then (AfterRefusal(w, d.onStatement), Errored)
    else
      var x := Batch(tenant, product, n.batchNo, BatchData(n.manufactured, n.expiry, n.quantity, location));
      match ScalarOneOrNone(BatchIds(w.tables, tenant, n.batchNo, product))
      case Many => (AfterRefusal(w, ServerSide), Errored)
      case One(id) => Flushed(w.(tables := PutBatch(w.tables, id, x)), d)
      case Missing =>
        if d.newId in w.tables.batches then (AfterRefusal(w, ServerSide), Errored)
        else Flushed(w.(tables := PutBatch(w.tables, d.newId, x)), d)
  }

  /** One pass through the row loop's `try` block. */
  function ImportRow(w: Work, tenant: Tenant, r: Record, d: Draw): (Work, Outcome) {
    match Normalize(r)
    case Failure(e) => (w, Rejected(e))
    case Success(n) =>
      match n
      case ProductRecord(_, _, _, _, _, _) => UpsertProduct(w, tenant, n, d)
      case TransactionRecord(_, _, _, _, _, _, _) => CreateTransaction(w, tenant, n, d)
      case BatchRecord(_, _, _, _, _, _) => UpsertBatch(w, tenant, n, d)
  }

  // ---------- whole streams ----------

  datatype Row = Row(record: Record, draw: Draw)

  function Import(w: Work, tenant: Tenant, rows: seq<Row>): (r: (Work, seq<Outcome>))
    ensures |r.1| == |rows|
  {
    if rows == [] then (w, [])
    else
      var last := |rows| - 1;
      var (w', os) := Import(w, tenant, rows[..last]);
      var (w'', o) := ImportRow(w', tenant, rows[last].record, rows[last].draw);
      (w'', os + [o])
  }

  /** The session after the first `i` rows, and what became of row `i`. */
  ghost function Before(w: Work, tenant: Tenant, rows: seq<Row>, i: nat): Work
    requires i <= |rows|
  {
    Import(w, tenant, rows[..i]).0
  }
}
