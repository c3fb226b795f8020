/** The Marg export: Marg's rows become standard rows, and those become records. */
module MargExport {
  import opened Wrappers
  import opened Store
  import opened Importer
  import opened CsvConnector
  import Dates
  import Paise
  import Text

  // ---------- transforming rows ----------

  /** `_clean` of an optional cell. */
  function Clean(value: Option<string>): string {
    if value.None? then ""
    else
      var text := Text.Strip(value.value);
      if text == "-  -" || text == "- -" || text == "nan" || text == "NaN" || text == "None" then "" else text
  }

  /** `row.get(a) or row.get(b)`. */
  function Either(row: Cells, a: string, b: string): Option<string> {
    if Cell(row, a).Some? && Cell(row, a).value != "" then Cell(row, a) else Cell(row, b)
  }

  function OrElse(s: string, default: string): string { if s == "" then default else s }

  function ProductRow(row: Cells): Option<Cells> {
    var sku := Clean(Cell(row, "code"));
    var name := Clean(Either(row, "name", "billname"));
    if sku == "" || name == "" then None
    else Some(map["SKU Code" := sku, "Product Name" := name, "Category" := Clean(Cell(row, "product")),
                  "UOM" := OrElse(Clean(Cell(row, "unit")), "PCS"), "Unit Cost" := Clean(Cell(row, "prate")),
                  "Selling Price" := Clean(Cell(row, "mrp"))])
  }

  function BatchRow(row: Cells, defaultLocation: string): Option<Cells> {
    var sku := Clean(Cell(row, "code"));
    var batchNo := Clean(Either(row, "batchno", "mybatch"));
    if sku == "" || batchNo == "" then None
    else Some(map["SKU Code" := sku, "Batch No" := batchNo, "MFD" := Clean(Cell(row, "mfd")),
                  "EXP" := Clean(Cell(row, "exp")), "Quantity" := Clean(Cell(row, "balance")),
                  "Location" := OrElse(Clean(Cell(row, "godwon")), defaultLocation)])
  }

  function TransactionRow(row: Cells, defaultLocation: string): Option<Cells> {
    var sku := Clean(Cell(row, "code"));
    var quantity := Clean(Cell(row, "qty"));
    var date := Clean(Cell(row, "date"));
    if sku == "" || quantity == "" || date == "" then None
    else Some(map["SKU Code" := sku, "Location" := OrElse(Clean(Cell(row, "godwon")), defaultLocation),
                  "Transaction Type" := "out", "Quantity" := quantity, "Unit Cost" := Clean(Cell(row, "rate")),
                  "Reference No" := Clean(Either(row, "vcn", "voucher")), "Transaction Date" := date])
  }

  /** Marg's ways of saying nothing. */
  const NOTHING_TEXTS := {"", "-  -", "- -", "nan", "NaN", "None"}

  /** A cell that says nothing is emptied; any other loses the blanks at its ends. */
  lemma CleanIff(value: Option<string>)
    ensures Clean(value) == "" <==> value.None? || Text.Strip(value.value) in NOTHING_TEXTS
    ensures Clean(value) != "" ==> Clean(value) == Text.Strip(value.value)
  {
  }

  /** The first of two columns counts when it is there and not empty, else the second. */
  lemma EitherIff(row: Cells, a: string, b: string)
    ensures a in row && row[a] != "" ==> Either(row, a, b) == Some(row[a])
    ensures a !in row || row[a] == "" ==> Either(row, a, b) == (if b in row then Some(row[b]) else None)
  {
  }

  /** A default is for the empty text alone. */
  lemma DefaultIff(s: string, default: string)
    ensures s == "" ==> OrElse(s, default) == default
    ensures s != "" ==> OrElse(s, default) == s
  {
  }

  /** The rows that a transformation keeps, in order. */
  function Transformed(rows: seq<Cells>, transform: Cells -> Option<Cells>): seq<Cells> {
    if rows == [] then []
    else
      Transformed(rows[..|rows| - 1], transform)
      + (if transform(rows[|rows| - 1]).Some? then [transform(rows[|rows| - 1]).value] else [])
  }

  /** The three `transform_*_rows` loops. */
  method TransformRows(rows: seq<Cells>, transform: Cells -> Option<Cells>) returns (transformed: seq<Cells>)
    ensures transformed == Transformed(rows, transform)
  {
    transformed := [];
    for i := 0 to |rows|
      invariant transformed == Transformed(rows[..i], transform)
    {
      assert rows[..i + 1][..i] == rows[..i];
      var row := transform(rows[i]);
      if row.Some? { transformed := transformed + [row.value]; }
    }
    assert rows[..|rows|] == rows;
  }

  /** Row by row: what one stretch of rows gives comes before what the next one gives, and a single row gives its
      transformation or nothing. */
  lemma {:induction false} TransformedInOrder(before: seq<Cells>, after: seq<Cells>, transform: Cells -> Option<Cells>)
    ensures Transformed(before + after, transform) == Transformed(before, transform) + Transformed(after, transform)
    ensures |after| == 1 ==>
      Transformed(after, transform) == match transform(after[0]) case None => [] case Some(x) => [x]
  {
    if after == [] {
      assert before + after == before;
    } else {
      var n := |after| - 1;
      assert (before + after)[..|before + after| - 1] == before + after[..n];
      TransformedInOrder(before, after[..n], transform);
      assert (before + after)[|before + after| - 1] == after[n];
    }
  }

  lemma {:induction false} TransformedFrom(rows: seq<Cells>, transform: Cells -> Option<Cells>, r: Cells)
    requires r in Transformed(rows, transform)
    ensures exists row :: row in rows && transform(row) == Some(r)
  {
    var n := |rows| - 1;
    if r in Transformed(rows[..n], transform) {
      TransformedFrom(rows[..n], transform, r);
      var row :| row in rows[..n] && transform(row) == Some(r);
      assert row in rows;
    } else {
      assert rows[n] in rows;
    }
  }

  lemma CleanIsStripped(v: Option<string>)
    ensures Text.Strip(Clean(v)) == Clean(v)
  {
    if v.Some? { Text.StripTwice(v.value); }
  }

  /** What is left of a standard row when pandas has read it back: blank cells are missing cells. */
  function ReadBack(row: Cells): Cells { map c | c in row && row[c] != "" :: row[c] }

  // ---------- what becomes of each column ----------

  /** What the connector makes of an exported column, blank or not. */
  function Exported(text: string): Option<string> { if text == "" then None else Some(text) }

  function AsNumber(text: string): Paise.PyValue { if text == "" then Paise.IntValue(0) else Paise.StrValue(text) }

  lemma BlankIsMissing(r: Cells, column: string)
    requires column in r
    ensures Cell(ReadBack(r), column) == Exported(r[column])
    ensures GetNumber(ReadBack(r), column) == AsNumber(r[column])
  {
  }

  lemma CleanIsOptional(v: Option<string>, m: Cells, column: string)
    requires Cell(m, column) == Exported(Clean(v))
    ensures GetText(m, column) == Exported(Clean(v)) && Text.Strip(Get(m, column, "")) == Clean(v)
  {
    CleanIsStripped(v);
  }

  predicate ProductColumns(row: Cells, x: Cells) {
    && Cell(x, "SKU Code") == Some(Clean(Cell(row, "code")))
    && Cell(x, "Product Name") == Some(Clean(Either(row, "name", "billname")))
    && Cell(x, "Category") == Some(Clean(Cell(row, "product")))
    && Cell(x, "UOM") == Some(OrElse(Clean(Cell(row, "unit")), "PCS"))
    && Cell(x, "Unit Cost") == Some(Clean(Cell(row, "prate")))
    && Cell(x, "Selling Price") == Some(Clean(Cell(row, "mrp")))
  }

  predicate BatchColumns(row: Cells, defaultLocation: string, x: Cells) {
    && Cell(x, "SKU Code") == Some(Clean(Cell(row, "code")))
    && Cell(x, "Batch No") == Some(Clean(Either(row, "batchno", "mybatch")))
    && Cell(x, "MFD") == Some(Clean(Cell(row, "mfd"))) && Cell(x, "EXP") == Some(Clean(Cell(row, "exp")))
    && Cell(x, "Quantity") == Some(Clean(Cell(row, "balance")))
    && Cell(x, "Location") == Some(OrElse(Clean(Cell(row, "godwon")), defaultLocation))
  }

  predicate TransactionColumns(row: Cells, defaultLocation: string, x: Cells) {
    && Cell(x, "SKU Code") == Some(Clean(Cell(row, "code")))
    && Cell(x, "Location") == Some(OrElse(Clean(Cell(row, "godwon")), defaultLocation))
    && Cell(x, "Transaction Type") == Some(MovementText(Out)) && Cell(x, "Quantity") == Some(Clean(Cell(row, "qty")))
    && Cell(x, "Unit Cost") == Some(Clean(Cell(row, "rate")))
    && Cell(x, "Reference No") == Some(Clean(Either(row, "vcn", "voucher")))
    && Cell(x, "Transaction Date") == Some(Clean(Cell(row, "date")))
  }

  lemma ProductRowColumns(row: Cells)
    requires ProductRow(row).Some?
    ensures ProductColumns(row, ProductRow(row).value)
  {
  }

  lemma BatchRowColumns(row: Cells, defaultLocation: string)
    requires BatchRow(row, defaultLocation).Some?
    ensures BatchColumns(row, defaultLocation, BatchRow(row, defaultLocation).value)
  {
  }

  lemma TransactionRowColumns(row: Cells, defaultLocation: string)
    requires TransactionRow(row, defaultLocation).Some?
    ensures TransactionColumns(row, defaultLocation, TransactionRow(row, defaultLocation).value)
  {
  }

  // Each field of a record comes from its own column of Marg's row.

  ghost predicate IsProductOf(row: Cells, r: Record) {
    && r.ProductRecord?
    && r.sku == Clean(Cell(row, "code")) && r.name == Clean(Either(row, "name", "billname"))
    && r.category == Exported(Clean(Cell(row, "product"))) && r.unit == OrElse(Clean(Cell(row, "unit")), "PCS")
    && Paise.ConnectorToPaise(AsNumber(Clean(Cell(row, "prate")))) == Paise.Value(r.unitCost)
    && Paise.ConnectorToPaise(AsNumber(Clean(Cell(row, "mrp")))) == Paise.Value(r.sellingPrice)
  }

  /** A row without a godown goes to the default location. */
  ghost predicate IsBatchOf(row: Cells, defaultLocation: string, r: Record) {
    && r.BatchRecord?
    && r.sku == Clean(Cell(row, "code")) && r.batchNo == Clean(Either(row, "batchno", "mybatch"))
    && r.manufactured == DateOf(Clean(Cell(row, "mfd"))) && r.expiry == DateOf(Clean(Cell(row, "exp")))
    && Paise.ConnectorToInt(AsNumber(Clean(Cell(row, "balance")))) == Paise.Value(r.quantity)
    && r.shelf == LocationOfRow(row, defaultLocation)
  }

  /** Every dispatch is a movement out. */
  ghost predicate IsDispatchOf(row: Cells, defaultLocation: string, otherwise: int, r: Record) {
    var day := DateOf(Clean(Cell(row, "date")));
    && r.TransactionRecord? && r.movement == Out
    && r.sku == Clean(Cell(row, "code")) && Exported(r.site) == NotBlank(LocationOfRow(row, defaultLocation))
    && Paise.ConnectorToInt(AsNumber(Clean(Cell(row, "qty")))) == Paise.Value(r.quantity)
    && Paise.ConnectorToPaise(AsNumber(Clean(Cell(row, "rate")))) == Paise.Value(r.unitCost)
    && r.reference == Exported(Clean(Either(row, "vcn", "voucher")))
    && r.date == if day.Some? then Midnight(day.value) else otherwise
  }

  function DateOf(text: string): Option<int> {
    if text == "" || Dates.ConnectorToDate(text).None? then None
    else Some(DayNumber(Dates.ConnectorToDate(text).value))
  }

  /** The location as the connector makes it: missing if the cell is empty, else stripped. */
  function LocationOfRow(row: Cells, defaultLocation: string): Option<string> {
    var location := OrElse(Clean(Cell(row, "godwon")), defaultLocation);
    if location == "" then None else Some(Text.Strip(location))
  }

  function NotBlank(text: Option<string>): Option<string> { if text == Some("") then None else text }

  lemma ProductFields(row: Cells, x: Cells)
    requires ProductRow(row) == Some(x)
    ensures MapToProduct(ReadBack(x)).Success? ==> IsProductOf(row, MapToProduct(ReadBack(x)).value)
  {
    ProductRowColumns(row);
    if MapToProduct(ReadBack(x)).Success? { ProductColumnsRead(row, x); }
  }

  lemma ProductColumnsRead(row: Cells, x: Cells)
    requires ProductColumns(row, x) && MapToProduct(ReadBack(x)).Success?
    ensures IsProductOf(row, MapToProduct(ReadBack(x)).value)
  {
    ProductCells(ReadBack(x));
    BlankIsMissing(x, "SKU Code");
    BlankIsMissing(x, "Product Name");
    BlankIsMissing(x, "Category");
    BlankIsMissing(x, "UOM");
    BlankIsMissing(x, "Unit Cost");
    BlankIsMissing(x, "Selling Price");
    CleanIsOptional(Cell(row, "code"), ReadBack(x), "SKU Code");
    CleanIsOptional(Either(row, "name", "billname"), ReadBack(x), "Product Name");
    CleanIsOptional(Cell(row, "product"), ReadBack(x), "Category");
    CleanIsStripped(Cell(row, "unit"));
  }

  lemma BatchFields(row: Cells, defaultLocation: string, x: Cells)
    requires BatchRow(row, defaultLocation) == Some(x)
    ensures MapToBatch(ReadBack(x)).Success? ==> IsBatchOf(row, defaultLocation, MapToBatch(ReadBack(x)).value)
  {
    BatchRowColumns(row, defaultLocation);
    if MapToBatch(ReadBack(x)).Success? { BatchColumnsRead(row, defaultLocation, x); }
  }

  lemma BatchColumnsRead(row: Cells, defaultLocation: string, x: Cells)
    requires BatchColumns(row, defaultLocation, x) && MapToBatch(ReadBack(x)).Success?
    ensures IsBatchOf(row, defaultLocation, MapToBatch(ReadBack(x)).value)
  {
    BatchCells(ReadBack(x));
    BlankIsMissing(x, "SKU Code");
    BlankIsMissing(x, "Batch No");
    BlankIsMissing(x, "MFD");
    BlankIsMissing(x, "EXP");
    BlankIsMissing(x, "Quantity");
    BlankIsMissing(x, "Location");
    CleanIsOptional(Cell(row, "code"), ReadBack(x), "SKU Code");
    CleanIsOptional(Either(row, "batchno", "mybatch"), ReadBack(x), "Batch No");
  }

  lemma TransactionFields(row: Cells, defaultLocation: string, x: Cells, otherwise: int)
    requires TransactionRow(row, defaultLocation) == Some(x)
    ensures MapToTransaction(ReadBack(x), otherwise).Success? ==>
      IsDispatchOf(row, defaultLocation, otherwise, MapToTransaction(ReadBack(x), otherwise).value)
  {
    TransactionRowColumns(row, defaultLocation);
    if MapToTransaction(ReadBack(x), otherwise).Success? {
      TransactionColumnsRead(row, defaultLocation, x, otherwise);
    }
  }

  lemma TransactionColumnsRead(row: Cells, defaultLocation: string, x: Cells, otherwise: int)
    requires TransactionColumns(row, defaultLocation, x) && MapToTransaction(ReadBack(x), otherwise).Success?
    ensures IsDispatchOf(row, defaultLocation, otherwise, MapToTransaction(ReadBack(x), otherwise).value)
  {
    TransactionCells(ReadBack(x), otherwise);
    BlankIsMissing(x, "SKU Code");
    BlankIsMissing(x, "Location");
    BlankIsMissing(x, "Transaction Type");
    BlankIsMissing(x, "Quantity");
    BlankIsMissing(x, "Unit Cost");
    BlankIsMissing(x, "Reference No");
    BlankIsMissing(x, "Transaction Date");
    CleanIsOptional(Cell(row, "code"), ReadBack(x), "SKU Code");
    CleanIsOptional(Either(row, "vcn", "voucher"), ReadBack(x), "Reference No");
    MovementReads(Out);
    assert Text.Strip("") == "";
  }

  // ---------- which transformed rows are valid ----------

  /** The columns a row is refused without. */
  lemma RowIsKept(row: Cells, defaultLocation: string)
    ensures ProductRow(row).Some? <==> Clean(Cell(row, "code")) != "" && Clean(Either(row, "name", "billname")) != ""
    ensures BatchRow(row, defaultLocation).Some? <==>
      Clean(Cell(row, "code")) != "" && Clean(Either(row, "batchno", "mybatch")) != ""
    ensures TransactionRow(row, defaultLocation).Some? <==>
      Clean(Cell(row, "code")) != "" && Clean(Cell(row, "qty")) != "" && Clean(Cell(row, "date")) != ""
  {
  }

  /** No transformed product row is lost to validation, and its record has the SKU of the row. */
  lemma ProductRowValid(row: Cells, x: Cells)
    requires ProductRow(row) == Some(x)
    ensures MapToProduct(ReadBack(x)).Success? ==>
      var n := Normalize(MapToProduct(ReadBack(x)).value);
      n.Success? && n.value.ProductRecord? && n.value.sku == Clean(Cell(row, "code"))
  {
    ProductFields(row, x);
    RowIsKept(row, "");
    CleanIsStripped(Cell(row, "code"));
  }

  /** Nor is any batch row. */
  lemma BatchRowValid(row: Cells, defaultLocation: string, x: Cells)
    requires BatchRow(row, defaultLocation) == Some(x)
    ensures MapToBatch(ReadBack(x)).Success? ==>
      var n := Normalize(MapToBatch(ReadBack(x)).value);
      n.Success? && n.value.BatchRecord? && n.value.sku == Clean(Cell(row, "code"))
  {
    BatchFields(row, defaultLocation, x);
    RowIsKept(row, defaultLocation);
    CleanIsStripped(Cell(row, "code"));
  }

  /** A dispatch row is, exactly when neither it nor the default names a location. */
  lemma TransactionRowValidIff(row: Cells, defaultLocation: string, x: Cells, otherwise: int)
    requires TransactionRow(row, defaultLocation) == Some(x)
    ensures MapToTransaction(ReadBack(x), otherwise).Success? ==>
      var n := Normalize(MapToTransaction(ReadBack(x), otherwise).value);
      && (n.Success? <==> Clean(Cell(row, "godwon")) != "" || Text.Strip(defaultLocation) != "")
      && (n.Success? ==> n.value.TransactionRecord? && n.value.sku == Clean(Cell(row, "code")))
  {
    TransactionFields(row, defaultLocation, x, otherwise);
    RowIsKept(row, defaultLocation);
    CleanIsStripped(Cell(row, "code"));
    CleanIsStripped(Cell(row, "godwon"));
    assert Text.Strip("") == "";
  }

  // ---------- transformed rows ----------

  function SkuCell(x: Cells): Option<string> { Cell(x, "SKU Code") }

  /** The record of a transformed row passes validation, with the SKU that stands in the row. */
  predicate ValidFor(x: Cells, n: Result<Record, RowError>) {
    n.Success? && SkuCell(x) == Some(n.value.sku)
  }

  lemma TransformedProductValid(marg: seq<Cells>, x: Cells)
    requires x in Transformed(marg, ProductRow) && MapToProduct(ReadBack(x)).Success?
    ensures ValidFor(x, Normalize(MapToProduct(ReadBack(x)).value))
    ensures MapToProduct(ReadBack(x)).value.ProductRecord?
  {
    TransformedFrom(marg, ProductRow, x);
    var row :| row in marg && ProductRow(row) == Some(x);
    ProductFields(row, x);
    ProductRowValid(row, x);
    ProductRowColumns(row);
  }

  function BatchTransform(defaultLocation: string): Cells -> Option<Cells> {
    (row: Cells) => BatchRow(row, defaultLocation)
  }

  lemma TransformedBatchValid(marg: seq<Cells>, defaultLocation: string, x: Cells)
    requires x in Transformed(marg, BatchTransform(defaultLocation)) && MapToBatch(ReadBack(x)).Success?
    ensures ValidFor(x, Normalize(MapToBatch(ReadBack(x)).value))
  {
    TransformedFrom(marg, BatchTransform(defaultLocation), x);
    var row :| row in marg && BatchTransform(defaultLocation)(row) == Some(x);
    BatchRowValid(row, defaultLocation, x);
    BatchRowColumns(row, defaultLocation);
  }

  function DispatchTransform(defaultLocation: string): Cells -> Option<Cells> {
    (row: Cells) => TransactionRow(row, defaultLocation)
  }

  /** For a dispatch row, unless it has no location: its cell is then blank. */
  lemma TransformedDispatchValidIff(marg: seq<Cells>, defaultLocation: string, x: Cells, otherwise: int)
    requires x in Transformed(marg, DispatchTransform(defaultLocation))
    requires MapToTransaction(ReadBack(x), otherwise).Success?
    ensures var n := Normalize(MapToTransaction(ReadBack(x), otherwise).value);
      && "Location" in x && (n.Success? <==> Text.Strip(x["Location"]) != "")
      && (n.Success? ==> ValidFor(x, n))
  {
    TransformedFrom(marg, DispatchTransform(defaultLocation), x);
    var row :| row in marg && DispatchTransform(defaultLocation)(row) == Some(x);
    TransactionRowValidIff(row, defaultLocation, x, otherwise);
    TransactionRowColumns(row, defaultLocation);
    CleanIsStripped(Cell(row, "godwon"));
  }
}
