/** The CSV connector: from rows of cells to records. A row holds the non-missing cells of a line
    under their column names, all of them text. */
module CsvConnector {
  import opened Wrappers
  import opened Store
  import opened Importer
  import opened Paise
  import opened Overflow
  import Dates
  import Text

  type Cells = map<string, string>

  /** Target field to source column, in the dictionary's order. */
  datatype Mapping = Mapping(target: string, source: string)

  ghost predicate DistinctTargets(mapping: seq<Mapping>) {
    forall i, j | 0 <= i < j < |mapping| :: mapping[i].target != mapping[j].target
  }

  function Mapped(row: Cells, mapping: seq<Mapping>): Cells {
    if mapping == [] then map[]
    else
      var p := mapping[|mapping| - 1];
      var m := Mapped(row, mapping[..|mapping| - 1]);
      if p.source in row then m[p.target := row[p.source]] else m
  }

  /** `_apply_mapping`. */
  method ApplyMapping(row: Cells, mapping: seq<Mapping>) returns (mapped: Cells)
    ensures mapped == Mapped(row, mapping)
  {
    mapped := map[];
    for i := 0 to |mapping|
      invariant mapped == Mapped(row, mapping[..i])
    {
      assert mapping[..i + 1][..i] == mapping[..i];
      if mapping[i].source in row { mapped := mapped[mapping[i].target := row[mapping[i].source]]; }
    }
    assert mapping[..|mapping|] == mapping;
  }

  /** Each target field holds the cell of its own column, or is missing with it. */
  lemma {:induction false} MappedField(row: Cells, mapping: seq<Mapping>, i: nat)
    requires DistinctTargets(mapping) && i < |mapping|
    ensures mapping[i].target in Mapped(row, mapping) <==> mapping[i].source in row
    ensures mapping[i].source in row ==> Mapped(row, mapping)[mapping[i].target] == row[mapping[i].source]
  {
    var n := |mapping| - 1;
    if i < n {
      assert mapping[..n][i] == mapping[i];
      MappedField(row, mapping[..n], i);
    } else {
      NoTarget(row, mapping[..n], mapping[n].target);
    }
  }

  lemma {:induction false} NoTarget(row: Cells, mapping: seq<Mapping>, target: string)
    requires forall j | 0 <= j < |mapping| :: mapping[j].target != target
    ensures target !in Mapped(row, mapping)
  {
    if mapping != [] { NoTarget(row, mapping[..|mapping| - 1], target); }
  }

  const PRODUCT_MAPPING := [
    Mapping("sku_code", "SKU Code"), Mapping("name", "Product Name"), Mapping("category", "Category"),
    Mapping("unit_of_measure", "UOM"), Mapping("unit_cost_paise", "Unit Cost"),
    Mapping("selling_price_paise", "Selling Price")]

  const TRANSACTION_MAPPING := [
    Mapping("sku_code", "SKU Code"), Mapping("location_name", "Location"),
    Mapping("transaction_type", "Transaction Type"), Mapping("quantity", "Quantity"),
    Mapping("unit_cost_paise", "Unit Cost"), Mapping("reference_no", "Reference No"),
    Mapping("transaction_date", "Transaction Date")]

  const BATCH_MAPPING := [
    Mapping("sku_code", "SKU Code"), Mapping("batch_no", "Batch No"), Mapping("manufactured_date", "MFD"),
    Mapping("expiry_date", "EXP"), Mapping("quantity", "Quantity"), Mapping("location_name", "Location")]

  // ---------- from cells to records ----------

  function Get(m: Cells, field: string, default: string): string { if field in m then m[field] else default }

  function GetText(m: Cells, field: string): Option<string> {
    if field in m && m[field] != "" then Some(Text.Strip(m[field])) else None
  }

  /** A numeric field: the cell's text, or the integer 0. */
  function GetNumber(m: Cells, field: string): PyValue {
    if field in m then StrValue(m[field]) else IntValue(0)
  }

  function ToMovement(s: string): Movement {
    var t := Lower(Text.Strip(s));
    if t == "out" then Out
    else if t == "transfer" then Transfer
    else if t == "return" then Return
    else if t == "adjustment" then Adjustment
    else In
  }

  /** A number that keeps the order and identity of dates. */
  function DayNumber(x: Dates.Date): int { 10000 * x.year + 100 * x.month + x.day }

  /** And one for moments, the start of the day. */
  function Midnight(day: int): int { 86400 * day }

  function GetDate(m: Cells, field: string): Option<int> {
    if field !in m then None
    else
      match Dates.ConnectorToDate(m[field])
      case None => None
      case Some(x) => Some(DayNumber(x))
  }

  /** `_map_to_product`; the failure is an OverflowError, which ends the stream. */
  ghost function MapToProduct(row: Cells): Result<Record, Converted> {
    var m := Mapped(row, PRODUCT_MAPPING);
    var cost := ConnectorToPaise(GetNumber(m, "unit_cost_paise"));
    var price := ConnectorToPaise(GetNumber(m, "selling_price_paise"));
    if !cost.Value? then Failure(cost)
    else if !price.Value? then Failure(price)
    else Success(ProductRecord(Text.Strip(Get(m, "sku_code", "")), Text.Strip(Get(m, "name", "")),
                               GetText(m, "category"), Text.Strip(Get(m, "unit_of_measure", "pcs")), cost.n, price.n))
  }

  /** `_map_to_transaction`. When the cell is not a date, `otherwise` is what `_to_datetime` goes on to
      make of it: a date with a time of day, or the present. */
  ghost function MapToTransaction(row: Cells, otherwise: int): Result<Record, Converted> {
    var m := Mapped(row, TRANSACTION_MAPPING);
    var quantity := ConnectorToInt(GetNumber(m, "quantity"));
    var cost := ConnectorToPaise(GetNumber(m, "unit_cost_paise"));
    var day := GetDate(m, "transaction_date");
    if !quantity.Value? then Failure(quantity)
    else if !cost.Value? then Failure(cost)
    else Success(TransactionRecord(Text.Strip(Get(m, "sku_code", "")), Text.Strip(Get(m, "location_name", "")),
                                   ToMovement(Get(m, "transaction_type", "in")), quantity.n, cost.n,
                                   GetText(m, "reference_no"), if day.Some? then Midnight(day.value) else otherwise))
  }

  /** `_map_to_batch`. */
  ghost function MapToBatch(row: Cells): Result<Record, Converted> {
    var m := Mapped(row, BATCH_MAPPING);
    var quantity := ConnectorToInt(GetNumber(m, "quantity"));
    if !quantity.Value? then Failure(quantity)
    else Success(BatchRecord(Text.Strip(Get(m, "sku_code", "")), Text.Strip(Get(m, "batch_no", "")),
                             GetDate(m, "manufactured_date"), GetDate(m, "expiry_date"), quantity.n,
                             GetText(m, "location_name")))
  }

  // ---------- movements, dates, and cells that are not there ----------

  /** The same text, but for capital letters in the first. */
  predicate SameButCapitals(s: string, t: string) {
    |s| == |t| && forall i | 0 <= i < |s| :: s[i] == t[i] || ('A' <= s[i] <= 'Z' && t[i] as int == s[i] as int + 32)
  }

  lemma {:induction false} LowerIff(s: string, t: string)
    requires forall i | 0 <= i < |t| :: !('A' <= t[i] <= 'Z')
    ensures Lower(s) == t <==> SameButCapitals(s, t)
  {
    if s != "" && t != "" {
      LowerIff(s[1..], t[1..]);
      var c := if 'A' <= s[0] <= 'Z' then (s[0] as int + 32) as char else s[0];
      assert Lower(s) == [c] + Lower(s[1..]);
      assert t == [t[0]] + t[1..];
      assert SameButCapitals(s, t) <==> SameButCapitals(s[..1], t[..1]) && SameButCapitals(s[1..], t[1..]) by {
        assert forall i | 0 < i < |s| :: s[i] == s[1..][i - 1];
        assert forall i | 0 < i < |t| :: t[i] == t[1..][i - 1];
      }
      assert Lower(s) == t <==> c == t[0] && Lower(s[1..]) == t[1..];
    }
  }

  /** The type of a transaction is named by its word, in capitals or not, with blanks around it or not; any other
      text means `in`. */
  lemma MovementIff(s: string, m: Movement)
    ensures ToMovement(s) == m <==>
      if m.In? then
        forall other: Movement :: SameButCapitals(Text.Strip(s), MovementText(other)) ==> other.In?
      else SameButCapitals(Text.Strip(s), MovementText(m))
  {
    forall other: Movement
      ensures Lower(Text.Strip(s)) == MovementText(other) <==> SameButCapitals(Text.Strip(s), MovementText(other))
    {
      LowerIff(Text.Strip(s), MovementText(other));
    }
    MovementOf(Lower(Text.Strip(s)), s);
  }

  lemma MovementOf(t: string, s: string)
    requires t == Lower(Text.Strip(s))
    ensures forall m: Movement :: t == MovementText(m) ==> ToMovement(s) == m
    ensures (forall m: Movement :: t != MovementText(m)) ==> ToMovement(s).In?
    ensures ToMovement(s) != In ==> t == MovementText(ToMovement(s))
  {
    if ToMovement(s) != In { assert t == MovementText(ToMovement(s)); }
  }

  /** Day numbers are in the order of the dates, and no two dates share one. */
  lemma DayNumbersOrder(x: Dates.Date, y: Dates.Date)
    requires Dates.ValidDate(x) && Dates.ValidDate(y)
    ensures DayNumber(x) < DayNumber(y) <==>
      x.year < y.year || (x.year == y.year && (x.month < y.month || (x.month == y.month && x.day < y.day)))
    ensures DayNumber(x) == DayNumber(y) <==> x == y
    ensures Midnight(DayNumber(x)) < Midnight(DayNumber(y)) <==> DayNumber(x) < DayNumber(y)
  {
  }

  /** A missing column counts as zero, as no date, and as no text. */
  lemma MissingColumn(row: Cells, column: string)
    requires column !in row
    ensures ConnectorToPaise(GetNumber(row, column)) == Value(0) && ConnectorToInt(GetNumber(row, column)) == Value(0)
    ensures GetDate(row, column).None? && GetText(row, column).None?
  {
    TwiceRounded(0);
    TruncatesExactly(0);
    assert Hundredths(0) == 0 as real;
  }

  /** A date column holds the day that the text in it is a date of, if it is one. */
  lemma DateColumn(row: Cells, column: string)
    requires column in row
    ensures GetDate(row, column).Some? <==> Dates.ConnectorToDate(row[column]).Some?
    ensures GetDate(row, column).Some? ==>
      exists x :: Dates.ConnectorToDate(row[column]) == Some(x) && GetDate(row, column).value == DayNumber(x)
  {
  }

  /** An optional text is absent when its cell is empty; a cell of blanks alone is an empty text. */
  lemma TextColumn(row: Cells, column: string)
    requires column in row
    ensures GetText(row, column).None? <==> row[column] == ""
    ensures GetText(row, column).Some? ==> GetText(row, column).value == Text.Strip(row[column])
  {
  }

  // ---------- each field from its own column ----------

  lemma SameCell(row: Cells, mapping: seq<Mapping>, i: nat, target: string, source: string)
    requires DistinctTargets(mapping) && i < |mapping| && mapping[i] == Mapping(target, source)
    ensures var m := Mapped(row, mapping);
      && (forall default :: Get(m, target, default) == Get(row, source, default))
      && GetText(m, target) == GetText(row, source) && GetNumber(m, target) == GetNumber(row, source)
      && GetDate(m, target) == GetDate(row, source)
  {
    MappedField(row, mapping, i);
  }

  lemma TargetsDistinct()
    ensures DistinctTargets(PRODUCT_MAPPING) && DistinctTargets(TRANSACTION_MAPPING) && DistinctTargets(BATCH_MAPPING)
  {
  }

  /** A product record holds what stands in the six columns of its row. */
  lemma ProductCells(row: Cells)
    requires MapToProduct(row).Success?
    ensures var r := MapToProduct(row).value;
      && r.ProductRecord?
      && r.sku == Text.Strip(Get(row, "SKU Code", "")) && r.name == Text.Strip(Get(row, "Product Name", ""))
      && r.category == GetText(row, "Category") && r.unit == Text.Strip(Get(row, "UOM", "pcs"))
      && ConnectorToPaise(GetNumber(row, "Unit Cost")) == Value(r.unitCost)
      && ConnectorToPaise(GetNumber(row, "Selling Price")) == Value(r.sellingPrice)
  {
    TargetsDistinct();
    SameCell(row, PRODUCT_MAPPING, 0, "sku_code", "SKU Code");
    SameCell(row, PRODUCT_MAPPING, 1, "name", "Product Name");
    SameCell(row, PRODUCT_MAPPING, 2, "category", "Category");
    SameCell(row, PRODUCT_MAPPING, 3, "unit_of_measure", "UOM");
    SameCell(row, PRODUCT_MAPPING, 4, "unit_cost_paise", "Unit Cost");
    SameCell(row, PRODUCT_MAPPING, 5, "selling_price_paise", "Selling Price");
  }

  /** A transaction record holds what stands in the seven columns of its row. */
  lemma TransactionCells(row: Cells, otherwise: int)
    requires MapToTransaction(row, otherwise).Success?
    ensures var r := MapToTransaction(row, otherwise).value;
      && r.TransactionRecord?
      && r.sku == Text.Strip(Get(row, "SKU Code", "")) && r.site == Text.Strip(Get(row, "Location", ""))
      && r.movement == ToMovement(Get(row, "Transaction Type", "in"))
      && ConnectorToInt(GetNumber(row, "Quantity")) == Value(r.quantity)
      && ConnectorToPaise(GetNumber(row, "Unit Cost")) == Value(r.unitCost)
      && r.reference == GetText(row, "Reference No")
      && var day := GetDate(row, "Transaction Date");
      r.date == if day.Some? then Midnight(day.value) else otherwise
  {
    TransactionTexts(row);
    TargetsDistinct();
    SameCell(row, TRANSACTION_MAPPING, 3, "quantity", "Quantity");
    SameCell(row, TRANSACTION_MAPPING, 4, "unit_cost_paise", "Unit Cost");
    SameCell(row, TRANSACTION_MAPPING, 6, "transaction_date", "Transaction Date");
  }

  lemma TransactionTexts(row: Cells)
    ensures var m := Mapped(row, TRANSACTION_MAPPING);
      && Get(m, "sku_code", "") == Get(row, "SKU Code", "") && Get(m, "location_name", "") == Get(row, "Location", "")
      && Get(m, "transaction_type", "in") == Get(row, "Transaction Type", "in")
      && GetText(m, "reference_no") == GetText(row, "Reference No")
  {
    TargetsDistinct();
    SameCell(row, TRANSACTION_MAPPING, 0, "sku_code", "SKU Code");
    SameCell(row, TRANSACTION_MAPPING, 1, "location_name", "Location");
    SameCell(row, TRANSACTION_MAPPING, 2, "transaction_type", "Transaction Type");
    SameCell(row, TRANSACTION_MAPPING, 5, "reference_no", "Reference No");
  }

  /** A batch record holds what stands in the six columns of its row. */
  lemma BatchCells(row: Cells)
    requires MapToBatch(row).Success?
    ensures var r := MapToBatch(row).value;
      && r.BatchRecord?
      && r.sku == Text.Strip(Get(row, "SKU Code", "")) && r.batchNo == Text.Strip(Get(row, "Batch No", ""))
      && r.manufactured == GetDate(row, "MFD") && r.expiry == GetDate(row, "EXP")
      && ConnectorToInt(GetNumber(row, "Quantity")) == Value(r.quantity)
      && r.shelf == GetText(row, "Location")
  {
    TargetsDistinct();
    SameCell(row, BATCH_MAPPING, 0, "sku_code", "SKU Code");
    SameCell(row, BATCH_MAPPING, 1, "batch_no", "Batch No");
    SameCell(row, BATCH_MAPPING, 2, "manufactured_date", "MFD");
    SameCell(row, BATCH_MAPPING, 3, "expiry_date", "EXP");
    SameCell(row, BATCH_MAPPING, 4, "quantity", "Quantity");
    SameCell(row, BATCH_MAPPING, 5, "location_name", "Location");
  }

  /** The cell is missing, or its number is not too large. */
  ghost predicate AmountFits(row: Cells, column: string) { column in row ==> !AmountTooLarge(row[column]) }

  ghost predicate QuantityFits(row: Cells, column: string) { column in row ==> !QuantityTooLarge(row[column]) }

  lemma NumbersFit(row: Cells, column: string)
    ensures ConnectorToPaise(GetNumber(row, column)).Value? <==> AmountFits(row, column)
    ensures ConnectorToInt(GetNumber(row, column)).Value? <==> QuantityFits(row, column)
  {
    if column in row {
      AmountOverflowsIff(row[column]);
      QuantityOverflowsIff(row[column]);
    } else {
      TwiceRounded(0);
      TruncatesExactly(0);
      assert Hundredths(0) == 0 as real;
    }
  }

  /** A row ends the stream exactly when one of its numbers is too large; nothing else in it can. */
  lemma ProductSucceedsIff(row: Cells)
    ensures MapToProduct(row).Success? <==> AmountFits(row, "Unit Cost") && AmountFits(row, "Selling Price")
  {
    TargetsDistinct();
    SameCell(row, PRODUCT_MAPPING, 4, "unit_cost_paise", "Unit Cost");
    SameCell(row, PRODUCT_MAPPING, 5, "selling_price_paise", "Selling Price");
    NumbersFit(row, "Unit Cost");
    NumbersFit(row, "Selling Price");
  }

  lemma TransactionSucceedsIff(row: Cells, otherwise: int)
    ensures MapToTransaction(row, otherwise).Success? <==> QuantityFits(row, "Quantity") && AmountFits(row, "Unit Cost")
  {
    TargetsDistinct();
    SameCell(row, TRANSACTION_MAPPING, 3, "quantity", "Quantity");
    SameCell(row, TRANSACTION_MAPPING, 4, "unit_cost_paise", "Unit Cost");
    NumbersFit(row, "Quantity");
    NumbersFit(row, "Unit Cost");
  }

  lemma BatchSucceedsIff(row: Cells)
    ensures MapToBatch(row).Success? <==> QuantityFits(row, "Quantity")
  {
    TargetsDistinct();
    SameCell(row, BATCH_MAPPING, 4, "quantity", "Quantity");
    NumbersFit(row, "Quantity");
  }

  // ---------- written out and read back ----------

  function Cell(row: Cells, column: string): Option<string> {
    if column in row then Some(row[column]) else None
  }

  /** An amount is written with two decimals, a quantity without. */
  function Rupees(p: int): Option<string> { Some(Written(p).Text()) }

  function MovementText(m: Movement): string {
    match m
    case In => "in"
    case Out => "out"
    case Transfer => "transfer"
    case Return => "return"
    case Adjustment => "adjustment"
  }

  predicate Plain(s: string) { Text.Strip(s) == s }

  predicate PlainOption(s: Option<string>) { s.Some? ==> s.value != "" && Plain(s.value) }

  predicate InRange(p: int) { -LIMIT <= p <= LIMIT }

  predicate Countable(n: int) { -9007199254740992 <= n <= 9007199254740992 }

  lemma MovementReads(m: Movement)
    ensures ToMovement(MovementText(m)) == m
  {
    MovementTextPlain(m);
  }

  lemma MovementTextPlain(m: Movement)
    ensures Text.Strip(MovementText(m)) == MovementText(m) && Lower(MovementText(m)) == MovementText(m)
  {
    AlreadyLower(MovementText(m));
    NoBlankEnds(MovementText(m));
  }

  lemma NoBlankEnds(s: string)
    requires s != "" && !Text.IsSpace(s[0]) && !Text.IsSpace(s[|s| - 1])
    ensures Text.Strip(s) == s
  {
    Text.StripPadded("", s, "");
    assert "" + (s + "") == s;
  }

  lemma {:induction false} AlreadyLower(s: string)
    requires forall i | 0 <= i < |s| :: !('A' <= s[i] <= 'Z')
    ensures Lower(s) == s
  {
    if s != "" { AlreadyLower(s[1..]); }
  }

  /** The row shows the product's fields in their columns; it may have others. */
  predicate ShowsProduct(row: Cells, r: Record)
    requires r.ProductRecord?
  {
    && Cell(row, "SKU Code") == Some(r.sku) && Cell(row, "Product Name") == Some(r.name)
    && Cell(row, "UOM") == Some(r.unit) && Cell(row, "Category") == r.category
    && Cell(row, "Unit Cost") == Rupees(r.unitCost) && Cell(row, "Selling Price") == Rupees(r.sellingPrice)
  }

  /** A product record written as a CSV row is read back as itself. */
  lemma ProductRowRoundTrip(row: Cells, r: Record)
    requires r.ProductRecord? && ShowsProduct(row, r)
    requires Plain(r.sku) && Plain(r.name) && Plain(r.unit) && PlainOption(r.category)
    requires InRange(r.unitCost) && InRange(r.sellingPrice)
    ensures MapToProduct(row) == Success(r)
  {
    PaiseRoundTrip(r.unitCost);
    PaiseRoundTrip(r.sellingPrice);
    NumbersFit(row, "Unit Cost");
    NumbersFit(row, "Selling Price");
    ProductSucceedsIff(row);
    ProductCells(row);
  }

  predicate ShowsTransaction(row: Cells, r: Record, day: Dates.Date)
    requires r.TransactionRecord? && Dates.ValidDate(day)
  {
    && Cell(row, "SKU Code") == Some(r.sku) && Cell(row, "Location") == Some(r.site)
    && Cell(row, "Transaction Type") == Some(MovementText(r.movement))
    && Cell(row, "Quantity") == Some(Whole(r.quantity).Text()) && Cell(row, "Unit Cost") == Rupees(r.unitCost)
    && Cell(row, "Reference No") == r.reference && Cell(row, "Transaction Date") == Some(Dates.Print(Dates.ISO, day))
  }

  /** So is a transaction record with a valid date. */
  lemma TransactionRowRoundTrip(row: Cells, r: Record, day: Dates.Date, otherwise: int)
    requires r.TransactionRecord? && Dates.ValidDate(day) && ShowsTransaction(row, r, day)
    requires Plain(r.sku) && Plain(r.site) && PlainOption(r.reference)
    requires r.date == Midnight(DayNumber(day)) && InRange(r.unitCost) && Countable(r.quantity)
    ensures MapToTransaction(row, otherwise) == Success(r)
  {
    PaiseRoundTrip(r.unitCost);
    WholeReads(r.quantity);
    MovementReads(r.movement);
    Dates.DateRoundTrip(Dates.ISO, day);
    NumbersFit(row, "Unit Cost");
    NumbersFit(row, "Quantity");
    TransactionSucceedsIff(row, otherwise);
    TransactionCells(row, otherwise);
  }

  /** A cell that holds the date, in the ISO form, or is missing with it. */
  predicate ShowsDate(row: Cells, column: string, day: Option<Dates.Date>, number: Option<int>) {
    match day
    case None => column !in row && number.None?
    case Some(x) =>
      Dates.ValidDate(x) && Cell(row, column) == Some(Dates.Print(Dates.ISO, x)) && number == Some(DayNumber(x))
  }

  lemma ShownDateReads(row: Cells, column: string, day: Option<Dates.Date>, number: Option<int>)
    requires ShowsDate(row, column, day, number)
    ensures GetDate(row, column) == number
  {
    if day.Some? { Dates.DateRoundTrip(Dates.ISO, day.value); }
  }

  predicate ShowsBatch(row: Cells, r: Record, mfd: Option<Dates.Date>, exp: Option<Dates.Date>)
    requires r.BatchRecord?
  {
    && Cell(row, "SKU Code") == Some(r.sku) && Cell(row, "Batch No") == Some(r.batchNo)
    && Cell(row, "Quantity") == Some(Whole(r.quantity).Text()) && Cell(row, "Location") == r.shelf
    && ShowsDate(row, "MFD", mfd, r.manufactured) && ShowsDate(row, "EXP", exp, r.expiry)
  }

  /** And a batch record, with or without its dates. */
  lemma BatchRowRoundTrip(row: Cells, r: Record, mfd: Option<Dates.Date>, exp: Option<Dates.Date>)
    requires r.BatchRecord? && ShowsBatch(row, r, mfd, exp)
    requires Plain(r.sku) && Plain(r.batchNo) && PlainOption(r.shelf) && Countable(r.quantity)
    ensures MapToBatch(row) == Success(r)
  {
    WholeReads(r.quantity);
    ShownDateReads(row, "MFD", mfd, r.manufactured);
    ShownDateReads(row, "EXP", exp, r.expiry);
    NumbersFit(row, "Quantity");
    BatchSucceedsIff(row);
    BatchCells(row);
  }
}
