/** From the sheet to the attempt: the connector maps row by row while the importer consumes them, and a row
    that does not map ends the stream, and with it the attempt. */
module SheetImport {
  import opened Wrappers
  import opened Store
  import opened Importer
  import opened ImportLaws
  import opened Poisoning
  import opened Overflow
  import opened CsvConnector
  import opened SyncService
  import opened SyncLaws
  import opened Paise

  /** `_map_to_product`, `_map_to_transaction` or `_map_to_batch`. */
  ghost function MapRow(entity: EntityType, row: Cells, otherwise: int): Result<Record, Converted> {
    match entity
    case Transactions => MapToTransaction(row, otherwise)
    case Batches => MapToBatch(row)
    case _ => MapToProduct(row)
  }

  /** The numbers in the row are not too large. */
  ghost predicate RowFits(entity: EntityType, row: Cells) {
    match entity
    case Transactions => QuantityFits(row, "Quantity") && AmountFits(row, "Unit Cost")
    case Batches => QuantityFits(row, "Quantity")
    case _ => AmountFits(row, "Unit Cost") && AmountFits(row, "Selling Price")
  }

  lemma MapRowIff(entity: EntityType, row: Cells, otherwise: int)
    ensures MapRow(entity, row, otherwise).Success? <==> RowFits(entity, row)
  {
    match entity
    case Transactions => TransactionSucceedsIff(row, otherwise);
    case Batches => BatchSucceedsIff(row);
    case _ => ProductSucceedsIff(row);
  }

  /** Each entity's rows become records of its own kind. */
  lemma MappedKind(entity: EntityType, row: Cells, otherwise: int)
    requires MapRow(entity, row, otherwise).Success?
    ensures var r := MapRow(entity, row, otherwise).value;
      && (entity.Products? ==> r.ProductRecord?) && (entity.Transactions? ==> r.TransactionRecord?)
      && (entity.Batches? ==> r.BatchRecord?)
  {
  }

  /** The attempt's connector reads this sheet: it yields the rows before the first that does not map, and comes
      to its end exactly if there is none. */
  ghost predicate Streams(a: Attempt, entity: EntityType, sheet: seq<Cells>, otherwise: nat -> int) {
    && |a.rows| <= |sheet|
    && (forall i: nat | i < |a.rows| :: MapRow(entity, sheet[i], otherwise(i)) == Success(a.rows[i].record))
    && (|a.rows| < |sheet| ==> MapRow(entity, sheet[|a.rows|], otherwise(|a.rows|)).Failure?)
    && (a.exhausts <==> |a.rows| == |sheet|)
  }

  ghost predicate AllFit(entity: EntityType, sheet: seq<Cells>) {
    forall i: nat | i < |sheet| :: RowFits(entity, sheet[i])
  }

  lemma StreamEndsIff(a: Attempt, entity: EntityType, sheet: seq<Cells>, otherwise: nat -> int)
    requires Streams(a, entity, sheet, otherwise)
    ensures a.exhausts <==> AllFit(entity, sheet)
  {
    forall i: nat | i < |sheet| ensures RowFits(entity, sheet[i]) == MapRow(entity, sheet[i], otherwise(i)).Success? {
      MapRowIff(entity, sheet[i], otherwise(i));
    }
    if |a.rows| < |sheet| { assert !RowFits(entity, sheet[|a.rows|]); }
  }

  /** An attempt at importing a sheet completes exactly when it starts, finds its file, connects and commits, every
      row's numbers fit, and no row poisons the transaction, given the tables that the rows before it leave. */
  lemma SheetCompletesIff(w: World, job: JobId, entity: EntityType, a: Attempt, sheet: seq<Cells>,
                          otherwise: nat -> int)
    requires Consistent(w.tables) && job in w.logs && !entity.OtherEntity? && Streams(a, entity, sheet, otherwise)
    ensures RunAttempt(w, job, entity, a).1.Succeeded? <==>
      && a.starts && a.connects && a.commits && w.logs[job].path in w.files && AllFit(entity, sheet)
      && forall i :: !PoisonsAt(Work(w.tables, false), w.logs[job].tenant, a.rows, i)
  {
    CompletesIff(w, job, entity, a);
    StreamEndsIff(a, entity, sheet, otherwise);
  }

  /** So when nothing disturbs it, the sheet alone decides. */
  lemma UndisturbedSheetCompletesIff(w: World, job: JobId, entity: EntityType, a: Attempt, sheet: seq<Cells>,
                                     otherwise: nat -> int)
    requires Consistent(w.tables) && job in w.logs && !entity.OtherEntity? && Streams(a, entity, sheet, otherwise)
    requires a.starts && a.connects && a.commits && w.logs[job].path in w.files && Undisturbed(w.tables, a.rows)
    ensures RunAttempt(w, job, entity, a).1.Succeeded? <==> AllFit(entity, sheet)
  {
    var b := BooksExist(w.tables);
    UndisturbedImport(Work(w.tables, false), b, w.logs[job].tenant, a.rows);
    StreamEndsIff(a, entity, sheet, otherwise);
  }

  /** One cell that says `inf` fails the whole import, however many good rows stand beside it. */
  lemma OneCellFailsTheAttempt(w: World, job: JobId, a: Attempt, sheet: seq<Cells>, otherwise: nat -> int, i: nat)
    requires job in w.logs && Streams(a, Products, sheet, otherwise)
    requires i < |sheet| && Cell(sheet[i], "Unit Cost") == Some("inf")
    ensures !RunAttempt(w, job, Products, a).1.Succeeded?
  {
    InfinityIsTooLarge();
    assert !RowFits(Products, sheet[i]);
    StreamEndsIff(a, Products, sheet, otherwise);
  }

  lemma InfinityIsTooLarge()
    ensures AmountTooLarge("inf")
  {
    AlreadyLower("inf");
    assert Cleaned("inf") == "inf";
    assert Unsigned("inf") == "inf";
  }
}
