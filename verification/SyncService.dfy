/** The import job: one attempt (`process_sync`), the Celery task around it, and the retried job.

    Each part is given twice. A function says what the committed state becomes for a given
    environment; a method does it step by step, with a session, a normalizer and row loop, and is
    proved to arrive there. */
module SyncService {
  import opened Store
  import opened Importer
  import opened Normalizer
  import opened Powers

  type JobId = nat

  datatype Status = Pending | Running | Completed | Failed

  datatype EntityType = Products | Transactions | Batches | OtherEntity

  datatype SyncLog = SyncLog(
    tenant: Tenant, path: string, status: Status, total: nat, processed: nat, failed: nat)

  /** An entry of the log's in-memory error list. */
  datatype ErrorEntry = RowEntry(entity: EntityType, sku: string, reason: RowError) | Fatal

  /** The committed database and the upload directory. */
  datatype World = World(tables: Tables, logs: map<JobId, SyncLog>, files: set<string>)

  /** What the environment does to one attempt: whether loading the log and committing RUNNING
      works, whether the connector can be built, the rows it yields with their draws, whether its
      iteration ends or raises after them, and whether the final commit goes through. */
  datatype Attempt = Attempt(starts: bool, connects: bool, rows: seq<Row>, exhausts: bool, commits: bool)

  datatype Ending = NoLog | Succeeded | Raised

  // ---------- uploads ----------

  /** The job's log is as an upload leaves it: pending, and nothing counted yet. */
  predicate IsNewLog(logs: map<JobId, SyncLog>, job: JobId, tenant: Tenant, path: string) {
    && job in logs && logs[job].tenant == tenant && logs[job].path == path && logs[job].status.Pending?
    && logs[job].total == 0 && logs[job].processed == 0 && logs[job].failed == 0
  }

  /** `start_sync`: the file is saved under a path of its own, and a pending log is added. */
  function Enqueue(w: World, job: JobId, tenant: Tenant, path: string): World {
    var saved := w.(files := w.files + {path});
    if job in w.logs then saved
    else saved.(logs := w.logs[job := SyncLog(tenant, path, Pending, 0, 0, 0)])
  }

  // ---------- one attempt ----------

  /** A connector for another entity type yields nothing and never opens the file. */
  function Fetched(entity: EntityType, present: bool, a: Attempt): seq<Row> {
    if entity.OtherEntity? || !present then [] else a.rows
  }

  predicate StreamEnds(entity: EntityType, present: bool, a: Attempt) {
    entity.OtherEntity? || (present && a.exhausts)
  }

  function CountAccepted(os: seq<Outcome>): (n: nat)
    ensures n <= |os|
  {
    if os == [] then 0
    else CountAccepted(os[..|os| - 1]) + (if os[|os| - 1].Accepted? then 1 else 0)
  }

  /** The log after the row loop has counted these outcomes. */
  function Counted(log: SyncLog, os: seq<Outcome>): SyncLog {
    log.(total := log.total + |os|,
         processed := log.processed + CountAccepted(os),
         failed := log.failed + (|os| - CountAccepted(os)))
  }

  function EntityOf(r: Record): EntityType {
    match r
    case ProductRecord(_, _, _, _, _, _) => Products
    case TransactionRecord(_, _, _, _, _, _, _) => Transactions
    case BatchRecord(_, _, _, _, _, _) => Batches
  }

  /** The error entries of the rejected rows, in order; a row that raised otherwise leaves none. */
  function RowEntries(rows: seq<Row>, os: seq<Outcome>): seq<ErrorEntry>
    requires |rows| == |os|
  {
    if rows == [] then []
    else
      var n := |rows| - 1;
      RowEntries(rows[..n], os[..n]) + EntryOfRow(rows[n].record, os[n])
  }

  /** `if stored_path: storage.delete(stored_path)`. */
  function Discard(files: set<string>, path: string): set<string> {
    if path == "" then files else files - {path}
  }

  /** The rows the attempt's connector yields, given the committed state it starts from. */
  function RowsSeen(w: World, job: JobId, entity: EntityType, a: Attempt): seq<Row>
    requires job in w.logs
  {
    Fetched(entity, w.logs[job].path in w.files, a)
  }

  /** The session and the outcomes the row loop ends with. */
  function Streamed(w: World, job: JobId, entity: EntityType, a: Attempt): (Work, seq<Outcome>)
    requires job in w.logs
  {
    Import(Work(w.tables, false), w.logs[job].tenant, RowsSeen(w, job, entity, a))
  }

  /** Everything the final commit depends on: it goes through, the stream came to its end, and no
      statement on the way has poisoned the transaction. */
  predicate Commits(w: World, job: JobId, entity: EntityType, a: Attempt)
    requires job in w.logs
  {
    && a.starts && a.connects && StreamEnds(entity, w.logs[job].path in w.files, a) && a.commits
    && !Streamed(w, job, entity, a).0.poisoned
  }

  function RunAttempt(w: World, job: JobId, entity: EntityType, a: Attempt): (World, Ending) {
    if job !in w.logs then (w, NoLog)
    else if !a.starts then (w, Raised)
    else
      var log := w.logs[job];
      if Commits(w, job, entity, a) then
        var (work, os) := Streamed(w, job, entity, a);
        (World(work.tables, w.logs[job := Counted(log, os).(status := Completed)], Discard(w.files, log.path)),
         Succeeded)
      else
        (w.(logs := w.logs[job := log.(status := Failed)]), Raised)
  }

  // ---------- the Celery task ----------

  datatype Verdict = Done | RetryIn(delay: nat) | GaveUp

  const MAX_RETRIES: nat := 3
  const DEFAULT_RETRY_DELAY: nat := 30

  function Delay(base: nat, retries: nat): nat { base * TwoTo(retries) }

  function DeleteUpload(w: World, job: JobId): World {
    if job !in w.logs then w else w.(files := Discard(w.files, w.logs[job].path))
  }

  function TaskCall(w: World, job: JobId, entity: EntityType, a: Attempt, retries: nat, max: nat, base: nat)
    : (World, Verdict)
  {
    var (w', ending) := RunAttempt(w, job, entity, a);
    if !ending.Raised? then (w', Done)
    else if retries >= max then (DeleteUpload(w', job), GaveUp)
    else (w', RetryIn(Delay(base, retries)))
  }

  // ---------- the same, step by step ----------

  class Database {
    var tables: Tables
    var logs: map<JobId, SyncLog>
  }

  class FileStorage {
    var files: set<string>

    method Save(path: string)
      modifies this
      ensures files == old(files) + {path}
    {
      files := files + {path};
    }

    /** `if path: delete(path)`; a file that is gone already is no error. */
    method Delete(path: string)
      modifies this
      ensures files == Discard(old(files), path)
    {
      if path != "" { files := files - {path}; }
    }
  }

  function WorldOf(db: Database, storage: FileStorage): World
    reads db, storage
  {
    World(db.tables, db.logs, storage.files)
  }

  /** `start_sync`, for the id drawn for the log; one that is taken fails the commit. */
  method StartSync(db: Database, storage: FileStorage, job: JobId, tenant: Tenant, path: string) returns (ok: bool)
    modifies db, storage
    ensures WorldOf(db, storage) == Enqueue(old(WorldOf(db, storage)), job, tenant, path)
    ensures ok == (job !in old(db.logs)) && storage.files == old(storage.files) + {path}
    ensures db.tables == old(db.tables)
    ensures ok ==> IsNewLog(db.logs, job, tenant, path) && db.logs - {job} == old(db.logs)
    ensures !ok ==> db.logs == old(db.logs)
  {
    storage.Save(path);
    ok := job !in db.logs;
    if ok { db.logs := db.logs[job := SyncLog(tenant, path, Pending, 0, 0, 0)]; }
  }

  /** The rows with draws no worse than those given: a fault can only be missing because its
      statement was never issued. */
  ghost predicate Spared(asked: Row, given: Row) {
    && asked.record == given.record
    && (asked.draw.onProduct == given.draw.onProduct || asked.draw.onProduct.Fine?)
    && (asked.draw.onLocation == given.draw.onLocation || asked.draw.onLocation.Fine?)
    && asked.draw == given.draw.(onProduct := asked.draw.onProduct, onLocation := asked.draw.onLocation)
  }

  ghost predicate AllSpared(asked: seq<Row>, given: seq<Row>) {
    |asked| == |given| && forall i | 0 <= i < |given| :: Spared(asked[i], given[i])
  }

  ghost predicate AllFaultFree(rows: seq<Row>) { forall i | 0 <= i < |rows| :: FaultFree(rows[i].draw) }

  lemma FaultFreeSpared(asked: seq<Row>, given: seq<Row>)
    requires AllSpared(asked, given) && AllFaultFree(given)
    ensures asked == given
  {
  }

  lemma SparedSnoc(asked: seq<Row>, given: seq<Row>, i: nat, row: Row)
    requires i < |given| && AllSpared(asked, given[..i]) && Spared(row, given[i])
    ensures AllSpared(asked + [row], given[..i + 1])
  {
  }

  /** What one more row adds to an import, to the counters and to the error list. */
  lemma LoopStep(w: Work, tenant: Tenant, rows: seq<Row>, row: Row, log: SyncLog, w1: Work, os: seq<Outcome>,
                 w2: Work, o: Outcome)
    requires Import(w, tenant, rows) == (w1, os) && ImportRow(w1, tenant, row.record, row.draw) == (w2, o)
    ensures Import(w, tenant, rows + [row]) == (w2, os + [o])
    ensures Counted(log, os + [o]) == Tally(Counted(log, os), o)
    ensures RowEntries(rows + [row], os + [o]) == RowEntries(rows, os) + EntryOfRow(row.record, o)
  {
    assert (rows + [row])[..|rows|] == rows && (os + [o])[..|os|] == os;
  }

  lemma Regroup(a: seq<ErrorEntry>, b: seq<ErrorEntry>, c: seq<ErrorEntry>)
    ensures (a + b) + c == a + (b + c)
  {
  }

  function EntryOfRow(record: Record, o: Outcome): seq<ErrorEntry> {
    if o.Rejected? then [RowEntry(EntityOf(record), record.sku, o.reason)] else []
  }

  /** One turn of the loop's counters. */
  function Tally(log: SyncLog, o: Outcome): SyncLog {
    if o.Accepted? then log.(total := log.total + 1, processed := log.processed + 1)
    else log.(total := log.total + 1, failed := log.failed + 1)
  }

  /** The loop's `try` block: validate, then write. */
  method ProcessRow(normalizer: DataNormalizer, row: Row) returns (outcome: Outcome, ghost asked: Row)
    requires normalizer.Valid()
    modifies normalizer, normalizer.db
    ensures normalizer.Valid()
    ensures Spared(asked, row)
    ensures row.record.sku == "" ==> outcome == Rejected(MissingField("sku_code"))
    ensures row.record.sku != "" && RequiredTexts(row.record).1 == "" ==>
      outcome == Rejected(MissingField(match row.record
                                       case ProductRecord(_, _, _, _, _, _) => "name"
                                       case TransactionRecord(_, _, _, _, _, _, _) => "location_name"
                                       case BatchRecord(_, _, _, _, _, _) => "batch_no"))
    ensures outcome.Rejected? ==>
      normalizer.products == old(normalizer.products) && normalizer.locations == old(normalizer.locations)
    ensures (normalizer.db.work, outcome)
         == ImportRow(old(normalizer.db.work), normalizer.tenant, asked.record, asked.draw)
  {
    asked := row;
    RefusedFor(row.record);
    match Normalize(row.record)
    case Failure(e) => outcome := Rejected(e);
    case Success(n) =>
      asked := Row(row.record, Asked(normalizer.products, normalizer.locations, n, row.draw));
      match n {
        case ProductRecord(_, _, _, _, _, _) => outcome := normalizer.UpsertProduct(n, row.draw);
        case TransactionRecord(_, _, _, _, _, _, _) => outcome := normalizer.CreateTransaction(n, row.draw);
        case BatchRecord(_, _, _, _, _, _) => outcome := normalizer.UpsertBatch(n, row.draw);
      }
  }

  /** The loop's counters and, for a rejected row, its entry in the error list. */
  method RecordOutcome(log: SyncLog, errors: seq<ErrorEntry>, record: Record, outcome: Outcome)
    returns (log': SyncLog, errors': seq<ErrorEntry>)
    ensures log' == Tally(log, outcome)
    ensures errors' == errors + EntryOfRow(record, outcome)
  {
    log', errors' := log.(total := log.total + 1), errors;
    match outcome
    case Accepted => log' := log'.(processed := log'.processed + 1);
    case Rejected(reason) =>
      log' := log'.(failed := log'.failed + 1);
      errors' := errors' + [RowEntry(EntityOf(record), record.sku, reason)];
    case Errored => log' := log'.(failed := log'.failed + 1);
  }

  /** The row loop. The three loops of the source differ only in the normalizer operation they
      call, which here goes by the kind of the record. */
  method ProcessRows(normalizer: DataNormalizer, rows: seq<Row>, log: SyncLog, errors: seq<ErrorEntry>)
    returns (log': SyncLog, errors': seq<ErrorEntry>, ghost asked: seq<Row>)
    requires normalizer.Valid()
    modifies normalizer, normalizer.db
    ensures normalizer.Valid()
    ensures AllSpared(asked, rows) && (AllFaultFree(rows) ==> asked == rows)
    ensures var (work, os) := Import(old(normalizer.db.work), normalizer.tenant, asked);
      && normalizer.db.work == work
      && log' == Counted(log, os)
      && errors' == errors + RowEntries(asked, os)
  {
    log', errors', asked := log, errors, [];
    ghost var start, os := normalizer.db.work, [];
    var i := 0;
    while i < |rows|
      invariant i <= |rows| && normalizer.Valid()
      invariant AllSpared(asked, rows[..i])
      invariant Import(start, normalizer.tenant, asked) == (normalizer.db.work, os)
      invariant log' == Counted(log, os) && errors' == errors + RowEntries(asked, os)
    {
      ghost var before := normalizer.db.work;
      var outcome;
      ghost var actual;
      outcome, actual := ProcessRow(normalizer, rows[i]);
      log', errors' := RecordOutcome(log', errors', rows[i].record, outcome);
      LoopStep(start, normalizer.tenant, asked, actual, log, before, os, normalizer.db.work, outcome);
      Regroup(errors, RowEntries(asked, os), EntryOfRow(rows[i].record, outcome));
      SparedSnoc(asked, rows, i, actual);
      asked, os := asked + [actual], os + [outcome];
      i := i + 1;
    }
    assert rows[..i] == rows;
    if AllFaultFree(rows) { FaultFreeSpared(asked, rows); }
  }

  /** The part of the `try` block before the final commit: connector, normalizer and row loop. */
  method ImportStream(session: Session, entity: EntityType, present: bool, a: Attempt, log: SyncLog,
                      errors: seq<ErrorEntry>)
    returns (log': SyncLog, errors': seq<ErrorEntry>, raised: bool, ghost asked: seq<Row>)
    modifies session
    ensures AllSpared(asked, a.rows)
    ensures raised == !(a.connects && StreamEnds(entity, present, a))
    ensures !raised ==>
      var fetched := Fetched(entity, present, a.(rows := asked));
      var (work, os) := Import(old(session.work), log.tenant, fetched);
      session.work == work && log' == Counted(log, os) && errors' == errors + RowEntries(fetched, os)
  {
    log', errors', raised, asked := log, errors, false, a.rows;
    if !a.connects { raised := true; return; }
    if entity.OtherEntity? { return; }
    if !present { raised := true; return; }
    var normalizer := new DataNormalizer(session, log.tenant);
    log', errors', asked := ProcessRows(normalizer, a.rows, log, errors);
    raised := !a.exhausts;
  }

  /** The `try` block: stream, final commit; and the removal of the file once committed. */
  method TryImport(db: Database, storage: FileStorage, job: JobId, entity: EntityType, a: Attempt,
                   loaded: seq<ErrorEntry>)
    returns (succeeded: bool, errors: seq<ErrorEntry>, ghost asked: seq<Row>)
    requires job in db.logs && a.starts
    modifies db, storage
    ensures AllSpared(asked, a.rows)
    ensures var w, a' := old(WorldOf(db, storage)), a.(rows := asked);
      && succeeded == Commits(w, job, entity, a')
      && (succeeded ==> WorldOf(db, storage) == RunAttempt(w, job, entity, a').0)
      && (succeeded ==> errors == loaded + RowEntries(RowsSeen(w, job, entity, a'), Streamed(w, job, entity, a').1))
      && (!succeeded ==> WorldOf(db, storage) == w)
  {
    ghost var w := WorldOf(db, storage);
    var log := db.logs[job];
    var session := new Session(Work(db.tables, false));
    var raised;
    log, errors, raised, asked := ImportStream(session, entity, log.path in storage.files, a, log, loaded);
    ghost var a' := a.(rows := asked);
    assert !raised ==> session.work == Streamed(w, job, entity, a').0;
    succeeded := !raised && a.commits && !session.work.poisoned;
    if succeeded {
      log := log.(status := Completed);
      db.tables, db.logs := session.work.tables, db.logs[job := log];
      storage.Delete(log.path);
    }
  }

  lemma RunningOrNot(w: World, job: JobId, entity: EntityType, a: Attempt)
    requires job in w.logs && a.starts
    ensures var v := w.(logs := w.logs[job := w.logs[job].(status := Running)]);
      && Commits(v, job, entity, a) == Commits(w, job, entity, a)
      && RunAttempt(v, job, entity, a) == RunAttempt(w, job, entity, a)
      && Streamed(v, job, entity, a) == Streamed(w, job, entity, a)
  {
    var v := w.(logs := w.logs[job := w.logs[job].(status := Running)]);
    var x := Counted(w.logs[job], Streamed(w, job, entity, a).1).(status := Completed);
    var y := w.logs[job].(status := Failed);
    assert v.logs[job := x] == w.logs[job := x] && v.logs[job := y] == w.logs[job := y];
  }

  /** `process_sync`. `loaded` and `reloaded` are the error lists read with the log at the start and
      after a rollback. */
  method ProcessSync(db: Database, storage: FileStorage, job: JobId, entity: EntityType, a: Attempt,
                     loaded: seq<ErrorEntry>, reloaded: seq<ErrorEntry>)
    returns (ending: Ending, errors: seq<ErrorEntry>, ghost asked: seq<Row>)
    modifies db, storage
    ensures AllSpared(asked, a.rows) && (AllFaultFree(a.rows) ==> asked == a.rows)
    ensures (WorldOf(db, storage), ending) == RunAttempt(old(WorldOf(db, storage)), job, entity, a.(rows := asked))
    ensures ending.Succeeded? ==>
      var w, a' := old(WorldOf(db, storage)), a.(rows := asked);
      errors == loaded + RowEntries(RowsSeen(w, job, entity, a'), Streamed(w, job, entity, a').1)
    ensures ending.Raised? && a.starts ==> errors == reloaded + [Fatal]
  {
    asked, errors := a.rows, loaded;
    if job !in db.logs { return NoLog, errors, asked; }
    if !a.starts { return Raised, errors, asked; }
    ghost var w := WorldOf(db, storage);
    db.logs := db.logs[job := db.logs[job].(status := Running)];  // committed
    var succeeded;
    succeeded, errors, asked := TryImport(db, storage, job, entity, a, loaded);
    if AllFaultFree(a.rows) { FaultFreeSpared(asked, a.rows); }
    RunningOrNot(w, job, entity, a.(rows := asked));
    if succeeded { return Succeeded, errors, asked; }
    // rolled back: the log is read again from the committed state
    db.logs := db.logs[job := db.logs[job].(status := Failed)];
    assert db.logs == w.logs[job := w.logs[job].(status := Failed)];
    return Raised, reloaded + [Fatal], asked;
  }

  /** `sync_erp_data`: one delivery of the task. */
  method SyncErpData(db: Database, storage: FileStorage, job: JobId, entity: EntityType, a: Attempt,
                     retries: nat, max: nat, base: nat)
    returns (verdict: Verdict, ghost asked: seq<Row>)
    modifies db, storage
    ensures AllSpared(asked, a.rows) && (AllFaultFree(a.rows) ==> asked == a.rows)
    ensures (WorldOf(db, storage), verdict)
         == TaskCall(old(WorldOf(db, storage)), job, entity, a.(rows := asked), retries, max, base)
  {
    var ending, errors;
    ending, errors, asked := ProcessSync(db, storage, job, entity, a, [], []);
    if !ending.Raised? { return Done, asked; }
    if retries >= max {
      if job in db.logs { storage.Delete(db.logs[job].path); }
      return GaveUp, asked;
    }
    verdict := RetryIn(Delay(base, retries));
  }
}
