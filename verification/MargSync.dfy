/** A run of the Marg export against the platform: entities are uploaded in dependency order, each only
    after the job before it was seen to complete, while deliveries and other clients' uploads go on. */
module MargSync {
  import opened Wrappers
  import opened Store
  import opened Importer
  import opened Books
  import opened Integrity
  import opened Refinement
  import opened ImportLaws
  import opened SyncService
  import opened Timeline
  import opened CsvConnector
  import opened MargExport
  import Text

  // ---------- what is uploaded ----------

  datatype Command = SyncAll | SyncProducts | SyncBatches | SyncTransactions

  function Order(command: Command): seq<EntityType> {
    match command
    case SyncProducts => [Products]
    case SyncBatches => [Batches]
    case SyncTransactions => [Transactions]
    case SyncAll => [Products, Batches, Transactions]
  }

  /** `_selected_entities`. */
  function Selected(order: seq<EntityType>, outputs: set<EntityType>): seq<EntityType> {
    if order == [] then []
    else (if order[0] in outputs then [order[0]] else []) + Selected(order[1..], outputs)
  }

  /** Exactly the wanted entities that have an export are uploaded. */
  lemma {:induction false} SelectedIff(order: seq<EntityType>, outputs: set<EntityType>, e: EntityType)
    ensures e in Selected(order, outputs) <==> e in order && e in outputs
  {
    if order != [] { SelectedIff(order[1..], outputs, e); }
  }

  /** The commands for one entity upload that entity and no other. */
  lemma SingleCommands(outputs: set<EntityType>)
    ensures Selected(Order(SyncProducts), outputs) == if Products in outputs then [Products] else []
    ensures Selected(Order(SyncBatches), outputs) == if Batches in outputs then [Batches] else []
    ensures Selected(Order(SyncTransactions), outputs) == if Transactions in outputs then [Transactions] else []
  {
  }

  /** `sync-all` uploads products, then batches, then transactions. */
  lemma AllInOrder(outputs: set<EntityType>)
    ensures Selected(Order(SyncAll), outputs) ==
      (if Products in outputs then [Products] else []) + (if Batches in outputs then [Batches] else [])
      + (if Transactions in outputs then [Transactions] else [])
  {
    var a := if Products in outputs then [Products] else [];
    var b := if Batches in outputs then [Batches] else [];
    var c := if Transactions in outputs then [Transactions] else [];
    assert [Transactions][1..] == [] && Selected([Transactions], outputs) == c + [];
    assert [Batches, Transactions][1..] == [Transactions] && Selected([Batches, Transactions], outputs) == b + (c + []);
    assert Order(SyncAll)[1..] == [Batches, Transactions];
    assert a + (b + (c + [])) == a + b + c;
  }

  // ---------- polling ----------

  datatype Poll = SawCompleted | SawFailed | TimedOut

  const POLLS: nat := 90

  predicate Final(status: Status) { status.Completed? || status.Failed? }

  /** The verdict of the first final status; the last two stand for the exceptions raised. */
  function FirstFinal(answers: seq<Status>): Poll {
    if answers == [] then TimedOut
    else if answers[0].Completed? then SawCompleted
    else if answers[0].Failed? then SawFailed
    else FirstFinal(answers[1..])
  }

  /** How many answers are read. */
  function AnswersRead(answers: seq<Status>): (n: nat)
    ensures n <= |answers|
  {
    if answers == [] then 0 else if Final(answers[0]) then 1 else 1 + AnswersRead(answers[1..])
  }

  /** The verdict is that of the answer before which all others were still open. */
  lemma {:induction false} PollVerdict(answers: seq<Status>, i: nat)
    requires i < |answers| && Final(answers[i]) && forall j | 0 <= j < i :: !Final(answers[j])
    ensures FirstFinal(answers) == if answers[i].Completed? then SawCompleted else SawFailed
    ensures AnswersRead(answers) == i + 1
  {
    if i > 0 {
      assert !Final(answers[0]);
      PollVerdict(answers[1..], i - 1);
    }
  }

  /** And only when all are still open does polling time out. */
  lemma {:induction false} PollTimesOutIff(answers: seq<Status>)
    ensures FirstFinal(answers).TimedOut? <==> forall i | 0 <= i < |answers| :: !Final(answers[i])
  {
    if answers != [] {
      PollTimesOutIff(answers[1..]);
      assert forall i | 0 < i < |answers| :: answers[i] == answers[1..][i - 1];
    }
  }

  lemma {:induction false} LastAnswer(answers: seq<Status>)
    requires FirstFinal(answers).SawCompleted?
    ensures AnswersRead(answers) > 0 && answers[AnswersRead(answers) - 1].Completed?
  {
    if !Final(answers[0]) { LastAnswer(answers[1..]); }
  }

  /** A job the platform does not know is answered with an error, which ends the run like a failed job. */
  function StatusOf(w: World, job: JobId): Status { if job in w.logs then w.logs[job].status else Failed }

  /** All that happens before the `n`th answer is read; `pauses(i)` is what happens while the client waits
      for the `i`th. */
  function Elapsed(pauses: nat -> seq<Event>, n: nat): seq<Event> {
    if n == 0 then [] else Elapsed(pauses, n - 1) + pauses(n - 1)
  }

  function AnswersTo(w: World, job: JobId, pauses: nat -> seq<Event>, max: nat, base: nat): (answers: seq<Status>)
    ensures |answers| == POLLS
  {
    seq(POLLS, i requires 0 <= i => StatusOf(After(w, Elapsed(pauses, i + 1), max, base), job))
  }

  lemma AnswerAt(w: World, job: JobId, pauses: nat -> seq<Event>, max: nat, base: nat, i: nat)
    requires i < POLLS
    ensures AnswersTo(w, job, pauses, max, base)[i] == StatusOf(After(w, Elapsed(pauses, i + 1), max, base), job)
  {
  }

  // ---------- the run ----------

  /** The platform's part in one upload: what happens before it, the job id and the path it draws, and
      what happens while the client polls. */
  datatype Visit = Visit(before: seq<Event>, job: JobId, path: string, pauses: nat -> seq<Event>)

  /** An upload that was accepted, and the world right after it. */
  datatype Upload = Upload(entity: EntityType, job: JobId, world: World)

  /** One upload with its polling: the world after it, the upload if it was accepted, and whether the job was
      seen to complete. */
  function UploadOne(w: World, tenant: Tenant, entity: EntityType, v: Visit, max: nat, base: nat)
    : (World, Option<Upload>, bool)
  {
    var w1 := After(w, v.before, max, base);
    var u := Enqueue(w1, v.job, tenant, v.path);
    if v.job in w1.logs then (u, None, false)
    else
      var answers := AnswersTo(u, v.job, v.pauses, max, base);
      (After(u, Elapsed(v.pauses, AnswersRead(answers)), max, base), Some(Upload(entity, v.job, u)),
       FirstFinal(answers).SawCompleted?)
  }

  /** The loop of `main`, when it polls. A refused upload, a failed job and a timeout end it. */
  function Export(w: World, tenant: Tenant, selected: seq<EntityType>, visits: EntityType -> Visit,
                  max: nat, base: nat): (World, seq<Upload>, bool)
    decreases |selected|
  {
    if selected == [] then (w, [], true)
    else
      var (w1, upload, seen) := UploadOne(w, tenant, selected[0], visits(selected[0]), max, base);
      var first := if upload.Some? then [upload.value] else [];
      if seen then WithUploads(first, Export(w1, tenant, selected[1..], visits, max, base))
      else (w1, first, false)
  }

  function WithUploads(uploads: seq<Upload>, rest: (World, seq<Upload>, bool)): (World, seq<Upload>, bool) {
    (rest.0, uploads + rest.1, rest.2)
  }

  lemma NoUploads(r: (World, seq<Upload>, bool))
    ensures WithUploads([], r) == r
  {
    assert [] + r.1 == r.1;
  }

  lemma NothingLeft(w: World, tenant: Tenant, selected: seq<EntityType>, visits: EntityType -> Visit,
                    max: nat, base: nat, uploads: seq<Upload>)
    requires selected == []
    ensures WithUploads(uploads, Export(w, tenant, selected, visits, max, base)) == (w, uploads, true)
  {
    assert uploads + [] == uploads;
  }

  lemma ExportGoesOn(w: World, tenant: Tenant, selected: seq<EntityType>, i: nat, visits: EntityType -> Visit,
                     max: nat, base: nat, uploads: seq<Upload>)
    requires i < |selected|
    ensures var (w1, upload, seen) := UploadOne(w, tenant, selected[i], visits(selected[i]), max, base);
      var now := uploads + (if upload.Some? then [upload.value] else []);
      WithUploads(uploads, Export(w, tenant, selected[i..], visits, max, base)) ==
        if seen then WithUploads(now, Export(w1, tenant, selected[i + 1..], visits, max, base)) else (w1, now, false)
  {
    ExportUnfolds(w, tenant, selected, i, visits, max, base);
    var (w1, upload, _) := UploadOne(w, tenant, selected[i], visits(selected[i]), max, base);
    var first := if upload.Some? then [upload.value] else [];
    WithMoreUploads(uploads, first, Export(w1, tenant, selected[i + 1..], visits, max, base));
  }

  lemma ExportUnfolds(w: World, tenant: Tenant, selected: seq<EntityType>, i: nat, visits: EntityType -> Visit,
                      max: nat, base: nat)
    requires i < |selected|
    ensures var (w1, upload, seen) := UploadOne(w, tenant, selected[i], visits(selected[i]), max, base);
      var first := if upload.Some? then [upload.value] else [];
      Export(w, tenant, selected[i..], visits, max, base) ==
        if seen then WithUploads(first, Export(w1, tenant, selected[i + 1..], visits, max, base))
        else (w1, first, false)
  {
    assert selected[i..][0] == selected[i] && selected[i..][1..] == selected[i + 1..];
  }

  lemma WithMoreUploads(a: seq<Upload>, b: seq<Upload>, r: (World, seq<Upload>, bool))
    ensures WithUploads(a, WithUploads(b, r)) == WithUploads(a + b, r)
  {
    assert a + (b + r.1) == (a + b) + r.1;
  }

  class Server {
    var world: World

    method Elapse(es: seq<Event>, max: nat, base: nat)
      modifies this
      ensures world == After(old(world), es, max, base)
    {
      for i := 0 to |es|
        invariant world == After(old(world), es[..i], max, base)
      {
        assert es[..i + 1][..i] == es[..i];
        world := Happen(world, es[i], max, base);
      }
      assert es[..|es|] == es;
    }

    method Accept(job: JobId, tenant: Tenant, path: string) returns (ok: bool)
      modifies this
      ensures ok == (job !in old(world).logs) && world == Enqueue(old(world), job, tenant, path)
    {
      ok := job !in world.logs;
      world := Enqueue(world, job, tenant, path);
    }
  }

  lemma OneMorePause(w: World, pauses: nat -> seq<Event>, i: nat, max: nat, base: nat)
    ensures After(After(w, Elapsed(pauses, i), max, base), pauses(i), max, base)
         == After(w, Elapsed(pauses, i + 1), max, base)
  {
    AfterBoth(w, Elapsed(pauses, i), pauses(i), max, base);
  }

  /** The first `i` answers were open. */
  predicate OpenBefore(answers: seq<Status>, i: nat) {
    && i <= |answers|
    && FirstFinal(answers) == FirstFinal(answers[i..]) && AnswersRead(answers) == i + AnswersRead(answers[i..])
  }

  lemma NextAnswer(answers: seq<Status>, i: nat)
    requires i < |answers| && OpenBefore(answers, i)
    ensures answers[i].Completed? ==> FirstFinal(answers).SawCompleted? && AnswersRead(answers) == i + 1
    ensures answers[i].Failed? ==> FirstFinal(answers).SawFailed? && AnswersRead(answers) == i + 1
    ensures !Final(answers[i]) ==> OpenBefore(answers, i + 1)
  {
    assert answers[i..][0] == answers[i] && answers[i..][1..] == answers[i + 1..];
  }

  lemma AllOpen(answers: seq<Status>)
    requires OpenBefore(answers, |answers|)
    ensures FirstFinal(answers).TimedOut? && AnswersRead(answers) == |answers|
  {
  }

  /** `poll_status`. */
  method PollStatus(server: Server, job: JobId, pauses: nat -> seq<Event>, max: nat, base: nat)
    returns (result: Poll)
    modifies server
    ensures var answers := AnswersTo(old(server.world), job, pauses, max, base);
      && result == FirstFinal(answers) && |answers| == 90
      && server.world == After(old(server.world), Elapsed(pauses, AnswersRead(answers)), max, base)
  {
    ghost var w := server.world;
    ghost var all := AnswersTo(w, job, pauses, max, base);
    assert all[0..] == all;
    for i := 0 to POLLS
      invariant server.world == After(w, Elapsed(pauses, i), max, base) && OpenBefore(all, i)
    {
      OneMorePause(w, pauses, i, max, base);
      server.Elapse(pauses(i), max, base);
      var status := StatusOf(server.world, job);
      AnswerAt(w, job, pauses, max, base, i);
      NextAnswer(all, i);
      if status.Completed? { return SawCompleted; }
      if status.Failed? { return SawFailed; }
    }
    AllOpen(all);
    result := TimedOut;
  }

  /** `upload_csv` and `poll_status`. */
  method UploadAndPoll(server: Server, tenant: Tenant, entity: EntityType, v: Visit, max: nat, base: nat)
    returns (upload: Option<Upload>, seen: bool)
    modifies server
    ensures (server.world, upload, seen) == UploadOne(old(server.world), tenant, entity, v, max, base)
  {
    server.Elapse(v.before, max, base);
    var accepted := server.Accept(v.job, tenant, v.path);
    if !accepted { return None, false; }
    upload := Some(Upload(entity, v.job, server.world));
    var poll := PollStatus(server, v.job, v.pauses, max, base);
    seen := poll.SawCompleted?;
  }

  /** The loop of `main`. */
  method UploadAll(server: Server, tenant: Tenant, selected: seq<EntityType>, visits: EntityType -> Visit,
                   max: nat, base: nat)
    returns (uploads: seq<Upload>, ok: bool)
    modifies server
    ensures (server.world, uploads, ok) == Export(old(server.world), tenant, selected, visits, max, base)
  {
    ghost var all := Export(server.world, tenant, selected, visits, max, base);
    uploads := [];
    NoUploads(all);
    assert selected[0..] == selected;
    for i := 0 to |selected|
      invariant all == WithUploads(uploads, Export(server.world, tenant, selected[i..], visits, max, base))
    {
      ExportGoesOn(server.world, tenant, selected, i, visits, max, base, uploads);
      var upload, seen := UploadAndPoll(server, tenant, selected[i], visits(selected[i]), max, base);
      uploads := uploads + (if upload.Some? then [upload.value] else []);
      if !seen { return uploads, false; }
    }
    NothingLeft(server.world, tenant, selected[|selected|..], visits, max, base, uploads);
    ok := true;
  }

  // ---------- the order of the uploads ----------

  /** Every upload of the run is one that some later part of it makes, in a world that the earlier part has
      led to; its log is new and pending. */
  lemma {:induction false} UploadsAreLater(
      w: World, tenant: Tenant, selected: seq<EntityType>, visits: EntityType -> Visit, max: nat, base: nat, x: Upload)
    returns (es: seq<Event>)
    requires x in Export(w, tenant, selected, visits, max, base).1
    ensures x.world == After(w, es, max, base) && x.entity in selected
    ensures exists path :: IsNewLog(x.world.logs, x.job, tenant, path)
    decreases |selected|
  {
    var v := visits(selected[0]);
    var (w1, upload, seen) := UploadOne(w, tenant, selected[0], v, max, base);
    var accepted := v.before + [Uploaded(v.job, tenant, v.path)];
    UploadIsAnEvent(w, tenant, v, max, base);
    if upload == Some(x) {
      assert IsNewLog(x.world.logs, x.job, tenant, v.path);
      es := accepted;
    } else {
      var rest := UploadsAreLater(w1, tenant, selected[1..], visits, max, base, x);
      assert upload.Some?;
      var polled := Elapsed(v.pauses, AnswersRead(AnswersTo(upload.value.world, v.job, v.pauses, max, base)));
      AfterBoth(w, accepted, polled, max, base);
      AfterBoth(w, accepted + polled, rest, max, base);
      es := accepted + polled + rest;
    }
  }

  /** Of the answers the first final one says COMPLETED. */
  predicate CompletedFirst(answers: seq<Status>) {
    exists i :: 0 <= i < |answers| && answers[i].Completed? && forall j | 0 <= j < i :: !Final(answers[j])
  }

  lemma {:induction false} CompletedFirstIff(answers: seq<Status>)
    ensures FirstFinal(answers).SawCompleted? <==> CompletedFirst(answers)
  {
    if FirstFinal(answers).SawCompleted? {
      LastAnswer(answers);
      OpenUntilRead(answers);
    } else if CompletedFirst(answers) {
      var i :| 0 <= i < |answers| && answers[i].Completed? && forall j | 0 <= j < i :: !Final(answers[j]);
      PollVerdict(answers, i);
      assert false;
    }
  }

  lemma {:induction false} OpenUntilRead(answers: seq<Status>)
    ensures forall j | 0 <= j < AnswersRead(answers) - 1 :: !Final(answers[j])
  {
    if answers != [] && !Final(answers[0]) {
      OpenUntilRead(answers[1..]);
      assert forall j | 0 < j < |answers| :: answers[j] == answers[1..][j - 1];
    }
  }

  /** The uploads are those of the first entities selected, one each, in their order. */
  predicate Follow(uploads: seq<Upload>, selected: seq<EntityType>, visits: EntityType -> Visit) {
    && |uploads| <= |selected|
    && forall i | 0 <= i < |uploads| ::
         uploads[i].entity == selected[i] && uploads[i].job == visits(selected[i]).job
  }

  predicate SeenComplete(x: Upload, visits: EntityType -> Visit, max: nat, base: nat) {
    CompletedFirst(AnswersTo(x.world, x.job, visits(x.entity).pauses, max, base))
  }

  /** All but the last were seen to complete, and the run succeeds exactly if every selected entity was uploaded and
      seen to complete. */
  lemma {:induction false} UploadsFollowSelection(
      w: World, tenant: Tenant, selected: seq<EntityType>, visits: EntityType -> Visit, max: nat, base: nat)
    ensures var (_, uploads, ok) := Export(w, tenant, selected, visits, max, base);
      && Follow(uploads, selected, visits)
      && (forall i | 0 <= i < |uploads| - 1 :: SeenComplete(uploads[i], visits, max, base))
      && (ok <==> |uploads| == |selected| && forall x | x in uploads :: SeenComplete(x, visits, max, base))
    decreases |selected|
  {
    if selected != [] {
      var (w1, upload, seen) := UploadOne(w, tenant, selected[0], visits(selected[0]), max, base);
      if upload.Some? {
        var x := upload.value;
        CompletedFirstIff(AnswersTo(x.world, x.job, visits(x.entity).pauses, max, base));
        if seen {
          UploadsFollowSelection(w1, tenant, selected[1..], visits, max, base);
          var rest := Export(w1, tenant, selected[1..], visits, max, base).1;
          OneMoreFollows(x, rest, selected, visits);
          OneMoreSeen(x, rest, visits, max, base);
        } else {
          assert x in Export(w, tenant, selected, visits, max, base).1;
        }
      }
    }
  }

  lemma OneMoreFollows(x: Upload, rest: seq<Upload>, selected: seq<EntityType>, visits: EntityType -> Visit)
    requires selected != [] && x.entity == selected[0] && x.job == visits(selected[0]).job
    requires Follow(rest, selected[1..], visits)
    ensures Follow([x] + rest, selected, visits)
  {
    var all := [x] + rest;
    forall i | 0 < i < |all| ensures all[i].entity == selected[i] && all[i].job == visits(selected[i]).job {
      assert all[i] == rest[i - 1] && selected[i] == selected[1..][i - 1];
    }
  }

  lemma OneMoreSeen(x: Upload, rest: seq<Upload>, visits: EntityType -> Visit, max: nat, base: nat)
    requires SeenComplete(x, visits, max, base)
    requires forall i | 0 <= i < |rest| - 1 :: SeenComplete(rest[i], visits, max, base)
    ensures forall i | 0 <= i < |[x] + rest| - 1 :: SeenComplete(([x] + rest)[i], visits, max, base)
    ensures (forall y | y in [x] + rest :: SeenComplete(y, visits, max, base)) <==>
      forall y | y in rest :: SeenComplete(y, visits, max, base)
  {
    var all := [x] + rest;
    forall i | 0 <= i < |all| - 1 ensures SeenComplete(all[i], visits, max, base) {
      if i > 0 { assert all[i] == rest[i - 1]; }
    }
    assert forall y :: y in all <==> y == x || y in rest;
  }

  lemma UploadIsAnEvent(w: World, tenant: Tenant, v: Visit, max: nat, base: nat)
    ensures After(w, v.before + [Uploaded(v.job, tenant, v.path)], max, base)
         == Enqueue(After(w, v.before, max, base), v.job, tenant, v.path)
  {
    assert (v.before + [Uploaded(v.job, tenant, v.path)])[..|v.before|] == v.before;
  }

  /** When the client sees COMPLETED, the log reads so. */
  lemma SeenMeansCompleted(u: World, job: JobId, pauses: nat -> seq<Event>, max: nat, base: nat)
    requires job in u.logs && FirstFinal(AnswersTo(u, job, pauses, max, base)).SawCompleted?
    ensures var done := After(u, Elapsed(pauses, AnswersRead(AnswersTo(u, job, pauses, max, base))), max, base);
      job in done.logs && done.logs[job].status.Completed?
  {
    var answers := AnswersTo(u, job, pauses, max, base);
    LastAnswer(answers);
    AnswerAt(u, job, pauses, max, base, AnswersRead(answers) - 1);
    LogsStay(u, Elapsed(pauses, AnswersRead(answers)), max, base, job);
  }

  /** The run makes the upload. */
  ghost predicate SyncAllUploads(w: World, tenant: Tenant, outputs: set<EntityType>, visits: EntityType -> Visit,
                                 max: nat, base: nat, x: Upload)
  {
    x in Export(w, tenant, Selected(Order(SyncAll), outputs), visits, max, base).1
  }

  /** In `sync-all`, with a product export, nothing that refers to products is uploaded before the product job
      has been accepted and was seen to complete, in a world that the upload comes after. */
  lemma ProductsCompleteFirst(w: World, tenant: Tenant, outputs: set<EntityType>, visits: EntityType -> Visit,
                              max: nat, base: nat, x: Upload)
    returns (u: World, done: World, es: seq<Event>)
    requires Products in outputs && (x.entity.Batches? || x.entity.Transactions?)
    ensures SyncAllUploads(w, tenant, outputs, visits, max, base, x) ==>
      var v := visits(Products);
      var answers := AnswersTo(u, v.job, v.pauses, max, base);
      && v.job !in After(w, v.before, max, base).logs
      && u == Enqueue(After(w, v.before, max, base), v.job, tenant, v.path)
      && done == After(u, Elapsed(v.pauses, AnswersRead(answers)), max, base)
      && v.job in done.logs && done.logs[v.job].status.Completed?
      && x.world == After(done, es, max, base)
  {
    u, done, es := w, w, [];
    if SyncAllUploads(w, tenant, outputs, visits, max, base, x) {
      var selected := Selected(Order(SyncAll), outputs);
      assert Order(SyncAll)[0] == Products;
      assert selected[0] == Products;
      var v := visits(Products);
      var (w1, upload, seen) := UploadOne(w, tenant, Products, v, max, base);
      assert upload.Some? && seen && x in Export(w1, tenant, selected[1..], visits, max, base).1;
      done, u := w1, upload.value.world;
      SeenMeansCompleted(u, v.job, v.pauses, max, base);
      es := UploadsAreLater(done, tenant, selected[1..], visits, max, base, x);
    }
  }

  // ---------- the product job ----------

  /** The rows an attempt reads are the transformed ones: the CSV is lossless, and pandas takes no
      cell but a blank one for missing. */
  ghost predicate ReadsExport(rows: seq<Row>, exported: seq<Cells>) {
    && |rows| == |exported|
    && forall i | 0 <= i < |rows| :: MapToProduct(ReadBack(exported[i])) == Success(rows[i].record)
  }

  /** Products once in the tables are there at the end of the import. */
  lemma {:induction false} ImportKeepsFrom(w: Work, tenant: Tenant, rows: seq<Row>, i: nat)
    requires Consistent(w.tables) && i <= |rows|
    ensures Consistent(Before(w, tenant, rows, i).tables)
    ensures Preserves(Before(w, tenant, rows, i).tables, Import(w, tenant, rows).0.tables)
    decreases |rows|
  {
    var b := BooksExist(w.tables);
    var _ := ImportPostsAccepted(w, b, tenant, rows[..i]);
    if i == |rows| {
      assert rows[..i] == rows;
    } else {
      var n := |rows| - 1;
      ImportKeepsFrom(w, tenant, rows[..n], i);
      assert rows[..n][..i] == rows[..i];
      var _ := ImportPostsAccepted(w, b, tenant, rows[..n]);
      var w1 := Import(w, tenant, rows[..n]).0;
      var b1 := BooksExist(w1.tables);
      RowRefines(w1, b1, tenant, rows[n].record, rows[n].draw);
      PreservesTransitive(Before(w, tenant, rows, i).tables, w1.tables, Import(w, tenant, rows).0.tables);
    }
  }

  lemma ListedStays(t: Tables, u: Tables, tenant: Tenant, sku: string)
    requires Preserves(t, u) && ProductIds(t, tenant, sku) != {}
    ensures ProductIds(u, tenant, sku) != {}
  {
    var id :| id in ProductIds(t, tenant, sku);
    assert ProductKept(t, u, id);
    assert id in ProductIds(u, tenant, sku);
  }

  /** An accepted product row is in the tables at the end of the import, whatever became of the others. */
  lemma AcceptedProductListed(w: Work, tenant: Tenant, rows: seq<Row>, i: nat)
    requires Consistent(w.tables) && i < |rows| && rows[i].record.ProductRecord?
    requires Import(w, tenant, rows).1[i].Accepted?
    ensures Normalize(rows[i].record).Success?
    ensures ProductIds(Import(w, tenant, rows).0.tables, tenant, Normalize(rows[i].record).value.sku) != {}
  {
    OutcomeAt(w, tenant, rows, i);
    ImportKeepsFrom(w, tenant, rows, i);
    ImportKeepsFrom(w, tenant, rows, i + 1);
    var w1 := Before(w, tenant, rows, i);
    var b := BooksExist(w1.tables);
    RowRefines(w1, b, tenant, rows[i].record, rows[i].draw);
    assert rows[..i + 1][..i] == rows[..i];
    ImportSnoc(w, tenant, rows[..i + 1]);
    var n := Normalize(rows[i].record).value;
    LookupsAgree(Before(w, tenant, rows, i + 1).tables, PostRow(b, tenant, rows[i].record).catalogue, tenant, n.sku);
    ListedStays(Before(w, tenant, rows, i + 1).tables, Import(w, tenant, rows).0.tables, tenant, n.sku);
  }

  lemma ValidProductListed(w: Work, tenant: Tenant, rows: seq<Row>, i: nat)
    requires Consistent(w.tables) && i < |rows| && rows[i].record.ProductRecord?
    requires Normalize(rows[i].record).Success? && !Import(w, tenant, rows).1[i].Errored?
    ensures ProductIds(Import(w, tenant, rows).0.tables, tenant, Normalize(rows[i].record).value.sku) != {}
  {
    OutcomeAt(w, tenant, rows, i);
    AcceptedProductListed(w, tenant, rows, i);
  }

  /** After a product import of the export, the SKU of every exported row that did not raise is in the tables. */
  lemma ExportedProductsListed(w: Work, tenant: Tenant, marg: seq<Cells>, rows: seq<Row>, i: nat)
    requires Consistent(w.tables) && ReadsExport(rows, Transformed(marg, ProductRow)) && i < |rows|
    requires !Import(w, tenant, rows).1[i].Errored?
    ensures var sku := SkuCell(Transformed(marg, ProductRow)[i]);
      sku.Some? && ProductIds(Import(w, tenant, rows).0.tables, tenant, sku.value) != {}
  {
    var x := Transformed(marg, ProductRow)[i];
    assert x in Transformed(marg, ProductRow);
    TransformedProductValid(marg, x);
    ValidProductListed(w, tenant, rows, i);
  }

  /** If the event is an attempt of the product job, it imports products, and if it reads its file to the end
      it has read the exported rows, and the insert of row `i` did not fail in the client library. */
  ghost predicate CarriesExport(e: Event, job: JobId, marg: seq<Cells>, i: nat) {
    e.Delivered? && e.job == job ==>
      && e.entity.Products?
      && (e.attempt.exhausts ==>
            && ReadsExport(e.attempt.rows, Transformed(marg, ProductRow)) && i < |e.attempt.rows|
            && !e.attempt.rows[i].draw.onStatement.ClientSide?)
  }

  /** A product row raises in a transaction that stays alive only if its insert failed in the client. */
  lemma OnlyClientFaultsRaise(w: Work, tenant: Tenant, r: Record, d: Draw)
    requires Consistent(w.tables) && r.ProductRecord? && !ImportRow(w, tenant, r, d).0.poisoned
    requires !d.onStatement.ClientSide?
    ensures !ImportRow(w, tenant, r, d).1.Errored?
  {
    if Normalize(r).Success? { OneProduct(w.tables, tenant, Normalize(r).value.sku); }
  }

  lemma SuccessListsExport(z: World, e: Event, marg: seq<Cells>, i: nat)
    requires Consistent(z.tables) && e.Delivered? && e.job in z.logs && CarriesExport(e, e.job, marg, i)
    requires RunAttempt(z, e.job, e.entity, e.attempt).1.Succeeded?
    ensures i < |Transformed(marg, ProductRow)|
    ensures var sku := SkuCell(Transformed(marg, ProductRow)[i]);
      sku.Some? && ProductIds(RunAttempt(z, e.job, e.entity, e.attempt).0.tables, z.logs[e.job].tenant, sku.value) != {}
  {
    var w, tenant, rows := Work(z.tables, false), z.logs[e.job].tenant, e.attempt.rows;
    var exported := Transformed(marg, ProductRow);
    assert RowsSeen(z, e.job, e.entity, e.attempt) == rows;
    OutcomeAt(w, tenant, rows, i);
    OutcomeAlive(w, tenant, rows, i);
    ImportKeepsFrom(w, tenant, rows, i);
    assert exported[i] in exported;
    TransformedProductValid(marg, exported[i]);
    OnlyClientFaultsRaise(Before(w, tenant, rows, i), tenant, rows[i].record, rows[i].draw);
    ExportedProductsListed(w, tenant, marg, rows, i);
  }

  lemma OutcomeAlive(w: Work, tenant: Tenant, rows: seq<Row>, i: nat)
    requires i < |rows| && !Import(w, tenant, rows).0.poisoned
    ensures !ImportRow(Before(w, tenant, rows, i), tenant, rows[i].record, rows[i].draw).0.poisoned
  {
    assert rows[..i + 1][..i] == rows[..i];
    ImportSnoc(w, tenant, rows[..i + 1]);
    if Before(w, tenant, rows, i + 1).poisoned { PoisonIsForever(w, tenant, rows, i + 1); }
  }

  lemma {:induction false} PausesCarry(pauses: nat -> seq<Event>, n: nat, job: JobId, marg: seq<Cells>, i: nat)
    requires n <= POLLS
    requires forall p: nat, e | p < POLLS && e in pauses(p) :: CarriesExport(e, job, marg, i)
    ensures forall e | e in Elapsed(pauses, n) :: CarriesExport(e, job, marg, i)
  {
    if n > 0 { PausesCarry(pauses, n - 1, job, marg, i); }
  }

  lemma RestKeeps(u: World, es: seq<Event>, n: nat, max: nat, base: nat)
    requires Consistent(u.tables) && n < |es|
    ensures Preserves(Happen(After(u, es[..n], max, base), es[n], max, base).tables, After(u, es, max, base).tables)
  {
    assert es[..n + 1][..n] == es[..n];
    assert es == es[..n + 1] + es[n + 1..];
    AfterBoth(u, es[..n + 1], es[n + 1..], max, base);
    EventsKeepConsistent(u, es[..n + 1], max, base);
    EventsKeepConsistent(After(u, es[..n + 1], max, base), es[n + 1..], max, base);
  }

  /** A product job that comes to read COMPLETED has left the SKU of the exported row in the tables. */
  lemma CompletedJobLists(u: World, es: seq<Event>, job: JobId, marg: seq<Cells>, i: nat, max: nat, base: nat)
    requires Consistent(u.tables) && job in u.logs && !u.logs[job].status.Completed?
    requires job in After(u, es, max, base).logs && After(u, es, max, base).logs[job].status.Completed?
    requires forall e | e in es :: CarriesExport(e, job, marg, i)
    ensures i < |Transformed(marg, ProductRow)|
    ensures var sku := SkuCell(Transformed(marg, ProductRow)[i]);
      sku.Some? && ProductIds(After(u, es, max, base).tables, u.logs[job].tenant, sku.value) != {}
  {
    var n := CompletedMeansSucceeded(u, es, job, max, base);
    var z := After(u, es[..n], max, base);
    EventsKeepConsistent(u, es[..n], max, base);
    LogsStay(u, es[..n], max, base, job);
    assert es[n] in es;
    SuccessListsExport(z, es[n], marg, i);
    var v := Happen(z, es[n], max, base);
    EventKeepsConsistent(z, es[n], max, base);
    RestKeeps(u, es, n, max, base);
    ListedStays(v.tables, After(u, es, max, base).tables, u.logs[job].tenant,
                SkuCell(Transformed(marg, ProductRow)[i]).value);
  }

  // ---------- and so every reference resolves ----------

  /** A valid row whose product is listed is not refused. */
  lemma ListedProductResolves(w: Work, tenant: Tenant, rows: seq<Row>, k: nat)
    requires Consistent(w.tables) && k < |rows| && Normalize(rows[k].record).Success?
    requires ProductIds(w.tables, tenant, Normalize(rows[k].record).value.sku) != {}
    ensures !Import(w, tenant, rows).1[k].Rejected?
  {
    var n := Normalize(rows[k].record).value;
    var b := BooksExist(w.tables);
    var _ := ImportPostsAccepted(w, b, tenant, rows[..k]);
    OutcomeAt(w, tenant, rows, k);
    ListedStays(w.tables, Before(w, tenant, rows, k).tables, tenant, n.sku);
    if !n.ProductRecord? { RejectedOnlyUnresolved(Before(w, tenant, rows, k), tenant, n, rows[k].draw); }
  }

  /** What is assumed of the product export: it was there, and the attempts at its job read it, row `i`
      without a failure in the client library. */
  ghost predicate ProductsExported(outputs: set<EntityType>, visits: EntityType -> Visit, marg: seq<Cells>, i: nat) {
    Products in outputs &&
    forall p: nat, e | p < POLLS && e in visits(Products).pauses(p) ::
      CarriesExport(e, visits(Products).job, marg, i)
  }

  /** What the run has established by the time it uploads anything that refers to products. */
  lemma UploadFindsProducts(w: World, tenant: Tenant, outputs: set<EntityType>, visits: EntityType -> Visit,
                            max: nat, base: nat, marg: seq<Cells>, i: nat, x: Upload)
    requires Consistent(w.tables) && ProductsExported(outputs, visits, marg, i)
    requires x.entity.Batches? || x.entity.Transactions?
    ensures SyncAllUploads(w, tenant, outputs, visits, max, base, x) ==>
      && i < |Transformed(marg, ProductRow)| && Consistent(x.world.tables)
      && var sku := SkuCell(Transformed(marg, ProductRow)[i]);
      sku.Some? && ProductIds(x.world.tables, tenant, sku.value) != {}
  {
    if SyncAllUploads(w, tenant, outputs, visits, max, base, x) {
      var v := visits(Products);
      var u, done, es := ProductsCompleteFirst(w, tenant, outputs, visits, max, base, x);
      var polled := Elapsed(v.pauses, AnswersRead(AnswersTo(u, v.job, v.pauses, max, base)));
      EventsKeepConsistent(w, v.before, max, base);
      PausesCarry(v.pauses, AnswersRead(AnswersTo(u, v.job, v.pauses, max, base)), v.job, marg, i);
      CompletedJobLists(u, polled, v.job, marg, i, max, base);
      EventsKeepConsistent(u, polled, max, base);
      EventsKeepConsistent(done, es, max, base);
      ListedStays(done.tables, x.world.tables, tenant, SkuCell(Transformed(marg, ProductRow)[i]).value);
    }
  }

  /** The SKU of the row is that of the product export's row `i`. */
  predicate SharesSku(y: Cells, marg: seq<Cells>, i: nat) {
    i < |Transformed(marg, ProductRow)| && SkuCell(y) == SkuCell(Transformed(marg, ProductRow)[i])
  }

  /** The connector of the attempt makes row `k` of the transformed row `x`. */
  ghost predicate ReadsBatch(rows: seq<Row>, k: nat, x: Cells) {
    k < |rows| && MapToBatch(ReadBack(x)) == Success(rows[k].record)
  }

  ghost predicate ReadsDispatch(rows: seq<Row>, k: nat, x: Cells, otherwise: int) {
    k < |rows| && MapToTransaction(ReadBack(x), otherwise) == Success(rows[k].record)
  }

  /** The whole chain. When `sync-all` with a product export uploads batches, then in every attempt of that job,
      whatever happens before it, no transformed batch row is refused whose SKU occurs in the product export. */
  lemma ExportedBatchesResolve(
      w: World, tenant: Tenant, outputs: set<EntityType>, visits: EntityType -> Visit, max: nat, base: nat,
      marg: seq<Cells>, i: nat, x: Upload, es: seq<Event>, a: Attempt,
      batches: seq<Cells>, defaultLocation: string, y: Cells, k: nat)
    requires Consistent(w.tables) && ProductsExported(outputs, visits, marg, i) && x.entity.Batches?
    ensures SyncAllUploads(w, tenant, outputs, visits, max, base, x) ==>
      var u := After(x.world, es, max, base);
      && x.job in u.logs
      && (y in Transformed(batches, BatchTransform(defaultLocation)) && SharesSku(y, marg, i)
          && ReadsBatch(RowsSeen(u, x.job, Batches, a), k, y) ==>
            !Streamed(u, x.job, Batches, a).1[k].Rejected?)
  {
    if SyncAllUploads(w, tenant, outputs, visits, max, base, x) {
      var u := After(x.world, es, max, base);
      UploadFindsListed(w, tenant, outputs, visits, max, base, marg, i, x, es);
      var rows := RowsSeen(u, x.job, Batches, a);
      if y in Transformed(batches, BatchTransform(defaultLocation)) && SharesSku(y, marg, i)
         && ReadsBatch(rows, k, y) {
        TransformedBatchValid(batches, defaultLocation, y);
        ListedProductResolves(Work(u.tables, false), tenant, rows, k);
      }
    }
  }

  /** And when it uploads dispatches, exactly those without a location. */
  lemma ExportedDispatchesResolveIff(
      w: World, tenant: Tenant, outputs: set<EntityType>, visits: EntityType -> Visit, max: nat, base: nat,
      marg: seq<Cells>, i: nat, x: Upload, es: seq<Event>, a: Attempt,
      dispatches: seq<Cells>, defaultLocation: string, y: Cells, otherwise: int, k: nat)
    requires Consistent(w.tables) && ProductsExported(outputs, visits, marg, i) && x.entity.Transactions?
    ensures SyncAllUploads(w, tenant, outputs, visits, max, base, x) ==>
      var u := After(x.world, es, max, base);
      && x.job in u.logs
      && (y in Transformed(dispatches, DispatchTransform(defaultLocation)) && SharesSku(y, marg, i)
          && ReadsDispatch(RowsSeen(u, x.job, Transactions, a), k, y, otherwise) ==>
            "Location" in y
            && (Streamed(u, x.job, Transactions, a).1[k].Rejected? <==> Text.Strip(y["Location"]) == ""))
  {
    if SyncAllUploads(w, tenant, outputs, visits, max, base, x) {
      var u := After(x.world, es, max, base);
      UploadFindsListed(w, tenant, outputs, visits, max, base, marg, i, x, es);
      var rows := RowsSeen(u, x.job, Transactions, a);
      if y in Transformed(dispatches, DispatchTransform(defaultLocation)) && SharesSku(y, marg, i)
         && ReadsDispatch(rows, k, y, otherwise) {
        TransformedDispatchValidIff(dispatches, defaultLocation, y, otherwise);
        if Normalize(rows[k].record).Success? {
          ListedProductResolves(Work(u.tables, false), tenant, rows, k);
        } else {
          OutcomeAt(Work(u.tables, false), tenant, rows, k);
        }
      }
    }
  }

  lemma UploadFindsListed(w: World, tenant: Tenant, outputs: set<EntityType>, visits: EntityType -> Visit,
                          max: nat, base: nat, marg: seq<Cells>, i: nat, x: Upload, es: seq<Event>)
    requires Consistent(w.tables) && ProductsExported(outputs, visits, marg, i)
    requires x.entity.Batches? || x.entity.Transactions?
    ensures SyncAllUploads(w, tenant, outputs, visits, max, base, x) ==>
      var u := After(x.world, es, max, base);
      && Consistent(u.tables) && x.job in u.logs && u.logs[x.job].tenant == tenant
      && i < |Transformed(marg, ProductRow)| && SkuCell(Transformed(marg, ProductRow)[i]).Some?
      && ProductIds(u.tables, tenant, SkuCell(Transformed(marg, ProductRow)[i]).value) != {}
  {
    if SyncAllUploads(w, tenant, outputs, visits, max, base, x) {
      UploadFindsProducts(w, tenant, outputs, visits, max, base, marg, i, x);
      var _ := UploadsAreLater(w, tenant, Selected(Order(SyncAll), outputs), visits, max, base, x);
      EventsKeepConsistent(x.world, es, max, base);
      LogsStay(x.world, es, max, base, x.job);
      ListedStays(x.world.tables, After(x.world, es, max, base).tables, tenant,
                  SkuCell(Transformed(marg, ProductRow)[i]).value);
    }
  }
}
