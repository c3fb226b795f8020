/** Safety of attempts, of retried jobs, and of every serial sequence of deliveries. */
module SyncLaws {
  import opened Wrappers
  import opened Store
  import opened Importer
  import opened Books
  import opened BookLaws
  import opened ImportLaws
  import opened Poisoning
  import opened Powers
  import opened SyncService
  import opened Timeline

  // ---------- one attempt ----------

  /** An attempt completes exactly when nothing on the way failed for good: it started, the connector was
      built and ran to its end, the commit went through, and no row poisoned the transaction, even though
      the loop swallowed the error and went on. */
  lemma CompletesIff(w: World, job: JobId, entity: EntityType, a: Attempt)
    requires job in w.logs && Consistent(w.tables)
    ensures RunAttempt(w, job, entity, a).1.Succeeded? <==>
      && a.starts && a.connects && a.commits && StreamEnds(entity, w.logs[job].path in w.files, a)
      && forall i :: !PoisonsAt(Work(w.tables, false), w.logs[job].tenant, RowsSeen(w, job, entity, a), i)
  {
    ImportPoisonedIff(Work(w.tables, false), w.logs[job].tenant, RowsSeen(w, job, entity, a));
  }

  /** Whatever the tables: the poison of any row is still there at the commit. */
  lemma PoisonDecides(w: World, job: JobId, entity: EntityType, a: Attempt)
    requires job in w.logs
    ensures RunAttempt(w, job, entity, a).1.Succeeded? <==>
      && a.starts && a.connects && a.commits && StreamEnds(entity, w.logs[job].path in w.files, a)
      && forall i | 0 <= i <= |RowsSeen(w, job, entity, a)| ::
           !Before(Work(w.tables, false), w.logs[job].tenant, RowsSeen(w, job, entity, a), i).poisoned
  {
    var rows, tenant := RowsSeen(w, job, entity, a), w.logs[job].tenant;
    assert rows[..|rows|] == rows;
    assert Before(Work(w.tables, false), tenant, rows, |rows|) == Streamed(w, job, entity, a).0;
    forall i | 0 <= i <= |rows| && Before(Work(w.tables, false), tenant, rows, i).poisoned
      ensures Streamed(w, job, entity, a).0.poisoned
    {
      PoisonIsForever(Work(w.tables, false), tenant, rows, i);
    }
  }

  /** An attempt that does not complete commits no row of any domain table, counts nothing and keeps
      the file; all it can change is its own status, to FAILED. */
  lemma FailedAttemptWritesNothing(w: World, job: JobId, entity: EntityType, a: Attempt)
    requires RunAttempt(w, job, entity, a).1.Raised?
    ensures var v := RunAttempt(w, job, entity, a).0;
      && v.tables == w.tables && v.files == w.files
      && v.logs == w.logs[job := w.logs[job].(status := if a.starts then Failed else w.logs[job].status)]
  {
    assert !a.starts ==> w.logs[job := w.logs[job].(status := w.logs[job].status)] == w.logs;
  }

  /** `v` is `w`, but for the job's status. */
  predicate SameButStatus(w: World, v: World, job: JobId) {
    && job in w.logs && job in v.logs
    && v == w.(logs := w.logs[job := w.logs[job].(status := v.logs[job].status)])
  }

  lemma StatusIsIrrelevant(w: World, v: World, job: JobId, entity: EntityType, a: Attempt)
    requires SameButStatus(w, v, job)
    ensures RunAttempt(v, job, entity, a).1 == RunAttempt(w, job, entity, a).1
    ensures RunAttempt(v, job, entity, a).1.Succeeded? ==>
      RunAttempt(v, job, entity, a) == RunAttempt(w, job, entity, a)
    ensures RunAttempt(v, job, entity, a).1.Raised? ==> SameButStatus(w, RunAttempt(v, job, entity, a).0, job)
  {
    var y := w.logs[job].(status := Failed);
    assert v.logs[job := y] == w.logs[job := y];
    assert Streamed(v, job, entity, a) == Streamed(w, job, entity, a);
    var x := Counted(w.logs[job], Streamed(w, job, entity, a).1).(status := Completed);
    assert v.logs[job := x] == w.logs[job := x];
  }

  lemma {:induction false} AcceptedCounted(rows: seq<Row>, os: seq<Outcome>)
    requires |rows| == |os|
    ensures |AcceptedRecords(rows, os)| == CountAccepted(os)
  {
    if rows != [] { AcceptedCounted(rows[..|rows| - 1], os[..|os| - 1]); }
  }

  /** An attempt that completes in a consistent world posts its accepted records and counts each of its rows
      once, in its own log and no other. */
  lemma CompletedAttemptPostsOnce(w: World, b: Books, job: JobId, entity: EntityType, a: Attempt) returns (c: Books)
    requires job in w.logs && Consistent(w.tables) && Keeps(w.tables, b) && RunAttempt(w, job, entity, a).1.Succeeded?
    ensures var v := RunAttempt(w, job, entity, a).0;
      && Consistent(v.tables) && Keeps(v.tables, c)
      && UpToSites(c, PostAll(b, w.logs[job].tenant, Posted(w, job, entity, a)), LeftBehind(w, job, entity, a))
      && job in v.logs && v.logs == w.logs[job := v.logs[job]]
      && CountsOnce(w.logs[job], v.logs[job], |Posted(w, job, entity, a)|, |RowsSeen(w, job, entity, a)|)
  {
    c := AttemptPosts(w, b, job, entity, a);
    AcceptedCounted(RowsSeen(w, job, entity, a), Streamed(w, job, entity, a).1);
  }

  /** A completed log, with that many records accepted out of that many. */
  predicate CountsOnce(before: SyncLog, log: SyncLog, accepted: nat, seen: nat) {
    && accepted <= seen && log.status.Completed? && log.tenant == before.tenant && log.path == before.path
    && log.total == before.total + seen && log.processed == before.processed + accepted
    && log.failed == before.failed + (seen - accepted)
  }

  // ---------- redelivery ----------

  /** There is no guard on the status. Delivered once more after it completed, whatever was uploaded and done
      for other tenants since, a job stays COMPLETED exactly when the delivery dies before it begins, or
      when the connector has nothing to read and all else works; otherwise, its file being gone, it
      becomes FAILED. The tables stay as they are. */
  lemma RedeliveryKeepsCompletedIff(w: World, job: JobId, entity: EntityType, a: Attempt, between: seq<Event>,
                                    again: Attempt, max: nat, base: nat)
    requires RunAttempt(w, job, entity, a).1.Succeeded? && (w.logs[job].path != "" || "" !in w.files)
    requires PathsDistinct(w)
    requires ByOthers(RunAttempt(w, job, entity, a).0, between, w.logs[job].tenant, max, base)
    ensures var v := After(RunAttempt(w, job, entity, a).0, between, max, base);
      var u := RunAttempt(v, job, entity, again).0;
      && job in v.logs && v.logs[job].status.Completed? && u.tables == v.tables && job in u.logs
      && (u.logs[job].status.Completed? <==>
            (!again.starts || (entity.OtherEntity? && again.connects && again.commits)))
      && (!u.logs[job].status.Completed? ==> u.logs[job].status.Failed?)
  {
    var done := RunAttempt(w, job, entity, a).0;
    OthersLeaveJob(done, between, job, max, base);
    RedeliveredWithoutFile(After(done, between, max, base), job, entity, again);
  }

  lemma RedeliveredWithoutFile(v: World, job: JobId, entity: EntityType, again: Attempt)
    requires job in v.logs && v.logs[job].status.Completed? && v.logs[job].path !in v.files
    ensures var u := RunAttempt(v, job, entity, again).0;
      && u.tables == v.tables && job in u.logs
      && (u.logs[job].status.Completed? <==>
            (!again.starts || (entity.OtherEntity? && again.connects && again.commits)))
      && (!u.logs[job].status.Completed? ==> u.logs[job].status.Failed?)
  {
  }

  /** And it happens: a one-row product import, completed and delivered again. */
  lemma RedeliveryFails() returns (w: World, job: JobId, a: Attempt)
    ensures RunAttempt(w, job, Products, a).1.Succeeded?
    ensures RunAttempt(RunAttempt(w, job, Products, a).0, job, Products, a).0.logs[job].status.Failed?
  {
    job, w := 1, OneJob();
    a := Attempt(true, true, [OneRow(Fine)], true, true);
    OneRowImport(Fine);
    assert Streamed(w, job, Products, a) == Import(Work(EMPTY, false), 0, [OneRow(Fine)]);
    RedeliveryKeepsCompletedIff(w, job, Products, a, [], a, 0, 0);
  }

  // ---------- one bad row ----------

  function OneJob(): World {
    World(EMPTY, map[1 := SyncLog(0, "upload.csv", Pending, 0, 0, 0)], {"upload.csv"})
  }

  function OneRow(f: Fault): Row {
    Row(ProductRecord("A", "B", None, "pcs", 0, 0), Draw(1, 1, Fine, Fine, Fine, f, Fine))
  }

  lemma OneRowImport(f: Fault)
    ensures Import(Work(EMPTY, false), 0, [OneRow(f)]).0.poisoned == f.ServerSide?
  {
    assert [OneRow(f)][..0] == [];
    assert Import(Work(EMPTY, false), 0, []) == (Work(EMPTY, false), []);
    assert Normalize(OneRow(f).record).Success?;
  }

  /** A file of one valid row: everything else works, but the row's statement fails in the server, and
      the whole attempt raises. Had it failed in the client, the attempt would have completed. */
  lemma OneBadRowFailsTheAttempt() returns (w: World, job: JobId, a: Attempt, client: Attempt)
    ensures job in w.logs && w.logs[job].path in w.files && a.starts && a.connects && a.exhausts && a.commits
    ensures |a.rows| == 1 && RunAttempt(w, job, Products, a).1.Raised?
    ensures |client.rows| == 1 && client.rows[0].record == a.rows[0].record
    ensures RunAttempt(w, job, Products, client).1.Succeeded?
  {
    job, w := 1, OneJob();
    a := Attempt(true, true, [OneRow(ServerSide)], true, true);
    client := a.(rows := [OneRow(ClientSide)]);
    OneRowImport(ServerSide);
    OneRowImport(ClientSide);
    assert Streamed(w, job, Products, a) == Import(Work(EMPTY, false), 0, [OneRow(ServerSide)]);
    assert Streamed(w, job, Products, client) == Import(Work(EMPTY, false), 0, [OneRow(ClientSide)]);
  }

  // ---------- the retried job ----------

  /** A whole job: the worlds its attempts met, the delays between them, the statuses committed for
      its log in order, and how it ended. */
  datatype Trace = Trace(starts: seq<World>, delays: seq<nat>, history: seq<Status>, end: World, verdict: Verdict)

  function StatusesOf(w: World, job: JobId, entity: EntityType, a: Attempt): seq<Status> {
    if job !in w.logs || !a.starts then []
    else [Running, RunAttempt(w, job, entity, a).0.logs[job].status]
  }

  /** The job from its retry number `k` on. `between(k)` is what happens before that attempt, while the
      task waits in the queue or for its delay to pass. */
  function RunJob(w: World, job: JobId, entity: EntityType, script: nat -> Attempt, between: nat -> seq<Event>,
                  k: nat, max: nat, base: nat): Trace
    decreases if k < max then max - k else 0, 1
  {
    RunFrom(After(w, between(k), max, base), job, entity, script, between, k, max, base)
  }

  /** From the moment on at which the attempt starts. */
  function RunFrom(u: World, job: JobId, entity: EntityType, script: nat -> Attempt, between: nat -> seq<Event>,
                   k: nat, max: nat, base: nat): Trace
    decreases if k < max then max - k else 0, 0
  {
    var (v, verdict) := TaskCall(u, job, entity, script(k), k, max, base);
    var statuses := StatusesOf(u, job, entity, script(k));
    match verdict
    case RetryIn(delay) =>
      Retried(u, delay, statuses, RunJob(v, job, entity, script, between, k + 1, max, base))
    case _ => Trace([u], [], statuses, v, verdict)
  }

  function Retried(u: World, delay: nat, statuses: seq<Status>, rest: Trace): Trace {
    Trace([u] + rest.starts, [delay] + rest.delays, statuses + rest.history, rest.end, rest.verdict)
  }

  /** While the job lasts, nothing else happens but uploads and jobs of other tenants. */
  ghost predicate OthersBetween(w: World, job: JobId, entity: EntityType, script: nat -> Attempt,
                                between: nat -> seq<Event>, k: nat, max: nat, base: nat)
    requires job in w.logs
    decreases if k < max then max - k else 0, 1
  {
    && ByOthers(w, between(k), w.logs[job].tenant, max, base)
    && OthersLater(After(w, between(k), max, base), job, entity, script, between, k, max, base)
  }

  ghost predicate OthersLater(u: World, job: JobId, entity: EntityType, script: nat -> Attempt,
                              between: nat -> seq<Event>, k: nat, max: nat, base: nat)
    decreases if k < max then max - k else 0, 0
  {
    var (v, verdict) := TaskCall(u, job, entity, script(k), k, max, base);
    verdict.RetryIn? && job in v.logs ==> OthersBetween(v, job, entity, script, between, k + 1, max, base)
  }

  /** An attempt that is to be retried leaves everything but the status of its log. */
  lemma RetryLeaves(w: World, job: JobId, entity: EntityType, a: Attempt, k: nat, max: nat, base: nat)
    requires job in w.logs && PathsDistinct(w) && TaskCall(w, job, entity, a, k, max, base).1.RetryIn?
    ensures var v := TaskCall(w, job, entity, a, k, max, base).0;
      && k < max && RunAttempt(w, job, entity, a).1.Raised?
      && v.tables == w.tables && v.files == w.files && PathsDistinct(v) && job in v.logs
      && v.logs[job] == w.logs[job].(status := if a.starts then Failed else w.logs[job].status)
  {
    FailedAttemptWritesNothing(w, job, entity, a);
  }

  /** `c` is `b`, as far as the tenant is concerned, but for some of the sites in `extra`. */
  ghost predicate SliceUpToSites(c: Books, b: Books, tenant: Tenant, extra: set<Site>) {
    && SameFor(c, b.(sites := c.sites), tenant)
    && (forall s: Site | s.tenant == tenant && s in b.sites :: s in c.sites)
    && (forall s: Site | s.tenant == tenant && s in c.sites :: s in b.sites || s in extra)
  }

  /** What the last attempt leaves, given the log and the books of the tenant when the job was queued. */
  ghost predicate EndsWell(log: SyncLog, b: Books, c: Books, job: JobId, entity: EntityType,
                           last: World, a: Attempt, end: World)
  {
    && job in last.logs && job in end.logs && RunAttempt(last, job, entity, a) == (end, Succeeded)
    && last.logs[job].tenant == log.tenant
    && SliceUpToSites(c, PostAll(b, log.tenant, Posted(last, job, entity, a)), log.tenant,
                      LeftBehind(last, job, entity, a))
    && CountsOnce(log, end.logs[job], |Posted(last, job, entity, a)|, |RowsSeen(last, job, entity, a)|)
    && EndsClean(log.tenant, b, c, job, entity, last, a)
  }

  /** If no row raised, that is one clean import of all the records that were read, locations included. */
  ghost predicate EndsClean(tenant: Tenant, b: Books, c: Books, job: JobId, entity: EntityType,
                            last: World, a: Attempt)
    requires job in last.logs
  {
    NoneErrored(Streamed(last, job, entity, a).1) ==>
      SameFor(c, PostAll(b, tenant, Records(RowsSeen(last, job, entity, a))), tenant)
  }

  ghost predicate EndsUnchanged(log: SyncLog, b: Books, c: Books, job: JobId, entity: EntityType,
                                last: World, a: Attempt, end: World)
  {
    && RunAttempt(last, job, entity, a).1.Raised?
    && SameFor(b, c, log.tenant) && job in end.logs && end.logs[job] == log.(status := end.logs[job].status)
  }

  ghost predicate EndsAs(verdict: Verdict, log: SyncLog, b: Books, c: Books, job: JobId, entity: EntityType,
                         last: World, a: Attempt, end: World)
  {
    match verdict
    case Done => EndsWell(log, b, c, job, entity, last, a, end)
    case GaveUp => EndsUnchanged(log, b, c, job, entity, last, a, end)
    case RetryIn(_) => false
  }

  predicate AllButLastFail(starts: seq<World>, job: JobId, entity: EntityType, script: nat -> Attempt, k: nat) {
    |starts| > 1 ==>
      RunAttempt(starts[0], job, entity, script(k)).1.Raised? && AllButLastFail(starts[1..], job, entity, script, k + 1)
  }

  /** What a retried job comes to. */
  ghost predicate IsOneImport(log: SyncLog, b: Books, c: Books, job: JobId, entity: EntityType,
                              script: nat -> Attempt, k: nat, max: nat, j: Trace)
  {
    var n := |j.starts| - 1;
    && 0 <= n && k + n <= max && Consistent(j.end.tables) && Keeps(j.end.tables, c)
    && AllButLastFail(j.starts, job, entity, script, k)
    && (j.verdict.GaveUp? ==> k + n == max)
    && EndsAs(j.verdict, log, b, c, job, entity, j.starts[n], script(k + n), j.end)
  }

  /** Retrying refines a single import, whatever fails and whatever other tenants do in the meantime: the
      job ends with the accepted records of its one successful attempt posted once to its tenant's
      books as they were when it was queued, each row counted once; or after exactly `max + 1` failures
      with those books and the counters as they were. */
  lemma {:induction false} RetriedJobIsOneImport(
      w: World, b: Books, job: JobId, entity: EntityType, script: nat -> Attempt, between: nat -> seq<Event>,
      k: nat, max: nat, base: nat)
    returns (c: Books)
    requires job in w.logs && k <= max && PathsDistinct(w) && Consistent(w.tables) && Keeps(w.tables, b)
    requires OthersBetween(w, job, entity, script, between, k, max, base)
    ensures IsOneImport(w.logs[job], b, c, job, entity, script, k, max,
                        RunJob(w, job, entity, script, between, k, max, base))
    decreases max - k, 1
  {
    OthersLeaveJob(w, between(k), job, max, base);
    var b1 := OthersLeaveBooks(w, b, between(k), w.logs[job].tenant, max, base);
    c := AttemptAndRest(After(w, between(k), max, base), b, b1, job, entity, script, between, k, max, base);
  }

  /** However many attempts it took and whatever other tenants did meanwhile, a completed job has posted the
      accepted records of its last attempt to its tenant's books once, and counted each row once. */
  lemma CompletedJobPostsOnce(
      w: World, b: Books, job: JobId, entity: EntityType, script: nat -> Attempt, between: nat -> seq<Event>,
      max: nat, base: nat)
    returns (c: Books)
    requires job in w.logs && PathsDistinct(w) && Consistent(w.tables) && Keeps(w.tables, b)
    requires OthersBetween(w, job, entity, script, between, 0, max, base)
    ensures var j := RunJob(w, job, entity, script, between, 0, max, base);
      && j.starts != [] && Keeps(j.end.tables, c)
      && var n := |j.starts| - 1;
      j.verdict.Done? ==> EndsWell(w.logs[job], b, c, job, entity, j.starts[n], script(n), j.end)
  {
    c := RetriedJobIsOneImport(w, b, job, entity, script, between, 0, max, base);
  }

  lemma {:induction false} AttemptAndRest(
      u: World, b: Books, b1: Books, job: JobId, entity: EntityType, script: nat -> Attempt,
      between: nat -> seq<Event>, k: nat, max: nat, base: nat)
    returns (c: Books)
    requires job in u.logs && k <= max && PathsDistinct(u) && Consistent(u.tables) && Keeps(u.tables, b1)
    requires SameFor(b, b1, u.logs[job].tenant)
    requires OthersLater(u, job, entity, script, between, k, max, base)
    ensures IsOneImport(u.logs[job], b, c, job, entity, script, k, max,
                        RunFrom(u, job, entity, script, between, k, max, base))
    decreases max - k, 0
  {
    var (v, verdict) := TaskCall(u, job, entity, script(k), k, max, base);
    var statuses := StatusesOf(u, job, entity, script(k));
    match verdict
    case RetryIn(delay) =>
      RetryLeaves(u, job, entity, script(k), k, max, base);
      c := RetriedJobIsOneImport(v, b1, job, entity, script, between, k + 1, max, base);
      FirstFailureIsForgotten(u.logs[job], v.logs[job], b, b1, c, job, entity, script, k, max, u, delay, statuses,
                              RunJob(v, job, entity, script, between, k + 1, max, base));
    case _ =>
      c := OnlyAttempt(u, b, b1, job, entity, script, statuses, k, max, base);
  }

  lemma OnlyAttempt(u: World, b: Books, b1: Books, job: JobId, entity: EntityType, script: nat -> Attempt,
                    statuses: seq<Status>, k: nat, max: nat, base: nat)
    returns (c: Books)
    requires job in u.logs && Consistent(u.tables) && Keeps(u.tables, b1) && SameFor(b, b1, u.logs[job].tenant)
    requires k <= max && !TaskCall(u, job, entity, script(k), k, max, base).1.RetryIn?
    ensures var (v, verdict) := TaskCall(u, job, entity, script(k), k, max, base);
      IsOneImport(u.logs[job], b, c, job, entity, script, k, max, Trace([u], [], statuses, v, verdict))
  {
    c := LastAttempt(u, b, b1, job, entity, script(k), k, max, base);
  }

  lemma LastAttempt(u: World, b: Books, b1: Books, job: JobId, entity: EntityType, a: Attempt,
                    k: nat, max: nat, base: nat)
    returns (c: Books)
    requires job in u.logs && Consistent(u.tables) && Keeps(u.tables, b1) && SameFor(b, b1, u.logs[job].tenant)
    ensures var (v, verdict) := TaskCall(u, job, entity, a, k, max, base);
      && Consistent(v.tables) && Keeps(v.tables, c)
      && (verdict.Done? ==> EndsWell(u.logs[job], b, c, job, entity, u, a, v))
      && (verdict.GaveUp? ==> k >= max && EndsUnchanged(u.logs[job], b, c, job, entity, u, a, v))
  {
    c := b1;
    if RunAttempt(u, job, entity, a).1.Succeeded? {
      c := CompletedAttemptPostsOnce(u, b1, job, entity, a);
      PostedToSlice(b, b1, c, u.logs[job].tenant, Posted(u, job, entity, a), LeftBehind(u, job, entity, a));
      if NoneErrored(Streamed(u, job, entity, a).1) { CleanAttempt(u, b, b1, c, job, entity, a); }
    } else {
      FailedAttemptWritesNothing(u, job, entity, a);
    }
  }

  lemma CleanAttempt(u: World, b: Books, b1: Books, c: Books, job: JobId, entity: EntityType, a: Attempt)
    requires job in u.logs && Consistent(u.tables) && Keeps(u.tables, b1) && SameFor(b, b1, u.logs[job].tenant)
    requires UpToSites(c, PostAll(b1, u.logs[job].tenant, Posted(u, job, entity, a)), LeftBehind(u, job, entity, a))
    requires NoneErrored(Streamed(u, job, entity, a).1)
    ensures EndsClean(u.logs[job].tenant, b, c, job, entity, u, a)
  {
    var tenant, rows := u.logs[job].tenant, RowsSeen(u, job, entity, a);
    NoneRaised(tenant, rows, Streamed(u, job, entity, a).1);
    CleanImportPosts(Work(u.tables, false), b1, tenant, rows);
    assert c.sites == PostAll(b1, tenant, Posted(u, job, entity, a)).sites;
    PostingIsLocal(b, b1, tenant, Records(rows));
  }

  lemma PostedToSlice(b: Books, b1: Books, c: Books, tenant: Tenant, rs: seq<Record>, extra: set<Site>)
    requires SameFor(b, b1, tenant) && UpToSites(c, PostAll(b1, tenant, rs), extra)
    ensures SliceUpToSites(c, PostAll(b, tenant, rs), tenant, extra)
  {
    PostingIsLocal(b, b1, tenant, rs);
  }

  lemma SliceDependsOnSlice(tenant: Tenant, b: Books, b1: Books, c: Books, rs: seq<Record>, extra: set<Site>)
    requires SameFor(b, b1, tenant) && SliceUpToSites(c, PostAll(b1, tenant, rs), tenant, extra)
    ensures SliceUpToSites(c, PostAll(b, tenant, rs), tenant, extra)
  {
    PostingIsLocal(b, b1, tenant, rs);
  }

  lemma EndingDependsOnSlice(verdict: Verdict, log: SyncLog, log1: SyncLog, b: Books, b1: Books, c: Books,
                             job: JobId, entity: EntityType, last: World, a: Attempt, end: World)
    requires log1 == log.(status := log1.status) && SameFor(b, b1, log.tenant)
    requires EndsAs(verdict, log1, b1, c, job, entity, last, a, end)
    ensures EndsAs(verdict, log, b, c, job, entity, last, a, end)
  {
    if verdict.Done? {
      SliceDependsOnSlice(log.tenant, b, b1, c, Posted(last, job, entity, a), LeftBehind(last, job, entity, a));
      PostingIsLocal(b, b1, log.tenant, Records(RowsSeen(last, job, entity, a)));
    }
  }

  lemma FailsFirst(u: World, starts: seq<World>, job: JobId, entity: EntityType, script: nat -> Attempt, k: nat)
    requires RunAttempt(u, job, entity, script(k)).1.Raised? && AllButLastFail(starts, job, entity, script, k + 1)
    ensures AllButLastFail([u] + starts, job, entity, script, k)
  {
    assert ([u] + starts)[1..] == starts;
  }

  lemma FirstFailureIsForgotten(
      log: SyncLog, log1: SyncLog, b: Books, b1: Books, c: Books, job: JobId, entity: EntityType,
      script: nat -> Attempt, k: nat, max: nat, u: World, delay: nat, statuses: seq<Status>, rest: Trace)
    requires log1 == log.(status := log1.status) && SameFor(b, b1, log.tenant)
    requires RunAttempt(u, job, entity, script(k)).1.Raised?
    requires IsOneImport(log1, b1, c, job, entity, script, k + 1, max, rest)
    ensures IsOneImport(log, b, c, job, entity, script, k, max, Retried(u, delay, statuses, rest))
  {
    var j := Retried(u, delay, statuses, rest);
    var n := |j.starts| - 1;
    var last, a := rest.starts[n - 1], script(k + 1 + (n - 1));
    assert j.starts[n] == last && script(k + n) == a;
    FailsFirst(u, rest.starts, job, entity, script, k);
    EndingDependsOnSlice(rest.verdict, log, log1, b, b1, c, job, entity, last, a, rest.end);
  }

  predicate AttemptFails(w: World, job: JobId, entity: EntityType, script: nat -> Attempt, i: nat) {
    RunAttempt(w, job, entity, script(i)).1.Raised?
  }

  /** From the upload to completion, in absolute numbers: the log counts the rows that the successful attempt read,
      and as processed the records that it posted. */
  lemma UploadedJobCounts(
      w: World, b: Books, job: JobId, tenant: Tenant, path: string, entity: EntityType, script: nat -> Attempt,
      between: nat -> seq<Event>, max: nat, base: nat)
    requires job !in w.logs && PathIsNew(w, path) && PathsDistinct(w) && Consistent(w.tables) && Keeps(w.tables, b)
    requires OthersBetween(Enqueue(w, job, tenant, path), job, entity, script, between, 0, max, base)
    ensures var j := RunJob(Enqueue(w, job, tenant, path), job, entity, script, between, 0, max, base);
      && j.starts != [] && job in j.end.logs
      && var n := |j.starts| - 1;
      && job in j.starts[n].logs && j.end.logs[job].tenant == tenant && j.end.logs[job].path == path
      && (j.verdict.Done? ==>
            var read := RowsSeen(j.starts[n], job, entity, script(n));
            var posted := Posted(j.starts[n], job, entity, script(n));
            && |posted| <= |read| && j.end.logs[job].status.Completed? && j.end.logs[job].total == |read|
            && j.end.logs[job].processed == |posted| && j.end.logs[job].failed == |read| - |posted|)
      && (j.verdict.GaveUp? ==>
            j.end.logs[job].total == 0 && j.end.logs[job].processed == 0 && j.end.logs[job].failed == 0)
  {
    var c := RetriedJobIsOneImport(Enqueue(w, job, tenant, path), b, job, entity, script, between, 0, max, base);
  }

  /** When nothing at all happens in between, the world itself ends as the one successful attempt, made
      in the world the job was queued in, would have left it, or as it was but for the file. */
  lemma {:induction false} UndisturbedJobIsOneAttempt(
      w: World, v: World, job: JobId, entity: EntityType, script: nat -> Attempt, between: nat -> seq<Event>,
      k: nat, max: nat, base: nat)
    requires SameButStatus(w, v, job) && k <= max && forall i :: between(i) == []
    ensures var j := RunJob(v, job, entity, script, between, k, max, base);
      var n := k + |j.starts| - 1;
      && k <= n <= max
      && (forall i | k <= i < n :: AttemptFails(w, job, entity, script, i))
      && match j.verdict
         case Done => RunAttempt(w, job, entity, script(n)) == (j.end, Succeeded)
         case GaveUp =>
           && n == max && RunAttempt(w, job, entity, script(n)).1.Raised?
           && j.end.files == Discard(w.files, w.logs[job].path)
           && SameButStatus(w, j.end.(files := w.files), job)
         case RetryIn(_) => false
    decreases max - k
  {
    StatusIsIrrelevant(w, v, job, entity, script(k));
    var (v', verdict) := TaskCall(v, job, entity, script(k), k, max, base);
    if verdict.RetryIn? {
      assert AttemptFails(w, job, entity, script, k);
      UndisturbedJobIsOneAttempt(w, v', job, entity, script, between, k + 1, max, base);
    }
  }

  /** The statuses a job commits: (RUNNING FAILED)* and, if it is done, RUNNING COMPLETED. */
  predicate Alternates(history: seq<Status>, done: bool) {
    if history == [] then !done
    else if done && history == [Running, Completed] then true
    else |history| >= 2 && history[..2] == [Running, Failed] && Alternates(history[2..], done)
  }

  lemma AlternatesPrepend(history: seq<Status>, done: bool)
    requires Alternates(history, done)
    ensures Alternates([Running, Failed] + history, done)
  {
    var all := [Running, Failed] + history;
    assert all[..2] == [Running, Failed] && all[2..] == history;
  }

  function LastOr(history: seq<Status>, default: Status): Status {
    if history == [] then default else history[|history| - 1]
  }

  lemma HistoryGoesOn(now: seq<Status>, rest: seq<Status>, done: bool, before: Status)
    requires (now == [] || now == [Running, Failed]) && Alternates(rest, done)
    ensures Alternates(now + rest, done) && |now + rest| <= 2 + |rest|
    ensures LastOr(now + rest, before) == LastOr(rest, LastOr(now, before))
  {
    if now == [] { assert now + rest == rest; } else { AlternatesPrepend(rest, done); }
  }

  predicate HistoryIsRegular(status: Status, job: JobId, attempts: int, j: Trace) {
    && |j.starts| <= attempts && |j.history| <= 2 * |j.starts|
    && Alternates(j.history, j.verdict.Done?)
    && job in j.end.logs && j.end.logs[job].status == LastOr(j.history, status)
  }

  /** The statuses alternate, whatever other tenants do. */
  lemma {:induction false} HistoryAlternates(
      w: World, job: JobId, entity: EntityType, script: nat -> Attempt, between: nat -> seq<Event>,
      k: nat, max: nat, base: nat)
    requires job in w.logs && k <= max && PathsDistinct(w)
    requires OthersBetween(w, job, entity, script, between, k, max, base)
    ensures HistoryIsRegular(w.logs[job].status, job, max - k + 1,
                             RunJob(w, job, entity, script, between, k, max, base))
    decreases max - k, 1
  {
    OthersLeaveJob(w, between(k), job, max, base);
    HistoryFrom(After(w, between(k), max, base), job, entity, script, between, k, max, base);
  }

  lemma {:induction false} HistoryFrom(
      u: World, job: JobId, entity: EntityType, script: nat -> Attempt, between: nat -> seq<Event>,
      k: nat, max: nat, base: nat)
    requires job in u.logs && k <= max && PathsDistinct(u)
    requires OthersLater(u, job, entity, script, between, k, max, base)
    ensures HistoryIsRegular(u.logs[job].status, job, max - k + 1,
                             RunFrom(u, job, entity, script, between, k, max, base))
    decreases max - k, 0
  {
    var (v, verdict) := TaskCall(u, job, entity, script(k), k, max, base);
    var now := StatusesOf(u, job, entity, script(k));
    match verdict
    case RetryIn(delay) =>
      RetryLeaves(u, job, entity, script(k), k, max, base);
      HistoryAlternates(v, job, entity, script, between, k + 1, max, base);
      OneMoreRetry(u, delay, now, RunJob(v, job, entity, script, between, k + 1, max, base), job, max - k,
                   u.logs[job].status, v.logs[job].status);
    case _ =>
      LastStatuses(u, job, entity, script(k), k, max, base);
  }

  lemma OneMoreRetry(u: World, delay: nat, now: seq<Status>, rest: Trace, job: JobId, attempts: int,
                     before: Status, after: Status)
    requires (now == [] && after == before) || (now == [Running, Failed] && after == Failed)
    requires HistoryIsRegular(after, job, attempts, rest)
    ensures HistoryIsRegular(before, job, attempts + 1, Retried(u, delay, now, rest))
  {
    HistoryGoesOn(now, rest.history, rest.verdict.Done?, before);
  }

  lemma LastStatuses(u: World, job: JobId, entity: EntityType, a: Attempt, k: nat, max: nat, base: nat)
    requires job in u.logs && k <= max && !TaskCall(u, job, entity, a, k, max, base).1.RetryIn?
    ensures var (v, verdict) := TaskCall(u, job, entity, a, k, max, base);
      HistoryIsRegular(u.logs[job].status, job, 1, Trace([u], [], StatusesOf(u, job, entity, a), v, verdict))
  {
    if a.starts && RunAttempt(u, job, entity, a).1.Raised? {
      AlternatesPrepend([], false);
      assert [Running, Failed] + [] == [Running, Failed];
    }
  }

  function Sum(xs: seq<nat>): nat { if xs == [] then 0 else xs[0] + Sum(xs[1..]) }

  lemma {:induction false} DoublingSum(delays: seq<nat>, k: nat, base: nat)
    requires forall i | 0 <= i < |delays| :: delays[i] == Delay(base, k + i)
    ensures Sum(delays) == base * (TwoTo(k + |delays|) - TwoTo(k))
  {
    if delays != [] {
      DoublingSum(delays[1..], k + 1, base);
      Distribute(base, TwoTo(k), TwoTo(k + |delays|));
    }
  }

  lemma Distribute(base: int, p: int, q: int)
    ensures base * p + base * (q - 2 * p) == base * (q - p)
  {
  }

  /** There is one delay fewer than attempts, and they double from the first on. */
  lemma {:induction false} DelaysDouble(
      w: World, job: JobId, entity: EntityType, script: nat -> Attempt, between: nat -> seq<Event>,
      k: nat, max: nat, base: nat)
    requires k <= max
    ensures var delays := RunJob(w, job, entity, script, between, k, max, base).delays;
      && |delays| == |RunJob(w, job, entity, script, between, k, max, base).starts| - 1 <= max - k
      && forall i | 0 <= i < |delays| :: delays[i] == Delay(base, k + i)
    decreases max - k
  {
    var u := After(w, between(k), max, base);
    var (v, verdict) := TaskCall(u, job, entity, script(k), k, max, base);
    if verdict.RetryIn? { DelaysDouble(v, job, entity, script, between, k + 1, max, base); }
  }

  /** So after any number of retries they add up to `base * (2^n - 1)`. */
  lemma BackoffTotal(w: World, job: JobId, entity: EntityType, script: nat -> Attempt, between: nat -> seq<Event>,
                     k: nat, max: nat, base: nat)
    requires k <= max
    ensures var j := RunJob(w, job, entity, script, between, k, max, base);
      && |j.delays| == |j.starts| - 1 <= max - k
      && Sum(j.delays) == base * (TwoTo(k + |j.delays|) - TwoTo(k))
  {
    DelaysDouble(w, job, entity, script, between, k, max, base);
    DoublingSum(RunJob(w, job, entity, script, between, k, max, base).delays, k, base);
  }

  /** With the retries that Celery is configured for: at most four attempts, after delays of 30, 60 and 120 seconds. */
  lemma DefaultDelays()
    ensures Delay(DEFAULT_RETRY_DELAY, 0) == 30 && Delay(DEFAULT_RETRY_DELAY, 1) == 60
    ensures Delay(DEFAULT_RETRY_DELAY, 2) == 120 && MAX_RETRIES == 3
  {
  }

  // ---------- the source file ----------

  /** Whatever other tenants do, every attempt of the job finds its file if there was one when the job was
      queued, and it is gone at the end. */
  lemma {:induction false} FileOutlivesAttempts(
      w: World, job: JobId, entity: EntityType, script: nat -> Attempt, between: nat -> seq<Event>,
      k: nat, max: nat, base: nat)
    requires job in w.logs && k <= max && PathsDistinct(w)
    requires OthersBetween(w, job, entity, script, between, k, max, base)
    ensures var j, path := RunJob(w, job, entity, script, between, k, max, base), w.logs[job].path;
      && (forall v | v in j.starts :: path in v.files <==> path in w.files)
      && (path != "" ==> path !in j.end.files)
    decreases max - k
  {
    var u := After(w, between(k), max, base);
    OthersLeaveJob(w, between(k), job, max, base);
    var (v, verdict) := TaskCall(u, job, entity, script(k), k, max, base);
    if verdict.RetryIn? {
      RetryLeaves(u, job, entity, script(k), k, max, base);
      FileOutlivesAttempts(v, job, entity, script, between, k + 1, max, base);
    }
  }

  /** From the upload on: in any history whose uploads take new paths, every attempt of a job finds the file that
      was uploaded for it, and at the end of the job it is gone. */
  lemma UploadedFileLives(
      es: seq<Event>, job: JobId, tenant: Tenant, path: string, entity: EntityType, script: nat -> Attempt,
      between: nat -> seq<Event>, max: nat, base: nat)
    requires NewPaths(NOTHING, es, max, base)
    requires job !in After(NOTHING, es, max, base).logs && PathIsNew(After(NOTHING, es, max, base), path)
    requires OthersBetween(Enqueue(After(NOTHING, es, max, base), job, tenant, path), job, entity, script, between,
                           0, max, base)
    ensures var w := Enqueue(After(NOTHING, es, max, base), job, tenant, path);
      var j := RunJob(w, job, entity, script, between, 0, max, base);
      (forall v | v in j.starts :: path in v.files) && path !in j.end.files
  {
    PathsStayDistinct(NOTHING, es, max, base);
    FileOutlivesAttempts(Enqueue(After(NOTHING, es, max, base), job, tenant, path), job, entity, script, between,
                         0, max, base);
  }

  /** A single delivery deletes no file but the job's own, and that only if it completes or was the last one
      allowed. */
  lemma FileDeletedOnlyAtTheEnd(
      w: World, job: JobId, entity: EntityType, a: Attempt, retries: nat, max: nat, base: nat)
    ensures var (v, verdict) := TaskCall(w, job, entity, a, retries, max, base);
      && (verdict.RetryIn? ==> v.files == w.files && retries < max)
      && (verdict.GaveUp? ==> retries >= max)
      && (v.files != w.files && verdict.Done? ==> job in v.logs && v.logs[job].status == Completed)
      && (v.files != w.files ==> job in w.logs && v.files == w.files - {w.logs[job].path})
  {
  }

  // ---------- error entries ----------

  function CountRejected(os: seq<Outcome>): (n: nat) {
    if os == [] then 0
    else CountRejected(os[..|os| - 1]) + (if os[|os| - 1].Rejected? then 1 else 0)
  }

  /** The entry describes some rejected row and gives the reason it was refused for. */
  ghost predicate Explained(e: ErrorEntry, rows: seq<Row>, os: seq<Outcome>)
    requires |rows| == |os|
  {
    e.RowEntry? && exists i :: 0 <= i < |rows| && os[i] == Rejected(e.reason) && Describes(e, rows[i].record)
  }

  /** With the SKU as the connector read it, and the kind of the record. */
  predicate Describes(e: ErrorEntry, r: Record)
    requires e.RowEntry?
  {
    && e.sku == r.sku
    && (e.entity.Products? <==> r.ProductRecord?) && (e.entity.Transactions? <==> r.TransactionRecord?)
    && (e.entity.Batches? <==> r.BatchRecord?)
  }

  /** One entry for each rejected row, and so no more than the failed rows. */
  lemma {:induction false} EntriesMatchRejections(rows: seq<Row>, os: seq<Outcome>)
    requires |rows| == |os|
    ensures |RowEntries(rows, os)| == CountRejected(os) <= |os| - CountAccepted(os)
    ensures forall e | e in RowEntries(rows, os) :: Explained(e, rows, os)
  {
    if rows != [] {
      var n := |rows| - 1;
      EntriesMatchRejections(rows[..n], os[..n]);
      forall e | e in RowEntries(rows, os)
        ensures Explained(e, rows, os)
      {
        if e in RowEntries(rows[..n], os[..n]) {
          assert Explained(e, rows[..n], os[..n]);
          var i :| 0 <= i < n && os[..n][i] == Rejected(e.reason) && Describes(e, rows[..n][i].record);
          assert os[i] == Rejected(e.reason) && Describes(e, rows[i].record);
        } else {
          assert os[n] == Rejected(e.reason) && Describes(e, rows[n].record);
        }
      }
    }
  }
}
