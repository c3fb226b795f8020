/** The system over time: uploads and deliveries of any jobs of any tenants, one after another. What
    every such history keeps, and what the jobs of one tenant leave alone of another's. */
module Timeline {
  import opened Store
  import opened Importer
  import opened Books
  import opened BookLaws
  import opened ImportLaws
  import opened SyncService

  /** Redeliveries of finished jobs are events like any other. */
  datatype Event =
    | Uploaded(job: JobId, tenant: Tenant, path: string)
    | Delivered(job: JobId, entity: EntityType, attempt: Attempt, retries: nat)

  function Happen(w: World, e: Event, max: nat, base: nat): World {
    match e
    case Uploaded(job, tenant, path) => Enqueue(w, job, tenant, path)
    case Delivered(job, entity, attempt, retries) => TaskCall(w, job, entity, attempt, retries, max, base).0
  }

  function After(w: World, es: seq<Event>, max: nat, base: nat): World {
    if es == [] then w
    else Happen(After(w, es[..|es| - 1], max, base), es[|es| - 1], max, base)
  }

  lemma {:induction false} AfterBoth(w: World, xs: seq<Event>, ys: seq<Event>, max: nat, base: nat)
    ensures After(w, xs + ys, max, base) == After(After(w, xs, max, base), ys, max, base)
  {
    if ys == [] {
      assert xs + ys == xs;
    } else {
      assert (xs + ys)[..|xs + ys| - 1] == xs + ys[..|ys| - 1];
      AfterBoth(w, xs, ys[..|ys| - 1], max, base);
    }
  }

  // ---------- what every history keeps ----------

  /** Every log accounts for each of its records once. */
  ghost predicate Balanced(w: World) {
    forall job | job in w.logs :: w.logs[job].total == w.logs[job].processed + w.logs[job].failed
  }

  lemma {:induction false} CountersBalance(w: World, es: seq<Event>, max: nat, base: nat)
    requires Balanced(w)
    ensures Balanced(After(w, es, max, base))
  {
    if es != [] { CountersBalance(w, es[..|es| - 1], max, base); }
  }

  lemma AttemptKeepsConsistent(w: World, job: JobId, entity: EntityType, a: Attempt)
    requires Consistent(w.tables)
    ensures var v := RunAttempt(w, job, entity, a).0; Consistent(v.tables) && Preserves(w.tables, v.tables)
  {
    if job in w.logs && a.starts && Commits(w, job, entity, a) {
      var b := BooksExist(w.tables);
      var _ := ImportPostsAccepted(Work(w.tables, false), b, w.logs[job].tenant, RowsSeen(w, job, entity, a));
    }
  }

  lemma EventKeepsConsistent(w: World, e: Event, max: nat, base: nat)
    requires Consistent(w.tables)
    ensures var v := Happen(w, e, max, base); Consistent(v.tables) && Preserves(w.tables, v.tables)
  {
    if e.Delivered? { AttemptKeepsConsistent(w, e.job, e.entity, e.attempt); }
  }

  /** Whatever is uploaded and delivered in whatever order, references stay within their tenant, business
      keys stay unique, and no row is deleted, renamed or given a new primary key. */
  lemma {:induction false} EventsKeepConsistent(w: World, es: seq<Event>, max: nat, base: nat)
    requires Consistent(w.tables)
    ensures var v := After(w, es, max, base); Consistent(v.tables) && Preserves(w.tables, v.tables)
  {
    if es != [] {
      var u := After(w, es[..|es| - 1], max, base);
      EventsKeepConsistent(w, es[..|es| - 1], max, base);
      EventKeepsConsistent(u, es[|es| - 1], max, base);
      PreservesTransitive(w.tables, u.tables, After(w, es, max, base).tables);
    }
  }

  const NOTHING := World(EMPTY, map[], {})

  /** So every world that is reached from an empty database is consistent, and its counters balance. */
  lemma ReachableWorlds(es: seq<Event>, max: nat, base: nat)
    ensures Consistent(After(NOTHING, es, max, base).tables) && Balanced(After(NOTHING, es, max, base))
  {
    StartsConsistent();
    EventsKeepConsistent(NOTHING, es, max, base);
    CountersBalance(NOTHING, es, max, base);
  }

  lemma StartsConsistent()
    ensures Consistent(EMPTY)
  {
  }

  /** A log keeps its tenant and its path. */
  lemma {:induction false} LogsStay(w: World, es: seq<Event>, max: nat, base: nat, job: JobId)
    requires job in w.logs
    ensures var v := After(w, es, max, base);
      job in v.logs && v.logs[job].tenant == w.logs[job].tenant && v.logs[job].path == w.logs[job].path
  {
    if es != [] { LogsStay(w, es[..|es| - 1], max, base, job); }
  }

  /** The `n`th event is an attempt of the job, and it succeeds. */
  ghost predicate SucceedsAt(w: World, es: seq<Event>, n: nat, job: JobId, max: nat, base: nat) {
    && n < |es| && es[n].Delivered? && es[n].job == job
    && RunAttempt(After(w, es[..n], max, base), job, es[n].entity, es[n].attempt).1.Succeeded?
  }

  /** A log that comes to read COMPLETED was completed by an attempt that succeeded. */
  lemma {:induction false} CompletedMeansSucceeded(w: World, es: seq<Event>, job: JobId, max: nat, base: nat)
    returns (n: nat)
    requires job in w.logs && !w.logs[job].status.Completed?
    requires job in After(w, es, max, base).logs && After(w, es, max, base).logs[job].status.Completed?
    ensures SucceedsAt(w, es, n, job, max, base)
  {
    var last := |es| - 1;
    var u := After(w, es[..last], max, base);
    LogsStay(w, es[..last], max, base, job);
    if u.logs[job].status.Completed? {
      n := CompletedMeansSucceeded(w, es[..last], job, max, base);
      assert es[..last][..n] == es[..n];
    } else {
      n := last;
    }
  }

  // ---------- paths ----------

  /** No two logs share a file. */
  ghost predicate PathsDistinct(w: World) {
    forall i, j | i in w.logs && j in w.logs && w.logs[i].path == w.logs[j].path && w.logs[i].path != "" :: i == j
  }

  /** `save` puts a random number before the file's name. */
  ghost predicate PathIsNew(w: World, path: string) {
    path != "" && path !in w.files && forall j | j in w.logs :: w.logs[j].path != path
  }

  /** Every upload among the events takes a new path. */
  ghost predicate NewPaths(w: World, es: seq<Event>, max: nat, base: nat) {
    es == [] ||
    (NewPaths(w, es[..|es| - 1], max, base)
     && (es[|es| - 1].Uploaded? ==> PathIsNew(After(w, es[..|es| - 1], max, base), es[|es| - 1].path)))
  }

  /** Then no two logs ever share a file; in particular not in a world reached from an empty database. */
  lemma {:induction false} PathsStayDistinct(w: World, es: seq<Event>, max: nat, base: nat)
    requires PathsDistinct(w) && NewPaths(w, es, max, base)
    ensures PathsDistinct(After(w, es, max, base))
  {
    if es != [] {
      var u, e := After(w, es[..|es| - 1], max, base), es[|es| - 1];
      PathsStayDistinct(w, es[..|es| - 1], max, base);
      if e.Delivered? { DeliveryKeepsPaths(u, e, max, base); }
    }
  }

  // ---------- other tenants' jobs ----------

  /** The event is an upload, or concerns a job of another tenant. */
  ghost predicate ByOther(w: World, e: Event, tenant: Tenant) {
    match e
    case Uploaded(_, _, path) => PathIsNew(w, path)
    case Delivered(job, _, _, _) => job in w.logs ==> w.logs[job].tenant != tenant
  }

  ghost predicate ByOthers(w: World, es: seq<Event>, tenant: Tenant, max: nat, base: nat) {
    es == [] ||
    (ByOthers(w, es[..|es| - 1], tenant, max, base)
     && ByOther(After(w, es[..|es| - 1], max, base), es[|es| - 1], tenant))
  }

  /** `v` has the same log of the job as `w`, and its file if `w` has. */
  ghost predicate SameJob(w: World, v: World, job: JobId) {
    && job in w.logs && job in v.logs && v.logs[job] == w.logs[job]
    && (w.logs[job].path in v.files <==> w.logs[job].path in w.files)
  }

  lemma OtherLeavesJob(w: World, e: Event, job: JobId, max: nat, base: nat)
    requires job in w.logs && PathsDistinct(w) && ByOther(w, e, w.logs[job].tenant)
    ensures SameJob(w, Happen(w, e, max, base), job) && PathsDistinct(Happen(w, e, max, base))
  {
    if e.Delivered? { DeliveryKeepsPaths(w, e, max, base); }
  }

  lemma DeliveryKeepsPaths(w: World, e: Event, max: nat, base: nat)
    requires e.Delivered?
    ensures var v := Happen(w, e, max, base);
      && v.logs.Keys == w.logs.Keys
      && (forall j | j in w.logs :: v.logs[j].path == w.logs[j].path && (j != e.job ==> v.logs[j] == w.logs[j]))
      && (v.files == w.files || (e.job in w.logs && v.files == Discard(w.files, w.logs[e.job].path)))
  {
  }

  /** Jobs of other tenants touch neither the log of a job nor its file. */
  lemma {:induction false} OthersLeaveJob(w: World, es: seq<Event>, job: JobId, max: nat, base: nat)
    requires job in w.logs && PathsDistinct(w) && ByOthers(w, es, w.logs[job].tenant, max, base)
    ensures SameJob(w, After(w, es, max, base), job) && PathsDistinct(After(w, es, max, base))
  {
    if es != [] {
      OthersLeaveJob(w, es[..|es| - 1], job, max, base);
      OtherLeavesJob(After(w, es[..|es| - 1], max, base), es[|es| - 1], job, max, base);
    }
  }

  /** The accepted records of an attempt. */
  ghost function Posted(w: World, job: JobId, entity: EntityType, a: Attempt): seq<Record>
    requires job in w.logs
  {
    AcceptedRecords(RowsSeen(w, job, entity, a), Streamed(w, job, entity, a).1)
  }

  /** The sites that rows which raised in the attempt may have left. */
  ghost function LeftBehind(w: World, job: JobId, entity: EntityType, a: Attempt): set<Site>
    requires job in w.logs
  {
    RaisedSites(w.logs[job].tenant, RowsSeen(w, job, entity, a), Streamed(w, job, entity, a).1)
  }

  /** What an attempt does to the books: it posts its accepted records, or nothing. */
  lemma AttemptPosts(w: World, b: Books, job: JobId, entity: EntityType, a: Attempt) returns (c: Books)
    requires job in w.logs && Consistent(w.tables) && Keeps(w.tables, b)
    ensures var (v, ending) := RunAttempt(w, job, entity, a);
      && Consistent(v.tables) && Keeps(v.tables, c)
      && var tenant := w.logs[job].tenant;
      if ending.Succeeded? then
        UpToSites(c, PostAll(b, tenant, Posted(w, job, entity, a)), LeftBehind(w, job, entity, a))
      else c == b
  {
    c := b;
    if RunAttempt(w, job, entity, a).1.Succeeded? {
      c := ImportPostsAccepted(Work(w.tables, false), b, w.logs[job].tenant, RowsSeen(w, job, entity, a));
    }
  }

  lemma OtherLeavesBooks(w: World, b: Books, e: Event, tenant: Tenant, max: nat, base: nat) returns (c: Books)
    requires Consistent(w.tables) && Keeps(w.tables, b) && ByOther(w, e, tenant)
    ensures var v := Happen(w, e, max, base);
      Consistent(v.tables) && Keeps(v.tables, c) && SameFor(b, c, tenant)
  {
    c := b;
    if e.Delivered? && e.job in w.logs {
      c := AttemptPosts(w, b, e.job, e.entity, e.attempt);
      if RunAttempt(w, e.job, e.entity, e.attempt).1.Succeeded? {
        var p := PostAll(b, w.logs[e.job].tenant, Posted(w, e.job, e.entity, e.attempt));
        OtherTenantsUntouched(b, w.logs[e.job].tenant, Posted(w, e.job, e.entity, e.attempt));
        assert SameFor(b, p, tenant);
      }
    }
  }

  /** And nothing in the books of the tenant. */
  lemma {:induction false} OthersLeaveBooks(w: World, b: Books, es: seq<Event>, tenant: Tenant, max: nat, base: nat)
    returns (c: Books)
    requires Consistent(w.tables) && Keeps(w.tables, b) && ByOthers(w, es, tenant, max, base)
    ensures var v := After(w, es, max, base);
      Consistent(v.tables) && Keeps(v.tables, c) && SameFor(b, c, tenant)
  {
    c := b;
    if es != [] {
      c := OthersLeaveBooks(w, b, es[..|es| - 1], tenant, max, base);
      c := OtherLeavesBooks(After(w, es[..|es| - 1], max, base), c, es[|es| - 1], tenant, max, base);
    }
  }
}
