# Nexus Inventory: the import pipeline, verified

A Dafny model of the inventory platform's import pipeline and of the three other places where its
state is delicate: refresh-token rotation, the migration hook for row-level security, and the
conversions from spreadsheet text.

- **Import.** `Store` holds the tables under primary keys, `Importer` says what one row does to them
  under every pattern of failing statements, `StoredRows` what an accepted row leaves in each column, and
  `Normalizer` is the caching object that does it step by step. `Books` is the same data by business key.
  `Refinement` shows that every row operation on the tables is the corresponding operation on the books;
  `BookLaws` and `ImportLaws` say what a whole import then amounts to, `Poisoning` which rows lose the
  transaction. `Integrity` keeps keys unique and references inside their tenant.
- **Jobs.** `SyncService` is the upload, one attempt and the Celery task, each as a function of the
  environment and as a step-by-step method. `Timeline` is the system over time: uploads and deliveries of
  any jobs of any tenants, one after another. `SyncLaws` are the theorems about attempts and about retried
  jobs, other tenants' jobs running in between.
- **Sessions.** `TokenRotation` is a state machine over every interleaving of logins, refreshes, logouts,
  expiry and account changes, and a class whose methods are its steps.
- **Migrations.** `MigrationRls` is the hook that rewrites a migration, with an execution semantics.
- **Conversions.** `Float64` is rounding to binary64 as section 4.3.1 of IEEE 754-2019 has it
  (roundTiesToEven); `Paise` and `Numbers` are amounts and quantities, `Overflow` the numbers too large for a
  double, `Dates` and `DateForms` the dates; `CsvConnector` goes from cells to records, and `SheetImport` from a
  whole sheet to an attempt.
- **Export.** `MargExport` transforms Marg's rows and follows them to records; `MargSync` is a run of the
  client against the platform: it uploads entity by entity and polls, while the platform goes on.

A failing statement is a `Fault` drawn by the environment: on the client's side (nothing happens, the
transaction lives on) or on the server's (the transaction is poisoned: every later statement and the
final commit fail, although the row loop swallows the exception and goes on).

Where code and documentation differ, or the code does something that its documentation does not mention,
the model follows the code:

- `process_sync` says that it never raises on a single bad row (`app/services/sync.py:73`). It does not for a
  row that validation refuses, but a row that loses the transaction makes the whole attempt fail at its
  commit (`SyncLaws.CompletesIff`; `Poisoning.RowPoisonsIff` says which rows do, and
  `SyncLaws.OneBadRowFailsTheAttempt` has the input).
- Amounts are exact up to 2^45 rupees and four paise and no further (`Paise.PaiseExact`,
  `Paise.PaiseInexactBeyond`), quantities up to 2^53 (`Paise.QuantityExact`, `Paise.QuantityInexactBeyond`).
  A number too large for a double fails the whole import, however many good rows stand beside it
  (`SheetImport.SheetCompletesIff`; `SheetImport.OneCellFailsTheAttempt` has the input).
- Logging out does not always end a session: a refresh already in flight goes on to issue a live token
  (`TokenRotation.LogoutEndsLineageIff`, `TokenRotation.LogoutLosesTheRace`).
- Deactivating an account does not stop tokens being issued to it at once: a login or refresh that was let through
  before goes on (`TokenRotation.NeverIssuedAgainIff` has the exact condition, `TokenRotation.PendingLoginWins`
  and `TokenRotation.DeactivationLosesTheRace` the inputs).
- A job that is delivered again after it completed ends up FAILED, but for two cases in which it stays
  COMPLETED (`SyncLaws.RedeliveryKeepsCompletedIff`; `SyncLaws.RedeliveryFails` has the input).
- The migration hook writes `tenant_id` into every policy, whichever column carries the mark
  (`app/rls.py:24`, `app/rls.py:80`). A rewritten migration runs, and can be undone, exactly if each new tenant
  table is created once and is left with a column of that name (`MigrationRls.RewrittenUpgradeRunsIff`;
  `MigrationRls.OtherTenantColumnBreaks` and `MigrationRls.DroppedTableBreaks` have the inputs).
- A dispatch row without a godown is exported with the default location; if that is blank, the platform
  refuses the row (`MargExport.TransactionRowValidIff`).

## Model

| member | source | states |
|---|---|---|
| SyncLaws.RetriedJobIsOneImport | app/tasks/sync.py:46-65 | for every pattern of failing attempts, retry limit and delay, and whatever is uploaded or run for other tenants in between, a job ends with the accepted records of its one successful attempt posted once to its tenant's books as they were when it was queued, beside at most the locations named by rows that raised in it, and each row counted once; if no row raised, that is exactly one clean import of all the records it read, locations included; or it ends after exactly max + 1 failures with those books and its counters as they were |
| SyncLaws.UndisturbedJobIsOneAttempt | app/tasks/sync.py:46-65 | when nothing happens in between, the whole database ends exactly as the successful attempt alone would have left it, had it been the first, or as it was, but for the file |
| SyncLaws.CompletedJobPostsOnce | app/services/sync.py:85-136 | however many attempts it took and whatever other tenants did meanwhile, a completed job has posted the accepted records of its last attempt to its tenant's books once, with at most the locations named by rows that raised besides, and counted each of its rows once |
| SyncLaws.CompletedAttemptPostsOnce | app/services/sync.py:91-119 | the same of one attempt, from any consistent tables; no other log is touched |
| SyncLaws.UploadedJobCounts | app/services/sync.py:40-119 | from the upload to completion, whatever failed and whatever other tenants did in between, in absolute numbers: the log's total is the number of rows the successful attempt read, processed the number of records it posted, and failed the rest |
| SyncLaws.CompletesIff | app/services/sync.py:92-132 | an attempt completes if and only if log, connector, stream and commit all work and no row poisons the transaction, read off the tables that the rows before it leave and the draw, although the loop swallows the error |
| SyncLaws.PoisonDecides | app/services/sync.py:116-118 | whatever the tables, a transaction that is poisoned after any row is still poisoned at the commit, and only that stands between a fetched stream and completion |
| Poisoning.ProductPoisonsIff | app/integrations/normalizer.py:193-225 | an upsert of a product poisons the transaction if and only if its statement fails in the server, or it is issued and there is no such product but the drawn key is taken, or the flush fails |
| Poisoning.LocationPoisonsIff | app/integrations/normalizer.py:336-355 | resolving a location does if and only if the query fails in the server, or finds none and the flush fails or the drawn key is taken; the location is there afterwards exactly if nothing of that kind and no client failure strikes |
| Poisoning.TransactionPoisonsIff | app/integrations/normalizer.py:248-280 | creating a transaction does if and only if the first statement that is issued and fails does so in the server, or an insert is needed, no equal entry being booked, and its flush fails or its key is taken |
| Poisoning.BatchPoisonsIff | app/integrations/normalizer.py:282-316 | likewise for a batch, the insert being needed exactly if the lot is not stocked |
| Poisoning.RowPoisonsIff | app/services/sync.py:167-186 | so a row of any kind poisons exactly under a condition on tables and draw; a refused row never does |
| Poisoning.ImportPoisonedIff | app/services/sync.py:184-186 | an import ends poisoned exactly if one of its rows poisons, given the tables the rows before it leave |
| SheetImport.StreamEndsIff | app/integrations/csv_connector.py:75-106 | the connector, mapping row by row, comes to the end of a sheet exactly if the numbers of every row fit |
| SheetImport.MappedKind | app/integrations/csv_connector.py:75-104 | each entity's rows become records of its own kind |
| SheetImport.SheetCompletesIff | app/services/sync.py:92-132 | an attempt at importing a sheet of any of the three entities completes if and only if it starts, finds its file, connects and commits, every row's numbers fit, and no row poisons the transaction |
| SheetImport.UndisturbedSheetCompletesIff | app/services/sync.py:92-132 | when nothing disturbs it, the sheet alone decides: it completes if and only if every row's numbers fit |
| SheetImport.OneCellFailsTheAttempt | app/integrations/csv_connector.py:188-202 | one unit cost that says inf fails the import of any sheet of products |
| SyncLaws.FailedAttemptWritesNothing | app/services/sync.py:121-136 | an attempt that raises leaves every table, counter and file as it was; it can only set its own status to FAILED |
| SyncLaws.StatusIsIrrelevant | app/services/sync.py:80-87 | what an attempt does never depends on the status it finds, and a failed one changes nothing else: the reason why attempts can be replayed |
| SyncLaws.HistoryAlternates | app/tasks/sync.py:26-32 | whatever other tenants do, the statuses committed for a job are (RUNNING FAILED)* and, exactly if it is done, RUNNING COMPLETED, with at most max + 1 attempts, and its log ends with the last of them |
| SyncLaws.DelaysDouble | app/tasks/sync.py:64-65 | there is one delay fewer than attempts, and the one before retry i is base * 2^i |
| SyncLaws.BackoffTotal | app/tasks/sync.py:64-65 | so the delays of a job add up to base * (2^n - 1), started at any retry count |
| SyncLaws.DefaultDelays | app/tasks/sync.py:26-32 | as Celery is configured here, the three retries come after 30, 60 and 120 seconds |
| SyncLaws.FileOutlivesAttempts | app/services/sync.py:133-151 | whatever other tenants upload and delete, every attempt of a job, the last included, finds its file if there was one when it was queued, and at the end of the job it is gone |
| SyncLaws.UploadedFileLives | app/services/sync.py:40-60 | from the upload on, in any history from an empty database whose uploads take new paths, every attempt of a job finds the file uploaded for it, and at the end of the job it is gone |
| SyncLaws.FileDeletedOnlyAtTheEnd | app/tasks/sync.py:55-65 | a delivery deletes no file but the job's own, and that only if the log reads COMPLETED or it was the last one allowed |
| SyncLaws.RedeliveryKeepsCompletedIff | app/services/sync.py:80-87 | there is no guard on the status: delivered again after completing, whatever was uploaded and done for other tenants since, a job stays COMPLETED if and only if the delivery dies before it begins, or its connector has nothing to read and connector and commit work; otherwise it becomes FAILED; the tables stay as they are in any case |
| SyncLaws.RedeliveryFails | app/services/sync.py:80-136 | a one-row product import that completes, and whose redelivery ends FAILED |
| SyncLaws.OneBadRowFailsTheAttempt | app/services/sync.py:164-186 | a file of one valid row whose insert fails in the server: all else works, and the attempt raises; with the same failure in the client it completes |
| Timeline.CountersBalance | app/services/sync.py:164-250 | after any uploads and deliveries of any jobs, total = processed + failed in every log |
| SyncLaws.EntriesMatchRejections | app/services/sync.py:237-250 | an attempt adds one error entry per refused row, hence at most one per failed row, each naming that row's entity, its SKU and the reason it was refused for |
| Timeline.AttemptKeepsConsistent | app/services/sync.py:77-136 | any attempt, failing or not, keeps keys unique and references inside their tenant, and no row is deleted, renamed or given another id |
| Timeline.EventsKeepConsistent | app/services/sync.py:40-136 | the same over every serial sequence of uploads and deliveries for any tenants, redeliveries included |
| Timeline.ReachableWorlds | app/services/sync.py:40-136 | so every world reached from an empty database is consistent, and its counters balance |
| Timeline.PathsStayDistinct | app/services/sync.py:48-57 | if uploads take new paths, no two logs ever share a file |
| Timeline.OthersLeaveJob | app/services/sync.py:77-151 | jobs of other tenants, and uploads under paths of their own, touch neither a job's log nor its file |
| Timeline.OthersLeaveBooks | app/services/sync.py:77-136 | nor anything in its tenant's books |
| Timeline.AttemptPosts | app/services/sync.py:91-136 | an attempt either posts exactly its accepted records, beside at most the locations named by its rows that raised, or leaves the books as they are |
| Timeline.CompletedMeansSucceeded | app/services/sync.py:116-119 | a log that comes to read COMPLETED was completed by an attempt of that job that succeeded |
| SyncService.StartSync | app/services/sync.py:40-60 | an upload saves the file and adds a log that is PENDING, the tenant's, for that path, with total, processed and failed at 0; every other log and all tables stay as they were; if the log's id is taken, only the file is there |
| SyncService.ProcessRow | app/services/sync.py:167-186 | the loop's try block, through the caching normalizer, does what the querying importer does with the row; a row without an SKU is refused for sku_code, one without its second text for name, location_name or batch_no, and a refused row leaves both caches as they were |
| SyncService.RecordOutcome | app/services/sync.py:180-186 | one processed or one failed record, and an error entry exactly for a refusal |
| SyncService.ProcessRows | app/services/sync.py:188-211 | the row loop is the import of its rows, with counters and error entries to match; without faults it is the import of the very same rows by the querying importer |
| SyncService.TryImport | app/services/sync.py:92-136 | the try block either commits the streamed rows, the counters and COMPLETED together and deletes the file, or commits nothing |
| SyncService.ProcessSync | app/services/sync.py:63-136 | the step-by-step attempt, with RUNNING, rollback and re-read, reaches the world and the ending that the specification gives, with the row entries or the fatal one in the error list |
| SyncService.SyncErpData | app/tasks/sync.py:33-65 | one delivery: done, a retry after base * 2^retries, or giving up with the file deleted, as the specification says |
| SyncService.FileStorage.Delete | app/services/sync.py:135-136 | deletes the named file only, and nothing for an empty path |
| Normalizer.DataNormalizer.constructor | app/integrations/normalizer.py:48-52 | a normalizer starts with empty, hence coherent, caches |
| Normalizer.DataNormalizer.ResolveProduct | app/integrations/normalizer.py:320-334 | from the cache or by query, the id found is that of the one row a query would return, and is cached; nothing else is, and caches stay coherent |
| Normalizer.DataNormalizer.ResolveLocation | app/integrations/normalizer.py:336-355 | likewise, or the location is created; only the locations table is written, and exactly the id resolved is cached |
| Normalizer.DataNormalizer.UpsertProduct | app/integrations/normalizer.py:193-225 | the same tables and outcome as the importer that queries every time; coherence kept, and exactly an accepted product is cached |
| Normalizer.DataNormalizer.CreateTransaction | app/integrations/normalizer.py:248-280 | the same tables and outcome as the importer that queries every time; coherence kept, and a refused row leaves both caches as they were |
| Normalizer.DataNormalizer.UpsertBatch | app/integrations/normalizer.py:282-316 | the same tables and outcome as the importer that queries every time; coherence kept, and a refused row leaves both caches as they were |
| Normalizer.CoherentAfterLocation | app/integrations/normalizer.py:347-354 | a created location leaves every cached key right, and is itself the one row under its name |
| Normalizer.CoherentAfterProduct | app/integrations/normalizer.py:193-225 | so does an inserted or updated product |
| Normalizer.CoherentElsewhere | app/integrations/normalizer.py:320-355 | the caches stay right while other jobs commit rows under other keys, since nothing deletes rows or renames keys |
| Refinement.ProductResolved | app/integrations/normalizer.py:320-334 | a product is found exactly if the catalogue lists it, and the lookup writes nothing |
| Refinement.LocationResolved | app/integrations/normalizer.py:336-355 | resolving a location adds exactly its site to the books, or nothing |
| Refinement.ProductUpserted | app/integrations/normalizer.py:193-225 | upserting a product refines setting its key in the catalogue, whatever statement fails |
| Refinement.TransactionCreated | app/integrations/normalizer.py:248-280 | creating a transaction refines adding an entry to a set; a client-side failure leaves at most its site |
| Refinement.BatchUpserted | app/integrations/normalizer.py:282-316 | upserting a batch refines setting its key in the stock, under the same proviso |
| Refinement.RowRefines | app/services/sync.py:188-211 | the simulation step: whatever fault strikes, a row of any kind is posted, refused with the reason the books give and no effect, or raises and leaves at most a site; if the session dies, the tables stay consistent |
| Refinement.CleanRow | app/services/sync.py:188-211 | a row that does not raise does exactly what it does on the books |
| ImportLaws.ImportPostsAccepted | app/services/sync.py:164-235 | any import that ends alive leaves the books of posting its accepted records in order; the only further locations are of the tenant and named by valid rows that raised; keys, references and ids are kept even if it does not end alive |
| ImportLaws.CleanImportPosts | app/services/sync.py:164-235 | when no row raised, that is posting all the records read, and nothing besides |
| ImportLaws.CleanImport | app/services/sync.py:164-235 | an import in which no row raised has the same tables, acceptances and reasons as the import on the books |
| ImportLaws.PoisonIsForever | app/services/sync.py:184-186 | once a row has poisoned the transaction, no later row is accepted and nothing more is written |
| ImportLaws.TransactionImportIsUnion | app/integrations/normalizer.py:248-280 | a transaction import makes the ledger the union of the old entries and those of the accepted records, without duplicates, and the locations the union of the old ones and those the accepted records name, with at most those that raising rows name besides; it touches neither products nor batches |
| ImportLaws.ReimportChangesNothing | app/integrations/normalizer.py:254-266 | importing again any of the records that did not raise, in any order and number, under any faults, leaves all four tables exactly as they were |
| ImportLaws.ProductImportIsLastWriterWins | app/integrations/normalizer.py:193-225 | after a product import each key holds the last accepted record for it, all other keys are unchanged, no row changes its id, and locations, transactions and batches are as they were |
| ImportLaws.BatchImportIsLastWriterWins | app/integrations/normalizer.py:282-316 | likewise for batches under (tenant, product, batch number), the locations being as for transactions; products and transactions are as they were |
| ImportLaws.RejectedRow | app/integrations/normalizer.py:252-253 | a row refused with NormalizationError leaves tables and transaction untouched, whatever the draw; that it leaves the caches untouched is in the contracts of `SyncService.ProcessRow` and of the normalizer's methods |
| ImportLaws.RejectedRowsLeaveNoTrace | app/services/sync.py:182-183 | striking the refused rows out of a file changes neither the tables nor what becomes of the other rows |
| ImportLaws.DecidedByInitialCatalogue | app/integrations/normalizer.py:284-289 | for transactions and batches, the product table before the import decides acceptance and the reason for refusal of every row |
| ImportLaws.UndisturbedImport | app/services/sync.py:164-235 | without faults and with fresh ids no row raises and the transaction stays alive: what is not accepted was refused by validation |
| ImportLaws.BooksExist | app/models/product.py:31 | all tables with unique keys and references inside their tenant have books |
| ImportLaws.BooksUnique | app/models/batch.py:41-45 | and only one set of them, so statements about books are statements about tables |
| BookLaws.TransactionsUnite | app/integrations/normalizer.py:248-280 | posting transactions adds exactly the entries and sites of the records whose product was listed to begin with |
| BookLaws.TransactionsIdempotent | app/integrations/normalizer.py:254-266 | posting any selection of the same records again, in any order, changes nothing |
| BookLaws.ProductsLastWriterWins | app/integrations/normalizer.py:195-220 | posting products is a last-writer-wins fold, key by key |
| BookLaws.ProductsIdempotent | app/integrations/normalizer.py:195-220 | and posting the list a second time changes nothing |
| BookLaws.LastListingIsLast | app/integrations/normalizer.py:207-218 | the winner is the record after which no valid one has the same SKU, in all its fields |
| BookLaws.BatchesLastWriterWins | app/integrations/normalizer.py:290-312 | posting batches is a last-writer-wins fold, key by key |
| BookLaws.BatchesFrame | app/integrations/normalizer.py:282-316 | and touches nothing else but the sites of the records whose product is listed |
| BookLaws.BatchesIdempotent | app/integrations/normalizer.py:290-312 | posting the list a second time changes nothing |
| BookLaws.LastLotIsLast | app/integrations/normalizer.py:301-310 | the winner is the record after which no accepted one has the same key, in all its fields |
| BookLaws.OtherTenantsUntouched | app/integrations/normalizer.py:48-50 | an import changes no entry of another tenant |
| BookLaws.PostingIsLocal | app/integrations/normalizer.py:48-50 | and what it does to its own tenant's books depends on nothing but these |
| Integrity.OneProduct | app/models/product.py:31 | a lookup by (tenant, SKU) never finds two rows |
| Integrity.OneLocation | app/integrations/normalizer.py:341-346 | nor does one by (tenant, location name), which no database constraint guards |
| Integrity.OneTransaction | app/integrations/normalizer.py:254-265 | nor one by the eight-field key |
| Integrity.LocationKeeps | app/integrations/normalizer.py:347-353 | creating a location that was not found keeps all integrity rules and all rows |
| Integrity.ProductKeeps | app/integrations/normalizer.py:207-218 | so does inserting or updating a product |
| Integrity.TransactionKeeps | app/integrations/normalizer.py:268-279 | so does inserting a transaction that was not found |
| Integrity.BatchKeeps | app/integrations/normalizer.py:290-312 | so does inserting or updating a batch |
| Store.ScalarOneOrNone | app/integrations/normalizer.py:329-332 | none, the one id, or an exception for several |
| StoredRows.ProductRowStored | app/integrations/normalizer.py:193-225 | an accepted product row leaves the record's values, column by column, in the one row with the tenant's SKU, or in a new row if there was none, and every other row of every table as it was |
| StoredRows.LocationStored | app/integrations/normalizer.py:336-355 | a resolved location is a row with the tenant and that name, and no other row changes |
| StoredRows.TransactionRowStored | app/integrations/normalizer.py:248-280 | an accepted transaction row is in the table, column by column, with the tenant's product that has its SKU and the tenant's location that has its name; nothing else changes but that the location may be new |
| StoredRows.BatchRowStored | app/integrations/normalizer.py:282-316 | likewise for a batch, whose location is that of its shelf, or none if no shelf is named |
| Importer.NormalizeKeepsTidy | app/integrations/normalizer.py:56-85 | the second validation refuses a stripped record exactly for a missing required text and hands any other on unchanged, every field of it |
| Importer.RefusedFor | app/integrations/normalizer.py:56-170 | for records of any kind, stripped or not: refused for sku_code if and only if the SKU is empty, and for name, location_name or batch_no if and only if the SKU is there and that text is empty; nothing else is refused |
| Importer.NormalizedFields | app/integrations/normalizer.py:68-191 | what becomes of any record that is not refused: numbers, dates and movement stay, texts lose the blanks at their ends, an empty optional text becomes absent, an empty unit becomes pcs |
| Text.StripTwice | app/integrations/normalizer.py:72-73 | stripping twice, as connector and normalizer do, is stripping once |
| Text.StripSplits | app/integrations/normalizer.py:72-73 | stripping takes all blanks from the two ends and nothing else |
| Text.Blanks | app/integrations/normalizer.py:72-73 | the blanks are ten characters of ASCII |
| Text.CommasGone | app/integrations/csv_connector.py:196 | removing commas leaves no comma and every other character |
| TokenRotation.StepKeepsInv | app/services/auth.py:28-155 | the rotation invariant is inductive over every step of every interleaving |
| TokenRotation.AtMostOneHolder | app/services/auth.py:106-142 | in every run, at every moment, the live tokens of a login and the refreshes that hold one of its consumed tokens are at most one together |
| TokenRotation.RedeemedOnce | app/services/auth.py:115-121 | of all requests ever made with a token, at most one gets past GETDEL |
| TokenRotation.OneSuccessorEver | app/services/auth.py:139-142 | a token has at most one successor, ever |
| TokenRotation.NeverLiveAgain | app/services/auth.py:28-40 | a token that was consumed, revoked or has expired is never live again |
| TokenRotation.TokensStay | app/services/auth.py:28-40 | subject, lineage and parent of a token never change |
| TokenRotation.LeavesStoreIff | app/services/auth.py:28-40 | in one step a live token stops being live if and only if it is the one that is consumed, revoked or expires; otherwise its value stays |
| TokenRotation.StaysLive | app/services/auth.py:28-155 | so over any stretch of any run a token stays live, with its value, until one of the three happens to it, whatever is done with other tokens |
| TokenRotation.EntersStoreIff | app/services/auth.py:28-40 | and a token becomes live if and only if a pending login or a vetted refresh issues it |
| TokenRotation.MintedIff | app/services/auth.py:28-36 | exactly these two mint a token, for the user of the login with a lineage of its own, or for the user of the refresh with the parent and the lineage of the token it replaces |
| TokenRotation.AccountsChangeIff | app/services/auth.py:75-155 | logins, refreshes, logouts and expiry change no account |
| TokenRotation.PendingIff | app/services/auth.py:75-103 | a login is pending from its admission, which takes an existing active account and the right password, until its token is issued or it is abandoned |
| TokenRotation.InFlightIff | app/services/auth.py:106-142 | a refresh is in flight from its GETDEL until it issues its token, is abandoned, or is turned away at its lookup |
| TokenRotation.LetThroughIff | app/services/auth.py:123-137 | the lookup lets a refresh through if and only if the subject of its token exists and is active, and then as that user |
| TokenRotation.OneOwner | app/services/auth.py:115-142 | stored value, token subject, the user a refresh looked up, the parent's subject and the user of the founding login are always the same user |
| TokenRotation.DeadStaysDead | app/services/auth.py:145-155 | a lineage with no live token and no refresh in flight stays so in every continuation |
| TokenRotation.DeadHasNoHeir | app/services/auth.py:145-155 | and no token of it is ever issued again |
| TokenRotation.LogoutEndsLineageIff | app/services/auth.py:145-155 | a logout ends its lineage if and only if the token is still live or the lineage was dead already |
| TokenRotation.LogoutLosesTheRace | app/services/auth.py:115-155 | with a refresh in flight the logout deletes nothing, and the successor issued afterwards is live |
| TokenRotation.RaceIsReachable | app/services/auth.py:75-142 | such a state is reached by a run from the start |
| TokenRotation.ClosedGetsNoToken | app/services/auth.py:94-137 | once an account is inactive or gone and no request already let through for it is pending, no run issues it another token until it is activated again |
| TokenRotation.NeverIssuedAgainIff | app/services/auth.py:94-142 | exact: no continuation of a run without an activation issues the user a token that was not there, if and only if the account is inactive or gone and no login or refresh let through for it is pending |
| TokenRotation.OpenGetsToken | app/services/auth.py:94-142 | otherwise some continuation does, by finishing the pending login or refresh or by a new login |
| TokenRotation.DeactivationLosesTheRace | app/services/auth.py:133-142 | being inactive is not enough: a refresh past its user lookup still issues a live token |
| TokenRotation.PendingLoginWins | app/services/auth.py:94-103 | nor when a login was admitted: a run that deactivates the account before its token is issued |
| TokenRotation.AuthService.StoreToken | app/services/auth.py:28-40 | issuing a token sets its own key to its subject's id and changes no other key: every live token stays live |
| TokenRotation.AuthService.Authenticate | app/services/auth.py:75-100 | admits exactly an existing, active user with the right password, and issues nothing yet |
| TokenRotation.AuthService.FinishLogin | app/services/auth.py:101-103 | issues the first token of a new lineage to the user that was checked; nothing else holds that lineage, and every other live token stays as it was |
| TokenRotation.AuthService.BeginRefresh | app/services/auth.py:106-121 | redeems a signed, live token by deleting its key and no other, and refuses any other with no effect; afterwards the token is not live in either case |
| TokenRotation.AuthService.CheckUser | app/services/auth.py:123-137 | goes on if and only if the subject of the token exists and is active, else ends without a successor; the store stays as it was |
| TokenRotation.AuthService.FinishRefresh | app/services/auth.py:138-142 | issues the successor to the subject of the token it replaces, in the same lineage, of which it is then the only holder; every other live token stays as it was |
| TokenRotation.AuthService.EndSession | app/services/auth.py:145-155 | a logout deletes the token's key and no other if the token is signed and is refused otherwise; the token is not live afterwards |
| MigrationRls.MigrationScript.ProcessRevisionDirectives | app/rls.py:62-83 | in place: the upgrade becomes itself followed by the securing statements of each new tenant table in order, the downgrade the releasing statements in reverse order followed by itself |
| MigrationRls.MigrationScript.PrependDowngrade | app/rls.py:82-83 | inserting the reversed statements one by one at the front puts them there in their own order |
| MigrationRls.ListedIff | app/rls.py:49-77 | the hook finds exactly the tables that the upgrade creates and the metadata marks |
| MigrationRls.MarkedIff | app/rls.py:49-54 | a table is marked if and only if the metadata knows it and any of its columns, wherever it stands, carries the flag |
| MigrationRls.TablesInOrder | app/rls.py:72-77 | the tables are taken in the order of the operations that create them |
| MigrationRls.SecuringShape | app/rls.py:24-36 | for each table the appended statements enable and force row-level security and create the policy tenant_isolation_ with the table's name, under which nexus_runtime sees the rows whose tenant_id is app.current_tenant_id |
| MigrationRls.ReleasingShape | app/rls.py:39-46 | the prepended ones, for the last table first, drop that policy, lift the force and disable |
| MigrationRls.NewTablesSecured | app/rls.py:20-83 | after a rewritten upgrade that runs, row-level security is enabled and forced on each new marked table, with exactly that policy, and every other table is as the original upgrade leaves it |
| MigrationRls.SecuringRunsIff | app/rls.py:24-36 | the appended statements run, and secure exactly these tables with the policy of `SecuringShape`, if and only if each is listed once, exists, has a tenant_id column and lacks the policy |
| MigrationRls.ReleasingUndoes | app/rls.py:39-46 | after them the prepended statements always run and switch security off again on exactly these tables |
| MigrationRls.LeftWithIsExact | app/rls.py:73-77 | the columns with which an autogenerated script leaves a table it creates, if it leaves it, can be read off the operation list alone |
| MigrationRls.RewrittenUpgradeRunsIff | app/rls.py:62-83 | a rewritten autogenerated upgrade runs, where the original does, if and only if, by its operation list, each new tenant table is created once and is left with a tenant_id column |
| MigrationRls.RewritingKeepsRoundTripIff | app/rls.py:62-83 | rewriting keeps the round trip, for every schema the original pair restores, under exactly the same condition |
| MigrationRls.NothingDroppedSuffices | app/rls.py:62-83 | every upgrade that creates its tenant tables with a tenant_id column, and drops neither these tables nor that column again, meets it |
| MigrationRls.OtherTenantColumnBreaks | app/rls.py:49-54 | a table whose marked column is called org_id: the pair restores the empty schema, the rewritten upgrade is refused |
| MigrationRls.DroppedTableBreaks | app/rls.py:73-83 | a tenant table that is created and dropped in one upgrade: likewise |
| Float64.NearestBound | app/integrations/csv_connector.py:194-200 | rounding to a double errs by at most half the spacing |
| Paise.TwiceRounded | app/integrations/csv_connector.py:194-200 | the decimal and its product with 100, each rounded to the nearest double, still round to the exact paise, up to 3518437208883204 either way |
| Paise.PaiseExact | app/integrations/csv_connector.py:188-202 | any text of such an amount, signed or not, with commas and surrounding blanks, becomes exactly its paise, and the normalizer's second conversion leaves them unscaled |
| Paise.PaiseRoundTrip | app/integrations/csv_connector.py:188-202 | every amount up to that limit, written with two decimals, is read back as itself |
| Paise.PaiseInexactBeyond | app/integrations/csv_connector.py:198-200 | the limit is sharp: 35184372088832.05 comes back one paisa short |
| Paise.CommasAndBlanksIgnored | app/integrations/csv_connector.py:196 | commas anywhere and blanks around the text do not matter |
| Paise.QuantityExact | app/integrations/csv_connector.py:205-219 | whole quantities up to 2^53 either way are read exactly |
| Paise.WholeReads | app/integrations/csv_connector.py:205-219 | and come back when they are written out and read |
| Paise.QuantityInexactBeyond | app/integrations/csv_connector.py:213-217 | the text of 2^53 + 1 is read as 2^53 |
| Numbers.TruncatesIff | app/integrations/csv_connector.py:205-219 | `int` of a double is the whole number between zero and it that is less than one away |
| Numbers.QuantityTruncated | app/integrations/csv_connector.py:205-219 | a quantity with up to two decimals, in any spelling and either sign, up to 2^45, becomes its signed whole part: 2.75 is 2, -2.75 is -2 |
| Numbers.DecimalIff | app/integrations/csv_connector.py:196-200 | `float` accepts exactly the unsigned texts of digits with at most one point before, among or behind them and perhaps an exponent, the three words inf, infinity and nan aside |
| Numbers.PlainMeans | app/integrations/csv_connector.py:196-200 | without an exponent such a text stands for its digits with as many places as there are behind the point |
| Numbers.ExponentMeans | app/integrations/csv_connector.py:196-200 | and with one for that number moved by as many places |
| Numbers.PlaceValue | app/integrations/csv_connector.py:196-200 | digits have decimal place value |
| Numbers.UnreadableIsZero | app/integrations/csv_connector.py:188-219 | a text that is neither such a number nor one of the words is zero for both converters, and an error for the normalizer's |
| Numbers.BlankIsZero | app/integrations/csv_connector.py:188-219 | a text of nothing but blanks and commas is zero |
| Numbers.NaNIsZero | app/integrations/csv_connector.py:188-219 | and so is nan, in capitals or not, signed or not |
| Numbers.NothingIsZero | app/integrations/csv_connector.py:188-219 | a missing value and a NaN are zero |
| Numbers.IntegerRupees | app/integrations/csv_connector.py:188-202 | an integer is rupees for the connector and paise for the normalizer |
| Numbers.IntegerQuantity | app/integrations/csv_connector.py:205-219 | an integer quantity up to 2^53 either way stays what it is |
| Numbers.FamiliarAmount | app/integrations/csv_connector.py:188-202 | "-1,234.05" between blanks is -123405 paise |
| Numbers.RoundsIff | app/integrations/csv_connector.py:198-200 | Python's `round` gives the nearest whole number, and of two that are equally near the even one |
| Numbers.SignificantBits | app/integrations/csv_connector.py:194-200 | a double has 53 significant bits down to the smallest normal number, and one spacing below it |
| Overflow.ToDoubleOverflowsIff | app/integrations/csv_connector.py:194-200 | a decimal number becomes an infinity exactly from 2^1024 - 2^970 on, on either side |
| Overflow.QuantityOverflowsIff | app/integrations/csv_connector.py:205-219 | a text makes `_to_int` raise if and only if it is a signed or unsigned inf or infinity, or such a decimal number |
| Overflow.AmountOverflowsIff | app/integrations/csv_connector.py:188-202 | a text makes `_to_paise` raise if and only if it is a signed or unsigned inf or infinity, or a decimal number whose double times 100 is at least that bound |
| Dates.FormatsDisjoint | app/integrations/csv_connector.py:239-243 | no text is a date in two of the five formats |
| Dates.OrderIsIrrelevant | app/integrations/csv_connector.py:239-244 | trying the formats in any order, with any repetitions, gives the same result |
| Dates.DateRoundTrip | app/integrations/csv_connector.py:229-244 | every calendar date, leap days included, printed zero-padded in any of the formats is read back as itself |
| DateForms.DateIff | app/integrations/csv_connector.py:229-244 | a text with a separator is read as a date if and only if, blanks around it aside, it spells that calendar day as year-month-day, day-month-year, month/day/year or year/month/day, with a year of four digits, a month and a day of one or two, or a day of a blank and a digit |
| DateForms.CompactIff | app/integrations/csv_connector.py:229-244 | one without is if and only if it spells year, month and day on end, where a month that begins with 1 takes a second digit if a day is left after it |
| DateForms.LeapDays | app/integrations/csv_connector.py:229-244 | 29 February exists in every fourth year, of the full hundreds in every fourth only: in 2024 and 2000, not in 2100 or 2023 |
| DateForms.MonthLengths | app/integrations/csv_connector.py:229-244 | April, June, September and November have thirty days, the others but February thirty-one |
| DateForms.FifthOfMarchDayFirst | app/integrations/csv_connector.py:239-243 | 5-3-2024 and 05-03-2024 are 5 March 2024 |
| DateForms.FifthOfMarchWithSlashes | app/integrations/csv_connector.py:239-243 | so are 3/5/2024 and 2024/03/05 |
| DateForms.FifthOfMarchYearFirst | app/integrations/csv_connector.py:239-243 | and 2024-03-05 and 20240305 |
| Dates.ParsersAgree | app/integrations/normalizer.py:399-426 | the normalizer's parser returns what the connector's returns on exactly the zero-padded texts with separators, and raises on all others |
| CsvConnector.ApplyMapping | app/integrations/csv_connector.py:177-185 | the loop computes the mapping's fold |
| CsvConnector.MappedField | app/integrations/csv_connector.py:177-185 | each target field holds the cell of its own column, or is missing with it |
| CsvConnector.MovementIff | app/integrations/csv_connector.py:222-226 | the type of a transaction is named by its word, with capitals or blanks or without; any other text means in |
| CsvConnector.MissingColumn | app/integrations/csv_connector.py:121-174 | a missing column is zero, no date and no text |
| CsvConnector.DateColumn | app/integrations/csv_connector.py:229-244 | a date column holds the day its text is a date of, or none if it is not one |
| CsvConnector.TextColumn | app/integrations/csv_connector.py:121-174 | an optional text is absent if and only if its cell is empty, and stripped otherwise |
| CsvConnector.DayNumbersOrder | app/integrations/csv_connector.py:229-244 | the numbers that stand for dates and moments here keep their identity and their order |
| CsvConnector.ProductSucceedsIff | app/integrations/csv_connector.py:121-141 | a product row ends the stream exactly when one of its two amounts is such a text; nothing else in it can |
| CsvConnector.TransactionSucceedsIff | app/integrations/csv_connector.py:144-159 | a transaction row, when its quantity or its cost is |
| CsvConnector.BatchSucceedsIff | app/integrations/csv_connector.py:162-174 | a batch row, when its quantity is |
| CsvConnector.ProductCells | app/integrations/csv_connector.py:24-31 | each field of a product record comes from its own column of the sheet |
| CsvConnector.TransactionCells | app/integrations/csv_connector.py:33-41 | likewise for transactions, the date of a date cell being its midnight |
| CsvConnector.BatchCells | app/integrations/csv_connector.py:43-50 | likewise for batches |
| CsvConnector.ProductRowRoundTrip | app/integrations/csv_connector.py:121-141 | a product record written out as a row, among any other columns, is read back as itself |
| CsvConnector.TransactionRowRoundTrip | app/integrations/csv_connector.py:144-159 | so is a transaction record, quantity, amount, movement and date included |
| CsvConnector.BatchRowRoundTrip | app/integrations/csv_connector.py:162-174 | so is a batch record, with or without its dates |
| MargExport.TransformRows | integrations/marg_hook/nexus_marg_sync.py:124-141 | the loop computes the rows that have a transformation, transformed (`TransformedInOrder` says in which order) |
| MargExport.TransformedInOrder | integrations/marg_hook/nexus_marg_sync.py:124-141 | a row gives its transformation or nothing, and what one stretch of rows gives comes before what the next one gives |
| MargExport.CleanIff | integrations/marg_hook/nexus_marg_sync.py:316-320 | a cell is emptied if and only if, stripped, it is blank, one of two dashes, nan, NaN or None; any other is stripped |
| MargExport.EitherIff | integrations/marg_hook/nexus_marg_sync.py:128-149 | of two columns the first counts when it is there and not empty, else the second |
| MargExport.DefaultIff | integrations/marg_hook/nexus_marg_sync.py:135-159 | a default is used for the empty text alone |
| MargExport.ProductFields | integrations/marg_hook/nexus_marg_sync.py:124-141 | through export and import, each field of the product record comes from its own column of Marg's row |
| MargExport.BatchFields | integrations/marg_hook/nexus_marg_sync.py:144-163 | likewise for batches; a row without a godown goes to the default location |
| MargExport.TransactionFields | integrations/marg_hook/nexus_marg_sync.py:166-187 | likewise for dispatches, which become movements out |
| MargExport.RowIsKept | integrations/marg_hook/nexus_marg_sync.py:127-131 | a row is transformed if and only if the cleaned columns it needs are not blank |
| MargExport.ProductRowValid | integrations/marg_hook/nexus_marg_sync.py:127-131 | no transformed product row is lost to validation, and its record has its SKU |
| MargExport.BatchRowValid | integrations/marg_hook/nexus_marg_sync.py:148-152 | nor is any transformed batch row |
| MargExport.TransactionRowValidIff | integrations/marg_hook/nexus_marg_sync.py:170-175 | a transformed dispatch row passes validation if and only if it or the default names a location that is not blank |
| MargSync.PollStatus | integrations/marg_hook/nexus_marg_sync.py:217-231 | polling reads the log's status at most 90 times while the platform goes on, and returns the verdict of the first final one, in the world in which it was read |
| MargSync.PollVerdict | integrations/marg_hook/nexus_marg_sync.py:225-229 | that verdict is the one of the answer before which all were still open, the last one read |
| MargSync.PollTimesOutIff | integrations/marg_hook/nexus_marg_sync.py:219-231 | and polling times out exactly if all are |
| MargSync.SelectedIff | integrations/marg_hook/nexus_marg_sync.py:290-301 | exactly the wanted entities that have an export are uploaded |
| MargSync.SingleCommands | integrations/marg_hook/nexus_marg_sync.py:290-301 | the commands for one entity upload that entity alone, if it has an export |
| MargSync.AllInOrder | integrations/marg_hook/nexus_marg_sync.py:290-301 | sync-all uploads products, then batches, then transactions, each if it has one |
| MargSync.UploadAndPoll | integrations/marg_hook/nexus_marg_sync.py:72-76 | one upload: a new pending job unless it is refused, then polling until its verdict |
| MargSync.UploadAll | integrations/marg_hook/nexus_marg_sync.py:72-76 | the loop uploads the selected entities in order, each only after the job before it was seen to complete, and leaves the platform in the world the specification gives |
| MargSync.UploadsFollowSelection | integrations/marg_hook/nexus_marg_sync.py:72-76 | in any world and whatever the platform does meanwhile, the uploads are those of the first entities selected, one each and in their order; all but the last were seen to complete, and the run succeeds if and only if every selected entity was uploaded and seen to complete |
| MargSync.UploadsAreLater | integrations/marg_hook/nexus_marg_sync.py:72-76 | every accepted upload of a run belongs to a selected entity, is made in a world that events from the start have led to, and its log is new: PENDING, the tenant's, with all counters at 0 |
| MargSync.SeenMeansCompleted | integrations/marg_hook/nexus_marg_sync.py:225-229 | when the client sees COMPLETED, the job's log reads so in that world |
| MargSync.ProductsCompleteFirst | integrations/marg_hook/nexus_marg_sync.py:290-301 | in sync-all with a product export, any upload of batches or dispatches comes after a world in which the log of the product job of this run reads COMPLETED |
| MargSync.ExportedProductsListed | integrations/marg_hook/nexus_marg_sync.py:124-141 | after an import of the product export, the SKU of every exported row that did not itself raise is in the product table, whatever became of the others |
| MargSync.CompletedJobLists | integrations/marg_hook/nexus_marg_sync.py:72-76 | a product job that comes to read COMPLETED has left the SKU of each such row in the product table |
| MargSync.ListedProductResolves | app/integrations/normalizer.py:320-334 | a valid row whose product is in the table when the import begins is never refused |
| MargSync.ExportedBatchesResolve | integrations/marg_hook/nexus_marg_sync.py:72-76 | the whole chain: when sync-all with a product export uploads batches, then in every attempt of that job, whatever happens before it, no transformed batch row is refused whose SKU occurs in the product export |
| MargSync.ExportedDispatchesResolveIff | integrations/marg_hook/nexus_marg_sync.py:72-76 | and when it uploads dispatches, of the transformed rows whose SKU occurs there exactly those with a blank location are refused |

## Left out

Assumptions:

- Attempts are serial and run to their end: worker crashes, two deliveries of one job at once, and two
  jobs creating the same location at once are not modelled; the code has no guard against them.
- While a job lasts, no other job of the same tenant is delivered; those of other tenants may be, and files may
  be uploaded for anyone. The theorems of `Timeline` about all events have no such restriction.
- Files are stored under new paths (`save` puts a random number before the name).
- The writes of the failure handler and the deletion of a file succeed.
- New jtis are fresh; primary keys drawn for new rows may collide, which is a failure in the server.
- The export's CSV is lossless, and pandas takes no cell but a blank one for missing. A product row whose insert
  fails in the client library is lost without its job failing; that is excluded for the row that carries
  the SKU in question, and for no other.

Not modelled:

- Normalizer.DataNormalizer.UpsertProduct: `industry_attributes` and the timestamps are left out, since the connector never sets the first and the others only record when a write happened.
- SyncService.ProcessSync: the error list is the one in memory; whether the ORM notices its change in place and stores it is decided by the ORM. The list read again after a rollback is a parameter.
- SyncService.ProcessRows: the three row loops are one loop that dispatches on the kind of record, as they differ in nothing else.
- CsvConnector.TransactionCells: what `_to_datetime` makes of a text that is no date (a date with a time of day, or the present) is a parameter.
- CsvConnector.ProductCells: the default column mapping only; cells are text, as the files are read with `dtype=str`.
- CsvConnector.ApplyMapping: no NaN test, since missing cells are dropped before.
- Importer.NormalizeKeepsTidy: records arrive typed from the connector, so the failures of the second conversion cannot occur and are not there; an absent date is a parameter of the first.
- Paise.PaiseExact: digit groups with underscores, and digits and blanks outside ASCII, which `float` would also accept, are not part of the parser modelled here.
- Numbers.DecimalIff: about texts without underscores and in ASCII, for the same reason.
- Numbers.UnreadableIsZero: likewise; `1_000`, which `float` reads as a thousand, is no number in this model.
- DateForms.DateIff: digits outside ASCII, which `strptime` also accepts, are not part of the matcher modelled here.
- MigrationRls.MigrationScript.ProcessRevisionDirectives: the statements are values with their meaning, not text; tables of other schemas and quoting are left out.
- TokenRotation.AuthService.Authenticate: password hashing is a boolean, `last_login` is left out, and so are access tokens and the signing of tokens.
- MargSync.UploadAll: with polling only; login, multipart bodies, logging and file access are network and file I/O.
- Session-level tenant settings, the policies' effect on queries, the connection pool, and what SQLAlchemy does beyond the store and transaction semantics above.
- The quality score.
- `upsert_inventory` and `normalize_inventory`, which nothing calls; the first inserts without looking and would break the uniqueness of transactions.
- HTTP routes, dependencies, schemas, the connector registry and pagination: single-branch plumbing.
