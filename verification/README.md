# CORM, modelled and proved in Dafny

CORM is an object-relational mapper in C. This project models the parts of it that keep state or produce
text, and proves properties of them over all inputs, all runs and, for the connection pool, all interleavings.
`dafny verify dfyconfig.toml` checks everything.

- **Connection pool** (`src/internal/pool.c`). `PoolProtocol` is a transition system over any number of
  threads: every section under the mutex is one event, and so are the steps between two such sections (ping,
  open, close), waking up, spurious wake-ups and the expiry of a timed wait. `PoolSafety` proves the inductive
  invariant, `PoolTheorems` reads the properties off it. `Pool` is the retry loop of one thread on a linked
  stack, with its termination; `PoolSolo` shows that its results are runs of the transition system, and that the next
  acquire undoes a release.
- **Statement cache and SQLite handles** (`src/internal/stmt_cache.c`, `src/backend/sqlite3.c`). `Lru` holds
  the recency sequence and its inclusion property, `LruTrace` says what it holds from the trace of uses alone,
  `StmtCache` is the doubly linked list that refines it, `SqliteDriver` the ownership of prepared statements up to
  `corm_close`, and `DriverTrace` shows which calls leave their statement in the cache.
- **Query builder** (`src/query.c`, `src/builder.c`, `src/dialect.c`). A text is read back as a database reads
  it: characters, and holes that name parameters. `SqlText` and `Dialects` connect what is written with what
  is read; `QueryCalls` and `Query` are the fluent interface, on values and on the query object; `Alignment`
  proves that every value ends up in the hole it is meant for, and `HelperMeaning` what the helpers with values
  say; `Identifiers` reads the quoted names back,
  `SelectReading` the clauses of a SELECT and its page; `Conditions` gives the WHERE chain its meaning
  in three-valued logic, and `FindFilter` judges the soft-delete filter by it; `PostgresUpdate`, `SoftDelete` and
  `SqliteParameters` say exactly when three risky paths still do what is meant.
- **Batches** (`src/query.c`). `BatchInsert` and `CreateBatch` compare the multi-row INSERT with inserting the
  records one at a time, and `CreateHooks` says when the hook of `corm_create` makes a difference;
  `KeyedBatch` compares the transactional update and delete batches with the left fold
  of the single operations, and `KeyedMeaning` compares their statements with what the model and the record ask
  for.
- **Migration** (`src/migration.c`), **hash table and model registry** (`src/internal/hash.h`, `src/model.c`)
  and **string buffer** (`src/internal/strbuf.h`), each in the module of that name.

What a component cannot know is a parameter: the clock, pings and opens of the pool (`Pool.World`), whether a
statement can be prepared or succeeds, whether BEGIN, CREATE TABLE or an introspection succeeds, which column
names a database takes as the same, and what a statement does to a table.

Where the code does not keep what one would expect of it, the model follows the code, and a theorem says
exactly when the expectation is met:

- With a limit on open connections and a timeout, POSIX lets an expiring wait consume a signal, and the pool can
  then stall (`PoolTheorems.StallsExactlyWhenTimed`). In this configuration every sleeper is itself timed, so the
  stall ends at the next expiry, with an error although a slot is free.
- An UPDATE on Postgres with values of `corm_query_set` and in raw WHERE conditions numbers the latter as if the
  former were not there
  (`PostgresUpdate.PostgresUpdateExactly`, and `KeyedMeaning.KeyedOnPostgresExactly` for batches; inputs:
  `KeyedMeaning.SetMisread` and `KeyedMeaning.KeyMisread`).
- `corm_delete` on a model with a soft-delete column binds the SET value last; with `?` holes that mixes up the
  values (`SoftDelete.LateSetExactly`; an input: `SoftDelete.LateSetMisread`).
- SQLite numbers named parameters in raw texts (`:x`, `@x`, `#x`, `$x`, and `?5`) together with the `?`, so the
  values bound go to other holes (`SqliteParameters.SqliteExactly`; an input: `SqliteParameters.NamedMisread`).
- `corm_create_batch` never runs `before_create`, which may refuse or edit a record
  (`CreateHooks.BatchSkipsHookExactly`; an input: `CreateHooks.RefusedIsStored`).
- A keyed batch inside a transaction of the caller commits that transaction, and undoes its earlier work when it
  fails, except on MySQL, which commits the earlier work first (`KeyedBatch.RunBatch`).
- The soft-delete filter joins only the last AND-run of the WHERE chain
  (`FindFilter.FindHidesDeletedExactly`). `docs/ARCHITECTURE.md` (lines 237-244) applies the filter in
  `corm_build_sql`, also to `corm_delete`, and lets a delete store the current time; the code filters in
  `corm_find` only and stores the text `deleted`, whether the query is unscoped or not. The model follows the
  code.
- An offset without a limit is written as LIMIT 0, although 0 means that there is none
  (`include/corm/query.h`, line 31): the statement returns nothing (`SelectReading.PageExactly`; an input:
  `SelectReading.OffsetAlone`).
- A second migration repeats an ADD COLUMN for a column that the database has under another spelling
  (`Migration.SecondRunIssues`), and CREATE TABLE declares the key wrongly for some combinations of
  auto-increment and key columns (`Migration.KeyDeclaredExactly`; an input: `Migration.KeyDeclaredTwice`).
- The doubling loop of the string buffer never ends when more than 2^63 bytes are needed
  (`StrBuf.DoublingEndsExactly`).

## Model

| member | source | states |
|---|---|---|
| `PoolSafety.Kept` | src/internal/pool.c:31-161 | every event of every thread keeps the invariant: the ledger of `current_open` balances, limits hold, each live connection is in exactly one place, and while a thread sleeps what is available is covered by threads about to look |
| `PoolSafety.Invariant` | src/internal/pool.c:31-161 | the invariant holds after every run of any number of threads |
| `PoolTheorems.ConservationAndBound` | src/internal/pool.c:38-160 | in every reachable state `idle_count` is the list's length, `current_open` is the sum of idle, borrowed, popped and reserved, both limits hold when positive, and no more connections are live than `current_open` says |
| `PoolTheorems.ExclusiveOwnership` | src/internal/pool.c:59-156 | in every reachable state no connection is with two threads, with a thread and idle, or idle twice; all of them are open |
| `PoolTheorems.HandedOut` | src/internal/pool.c:89-120 | a client gets a connection only by a successful ping of it or by opening it just then, and it is open at that moment |
| `PoolTheorems.NothingSwallowed` | src/internal/pool.c:49-53 | if no expiring wait consumes a signal, no signal is ever lost |
| `PoolTheorems.NoLostWakeUp` | src/internal/pool.c:38-160 | if no expiring wait consumes a signal: while a thread sleeps, idle connections plus free slots never exceed the woken threads that have not looked again |
| `PoolTheorems.NeverStalls` | src/internal/pool.c:38-57 | no run leaves sleepers beside an idle connection or a free slot with nobody about to look, if there is no limit, no timeout, or no signal consumed by an expiry |
| `PoolTheorems.SleeperIsWaitedOn` | src/internal/pool.c:38-57 | if no expiring wait consumes a signal: a sleeper always has a woken thread or the owner of a slot to wait for |
| `PoolTheorems.TimedWaitStalls` | src/internal/pool.c:40-53 | with a limit and a timeout there is a run into such a stall |
| `PoolTheorems.StallsExactlyWhenTimed` | src/internal/pool.c:38-57 | the pool can stall if and only if it has both a limit on open connections and a timeout |
| `Pool.Pool.constructor` | src/internal/pool.c:14-29 | a new pool is empty |
| `Pool.Pool.Acquire` | src/internal/pool.c:31-128 | without interference it terminates, waits exactly when there is neither an idle connection nor a free slot, closes exactly the unfit connections above the first good one of the stack and returns that one, or opens once the stack is exhausted; counters and stack after each outcome |
| `Pool.Pool.OpenReserved` | src/internal/pool.c:103-127 | at most three attempts, ending at the first success; the reserved slot is given back exactly when all fail |
| `Pool.Pool.Release` | src/internal/pool.c:130-161 | pushes the connection in front, or closes it exactly when the idle limit is reached or there is no node; error exactly in the last case; list, counter and closed connections of each outcome |
| `Pool.Pool.Destroy` | src/internal/pool.c:163-178 | closes every idle connection once, in order |
| `PoolSolo.AcquireIsARun` | src/internal/pool.c:31-128 | every outcome that the sequential acquire promises is reached in the transition system by a run in which only the caller moves, with the same stack, counters and borrower |
| `PoolSolo.ReleaseIsARun` | src/internal/pool.c:130-161 | every outcome that the sequential release promises, a push in front of the idle list or a close, is what the two events of a release reach from any state, whatever the other threads are doing and whichever sleeper the signal wakes; the events are deterministic, so it is the only one for that allocation |
| `PoolSolo.ReleasedIsAcquiredNext` | src/internal/pool.c:31-161 | with room in the idle list a released connection that is fit is the one acquired next, nothing is closed or opened, and stack and counter are what they were before the release |
| `PoolSolo.ReleaseThenAcquire` | src/internal/pool.c:31-161 | in the transition system releasing and acquiring again leads back to the same state |
| `Lru.WellFormed` | src/internal/stmt_cache.c:19-149 | after any trace the keys are distinct and at most `capacity` many |
| `Lru.Inclusion` | src/internal/stmt_cache.c:57-111 | on the same trace the keys of a smaller cache are always a prefix of those of a larger one |
| `Lru.HitsIncluded` | src/internal/stmt_cache.c:19-46 | a hit at a capacity is a hit at every larger one |
| `Lru.MissesNeverIncrease` | src/backend/sqlite3.c:55-71 | misses never increase with the capacity |
| `LruTrace.HoldsKept` | src/internal/stmt_cache.c:19-149 | after any trace of uses and drops the keys are exactly those used since their last drop with, at every point since their last use, fewer than `capacity` other live keys more recent; in order of last use |
| `LruTrace.HitsExactly` | src/internal/stmt_cache.c:19-46 | a use hits if and only if its key is one of those |
| `LruTrace.HoldsLatest` | src/internal/stmt_cache.c:57-111 | without drops the keys are the most recently used ones, as many as the capacity allows |
| `LruTrace.HandlesMatch` | src/internal/stmt_cache.c:57-111 | the handle of an entry is one that was prepared for its text |
| `StmtCache.StmtCache.constructor` | src/internal/stmt_cache.c:5-17 | a new cache is an empty well-formed list |
| `StmtCache.StmtCache.Get` | src/internal/stmt_cache.c:19-55 | returns the handle cached for the text and moves it to the front; the list stays well formed |
| `StmtCache.StmtCache.MoveToHead` | src/internal/stmt_cache.c:27-40 | the pointer updates take a node out of its place and put it in front, keeping `prev` and `next` inverse and the ends right |
| `StmtCache.StmtCache.Put` | src/internal/stmt_cache.c:57-111 | moves a present key to the front, and otherwise drops the last entry of a full cache, and only of a full one, passing its handle to the destroy function, and prepends the new one |
| `StmtCache.StmtCache.EvictTail` | src/internal/stmt_cache.c:71-85 | removes exactly the last node and finalises its handle |
| `StmtCache.StmtCache.PushHead` | src/internal/stmt_cache.c:101-106 | links a new node in front |
| `StmtCache.StmtCache.Remove` | src/internal/stmt_cache.c:122-149 | takes out exactly the entry of the key and returns its handle unfinalised |
| `StmtCache.StmtCache.Unlink` | src/internal/stmt_cache.c:131-138 | unlinking keeps the rest in order and well formed |
| `StmtCache.StmtCache.Destroy` | src/internal/stmt_cache.c:151-167 | finalises every cached handle once, in order |
| `SqliteDriver.Ownership` | src/backend/sqlite3.c:55-77 | after any run every statement ever prepared is cached once or finalised once, never both |
| `SqliteDriver.ReturnedIsLive` | src/backend/sqlite3.c:55-71 | the returned handle is the first of the cache and not finalised, even when its insertion evicted another |
| `SqliteDriver.FinalisedExactlyOnce` | src/corm.c:115-126 | after any run and `corm_close` every prepared statement was finalised exactly once, and nothing else was |
| `DriverTrace.DriverIsLru` | src/backend/sqlite3.c:55-134 | in every run the driver caches what the trace of its calls says, a failing call being a use and a drop |
| `DriverTrace.FailedIsNotCached` | src/backend/sqlite3.c:115-134 | a text whose last call failed is not cached |
| `DriverTrace.OtherCall` | src/backend/sqlite3.c:55-77 | a call on another text leaves a cached text cached, unless it prepares a statement while the text is the last entry of a full cache |
| `DriverTrace.DriverHandlesMatch` | src/backend/sqlite3.c:55-71 | after any run every cached handle was prepared for the text it is found under |
| `SqliteDriver.Connection.Get` | src/backend/sqlite3.c:55-71 | looks up, or prepares and caches, as on values |
| `SqliteDriver.Connection.Cleanup` | src/backend/sqlite3.c:73-77 | removes and finalises the cached statement |
| `SqliteDriver.Connection.Execute` | src/backend/sqlite3.c:115-134 | the handle flow of a call: a failing step discards the statement; it succeeds exactly when a statement was obtained and its steps succeed |
| `SqliteDriver.Connection.CloseAll` | src/corm.c:115-126 | destroying the cache finalises what is left |
| `SqlText.PlaceholderStr` | src/dialect.c:7-20 | writes the placeholder, cut to the buffer and terminated |
| `SqlText.PlaceholderFits` | src/dialect.c:7-20 | the placeholder of every 32-bit index that has a successor fits the 16-byte buffers |
| `SqlText.NatOfDecimal` | src/dialect.c:11 | the digits of a number read back as the number |
| `SqlText.ReadRender` | src/dialect.c:7-33 | reading a rendered text gives its characters and the parameter of every hole, in every dialect |
| `Builder.AppendWithPlaceholders` | src/builder.c:16-33 | appends the text with each `?` replaced by the placeholders numbered from the start index, and returns how many |
| `Builder.CountMarks` | src/builder.c:130-136 | counts the `?` of the SET clause |
| `Builder.BuildSelect` | src/builder.c:38-68 | the SELECT text is the rendering of its clauses with holes numbered from 0 |
| `SelectReading.SelectReads` | src/builder.c:38-68 | the SELECT text, split into words and cut at the clause keywords, gives back the columns, the table with its joins, the conditions, groups, HAVING, order, limit and offset, if every clause text stays within its clause |
| `SelectReading.PageExactly` | src/builder.c:60-66 | the page that the statement asks for is the page meant, for all rows, if and only if there is no offset without a limit |
| `SelectReading.OffsetAlone` | src/builder.c:60-66 | limit 0 and offset 1: nothing comes back, where the second row is meant |
| `Builder.BuildInsert` | src/builder.c:69-103 | the INSERT text, with one hole for each column that is not auto-increment, and RETURNING on Postgres |
| `Builder.BuildUpdate` | src/builder.c:104-150 | the UPDATE text, explicit or implicit SET, with the WHERE holes numbered after the SET holes |
| `Identifiers.ImplicitSetReads` | src/builder.c:104-150 | an UPDATE without a SET clause assigns, read back from its text, hole p to the p-th field that is no key, and to nothing else |
| `Builder.BuildDelete` | src/builder.c:151-159 | the DELETE text |
| `Builder.BuildSql` | src/builder.c:35-162 | each of the four statements is the rendering of one dialect-independent skeleton |
| `Dialects.RewriteRoundTrip` | src/builder.c:16-33 | the rewritten text decodes back to its input, its numbers run on from the start, and they are as many as the `?` |
| `Dialects.RewriteIsIdentity` | src/builder.c:16-33 | in the `?` dialects rewriting changes nothing |
| `Dialects.BuiltIsRead` | src/builder.c:35-162 | the database reads the skeleton's pieces with holes 0, 1, ..., where nothing but the `?` of the raw SET and WHERE clauses is a parameter in the dialect |
| `Dialects.DialectsAgree` | src/builder.c:35-162 | all dialects resolve hole by hole to the same parameters, and Postgres and SQLite texts read alike up to RETURNING |
| `Dialects.UpdateSplitsParameters` | src/builder.c:104-150 | an UPDATE reads parameters 0..n-1 in SET and n, n+1, ... in WHERE, on both SET paths |
| `Query.Query.constructor` | src/query.c:33-53 | a new query object has empty clauses |
| `Query.Query.AndWhere` | src/query.c:102-109 | appends a condition with AND |
| `Query.Query.OrElse` | src/query.c:111-118 | appends a condition with OR |
| `Query.Query.IsNull` | src/query.c:120-128 | appends an IS NULL test of a valid identifier |
| `Query.Query.IsNotNull` | src/query.c:130-138 | appends an IS NOT NULL test of a valid identifier |
| `Query.Query.In` | src/query.c:140-160 | appends an IN list whose placeholders bear the numbers of the values bound with them |
| `Query.Query.Between` | src/query.c:162-186 | appends a BETWEEN test with the numbers of its two values |
| `Query.Query.BindParam` | src/query.c:233-248 | appends a parameter |
| `Query.Query.SetColumn` | src/query.c:250-268 | appends an assignment whose placeholder bears the number of its value |
| `Query.Query.SetClause` | src/query.c:270-275 | replaces the SET clause |
| `Query.Query.Find` | src/query.c:306-329 | unscoped, or without a soft-delete field, leaves the conditions as they are; otherwise the WHERE text selects only rows in which the first soft-delete field IS NULL, exactly if every earlier AND-run tests the field itself, and right after another find it selects the same rows; builds the SELECT |
| `Query.Query.AddFilter` | src/query.c:306-314 | the filter of `Find`, from the fields and the calls so far |
| `Query.Query.Count` | src/query.c:841-867 | filters as `Find` does, and builds the same SELECT with COUNT(*); the selected columns are put back |
| `Query.Query.Delete` | src/query.c:442-487 | a DELETE, or with a soft-delete column an UPDATE that sets it after everything else was bound |
| `Alignment.CallKept` | src/query.c:102-275 | every disciplined call keeps the buffers and parameters faithful to what the calls mean |
| `Alignment.RunFaithful` | src/query.c:102-275 | so does every disciplined run of calls |
| `Alignment.IntendedBuilt` | src/builder.c:35-162 | from faithful buffers the builder writes the statement meant with its holes numbered |
| `Alignment.ParametersAligned` | src/query.c:140-268 | after any disciplined run that leaves no hole waiting, the database reads the statement meant, its holes are 0..n-1 with n the number of parameters, and filling them puts every value into the hole meant for it; on Postgres for SELECT, DELETE and an UPDATE without values of `corm_query_set` |
| `HelperMeaning.HelperSays` | src/query.c:120-186 | after any disciplined run that ends in a null test, IN or BETWEEN helper, the WHERE clause that the database sees ends in `field BETWEEN min AND max`, `field IN (v1, v2, ...)` or the null test, with the values of the call in their order |
| `PostgresUpdate.PostgresUpdateReads` | src/builder.c:127-148 | what an UPDATE on Postgres reads: with m values in a raw SET clause and n of `corm_query_set`, SET and helpers their own parameters, raw conditions the parameters from m on instead of m+n |
| `PostgresUpdate.PostgresUpdateExactly` | src/query.c:262-265 | it says what is meant if and only if the r values of raw conditions, parameters m+n, m+n+1, ..., equal parameters m, m+1, ..., so always when there is no `corm_query_set` |
| `SoftDelete.LateSetExactly` | src/query.c:444-451 | a SET value bound after the WHERE values: right on Postgres; in the `?` dialects right if and only if all earlier values equal it |
| `SoftDelete.LateSetMisread` | src/query.c:442-487 | deleting where `id = ?` with 7 from a model with the soft-delete column `a`, on SQLite, does not say what is meant |
| `SqliteParameters.SqliteExactly` | src/backend/sqlite3.c:22-53 | on SQLite, after any disciplined run that leaves no hole waiting, the statement is the one meant if and only if its text has no parameters but single `?` |
| `SqliteParameters.NamedMisread` | src/query.c:102-109 | deleting where `a = :x` and `b = ?` with one value bound does not say what is meant |
| `Conditions.ChainReads` | src/query.c:102-186 | the WHERE text that any calls build, IN and BETWEEN helpers among them, parses to the disjunction of its maximal AND-runs; the AND of a BETWEEN is none of the chain, and raw conditions may have anything inside their parentheses and quotes |
| `Conditions.SelectsByRuns` | src/query.c:102-186 | it selects a row exactly if some AND-run is all true, in three-valued logic |
| `FindFilter.FindHidesDeletedExactly` | src/query.c:306-314 | a find returns only undeleted rows, whatever the other conditions say, if and only if every AND-run before the last tests the soft-delete column itself, in any letter case; conditions of different texts count as independent |
| `FindFilter.FindHidesDeleted` | src/query.c:306-314 | without `or_where` a find returns only undeleted rows |
| `FindFilter.OrWhereShowsDeleted` | src/query.c:111-118 | with it, it may return deleted ones |
| `FindFilter.RepeatedFindSelectsAlike` | src/query.c:306-329 | repeating find or count on one query object never changes the rows selected |
| `FindFilter.NullTestFilters` | src/query.c:120-128 | adding the null test to the conditions of any readable calls selects only rows with the field null exactly if the AND-runs before the last are guarded, and adding it twice selects the same rows |
| `BatchInsert.BatchReads` | src/query.c:610-671 | a batch statement reads as its rows, row r with the parameters r*columns, r*columns+1, ... |
| `BatchInsert.BatchAddsRows` | src/query.c:610-671 | read back as table, column names and groups of holes, it is about the table of the model and adds, in order, for each record the row that maps the name of every field which is not auto-increment to the value of that field |
| `BatchInsert.SingleAddsRow` | src/query.c:364-402 | the INSERT of `corm_create`, read back, adds that row of its record |
| `BatchInsert.EachAddsRows` | src/query.c:541-549 | the INSERTs of single records, hooks aside, add those rows in order |
| `CreateHooks.HookedAddsRows` | src/query.c:364-402 | `corm_create` with its hook, one record at a time, adds the rows, as maps from column to value, of the records it lets through, as it leaves them |
| `CreateHooks.BatchSkipsHookExactly` | src/query.c:587-689 | whatever the table, the batch stores what creating one at a time stores if and only if the hook refuses no record and changes no inserted value |
| `CreateHooks.RefusedIsStored` | src/query.c:365-369 | a record that the hook refuses is stored by the batch |
| `CreateBatch.BuildBatch` | src/query.c:610-671 | builds that text and its parameters |
| `CreateBatch.CreateNext` | src/query.c:606-683 | one statement adds the next records or none |
| `CreateBatch.CreateAll` | src/query.c:587-689 | the table is always what the INSERTs of the first `inserted` records, one at a time and hooks aside, make of it, and gains the rows of exactly these; all of them on success, and exactly b*batch_size when statement b fails; a model whose fields are all auto-increment is refused; the other error cases |
| `KeyedBatch.Prepare` | src/query.c:714-737 | the query object of a record: every column that is not a key, or the soft-delete column, and then the key |
| `KeyedBatch.RunOne` | src/query.c:405-483 | one keyed operation: hook, statement, rows affected |
| `KeyedBatch.RunUntilFailure` | src/query.c:712-748 | the loop is the fold of the keyed operations up to the first failure |
| `KeyedBatch.RunBatch` | src/query.c:691-839 | all or nothing: the table is the left fold of the keyed operations and the count their sum, or on an error the table is what it was when the transaction began, the caller's if one was open; what was done stays only when no transaction began; the error cases |
| `KeyedMeaning.KeyedStatementMeans` | src/query.c:722-737 | the statement meant comes from the model and the record alone: an update assigns every field that is no key its value, once and in field order, a delete sets only the first soft-delete field to `deleted` or deletes, and the key column equals the key; on the `?` dialects, and for DELETE, that is what the database sees |
| `KeyedMeaning.KeyedOnPostgresExactly` | src/query.c:722-737 | on Postgres the key's hole of a keyed UPDATE names the first value assigned, so the database sees the statement meant if and only if the two are equal |
| `KeyedMeaning.KeyedActs` | src/query.c:714-737 | outside that case a keyed operation of a batch does to the table what the statement meant does, or fails when the hook refuses |
| `KeyedMeaning.KeyMisread` | src/query.c:722-737 | `UPDATE t SET a = v WHERE id = key` on Postgres says something else whenever the two values differ |
| `KeyedMeaning.SetMisread` | src/query.c:250-268 | so do the same calls on the query object |
| `Migration.FindColumn` | src/migration.c:138-144 | finds a name among the introspected columns |
| `Migration.AddMissing` | src/migration.c:130-170 | adds the columns not listed, errors ignored, and counts the statements |
| `Migration.MigrateOne` | src/migration.c:116-172 | one model: its table, then its columns |
| `Migration.AutoMigrate` | src/migration.c:110-194 | up to the first CREATE TABLE that fails the schema is the migrated one, whatever the introspections say |
| `Migration.PathsAgree` | src/migration.c:136-147 | the introspecting and the blind path end in the same columns |
| `Migration.MigrationConverges` | src/migration.c:110-194 | no table or column is lost, columns keep their order, every model has its table and every non-key field its column |
| `Migration.CreatedHasAllFields` | src/migration.c:19-172 | a table that the migration creates has every field of its first model as a column, the keys too, first and in field order |
| `Migration.MigrationDistinct` | src/migration.c:110-194 | no table ever gets the same column twice |
| `Migration.SecondRunChangesNothing` | src/migration.c:110-194 | a second migration changes nothing |
| `Migration.SecondRunIssues` | src/migration.c:136-147 | with introspection a second run issues no ADD COLUMN if and only if every non-key name is one of the columns that its table starts with (those it had, or those of the first model that creates it), or no other spelling of it is one and none comes before it in the models |
| `Migration.SecondRunIssuesNothing` | src/migration.c:136-147 | so none on a database that tells all names apart |
| `Migration.SpelledOtherwise` | src/migration.c:140 | a column spelled otherwise is tried again on every run |
| `Migration.DeclareKeys` | src/migration.c:19-101 | the primary keys that CREATE TABLE declares |
| `Migration.KeyDeclaredExactly` | src/migration.c:37-101 | they are exactly the model's key if and only if every column whose auto-increment clause is a key by itself is the model's only key |
| `Migration.KeyDeclaredTwice` | src/migration.c:37-101 | an auto-increment column in a composite key, on SQLite: not the model's key |
| `StrBuf.Buffer.Grow` | src/internal/strbuf.h:30-42 | in 64-bit arithmetic: ends, keeps the contents, and leaves the first sufficient doubling as capacity |
| `StrBuf.Buffer.AppendString` | src/internal/strbuf.h:44-53 | appends a C string, NUL at the end |
| `StrBuf.Buffer.AppendN` | src/internal/strbuf.h:55-64 | appends n characters, NUL at the end |
| `StrBuf.Buffer.Clean` | src/internal/strbuf.h:86-90 | empties the buffer and keeps its capacity |
| `StrBuf.Buffer.Cstr` | src/internal/strbuf.h:99-101 | a reader of the C string gets the contents up to their first NUL |
| `StrBuf.ContentsSinceClear` | src/internal/strbuf.h:44-90 | after any run the contents are what was appended since the last clear |
| `StrBuf.PeakIsMaximum` | src/internal/strbuf.h:44-90 | the peak is the greatest length reached in a run |
| `StrBuf.CapacityFromPeak` | src/internal/strbuf.h:30-42 | the capacity depends only on the greatest length reached |
| `StrBuf.GrowthIsAmortised` | src/internal/strbuf.h:30-42 | it is the smallest 64 times a power of two above that length, below max(65, 2*(peak+1)), and all reallocations together moved fewer bytes |
| `StrBuf.DoublingEndsExactly` | src/internal/strbuf.h:33-35 | with wrap-around the doubling loop ends if and only if no more than 2^63 bytes are needed |
| `HashTable.HashString` | src/internal/hash.h:40-45 | the loop over the bytes, with 64-bit wrap-around, computes their polynomial in 33 modulo 2^64, and its bucket |
| `HashTable.Table.constructor` | src/internal/hash.h:28-38 | empty buckets, 32 when no size is given |
| `HashTable.Table.Put` | src/internal/hash.h:47-64 | puts the entry in front of its chain |
| `HashTable.Table.Find` | src/internal/hash.h:66-75 | returns the first entry of the key |
| `HashTable.Table.Drop` | src/internal/hash.h:77-91 | takes out the first entry of the key and nothing else |
| `HashTable.Bypass` | src/internal/hash.h:80-88 | unlinking a node leaves the others linked in order |
| `HashTable.WithoutValues` | src/internal/hash.h:77-91 | removing uncovers the next value of the key and disturbs no other key |
| `HashTable.ChainsAreStacks` | src/internal/hash.h:47-91 | for any hash function and bucket count the chain of a key holds the inserts that no remove has undone, latest first |
| `HashTable.FindsLatest` | src/internal/hash.h:66-75 | find returns the latest of them |
| `HashTable.SameForAnyHash` | src/internal/hash.h:40-91 | hash function and bucket count cannot be observed |
| `HashTable.TotalIsLive` | src/internal/hash.h:47-91 | the count is the total length of the chains and the number of inserts not undone |
| `Registry.Validate` | src/model.c:25-46 | which error for which model, decided by the first flawed field |
| `Registry.JudgedOnce` | src/model.c:25-46 | this verdict is unique |
| `Registry.SoundIsDistinct` | src/model.c:33-44 | accepted field names are valid and all different |
| `Registry.Models.Register` | src/model.c:48-56 | registers exactly the acceptable models and passes on the exact verdict |
| `Registry.Models.FindModel` | src/model.c:58-61 | the newest acceptable model registered under the name, or nothing if there is none |
| `Registry.ResolvesToNewest` | src/model.c:48-61 | the same for any hash function and bucket count |

## Left out

- The MySQL and Postgres drivers, and the rows that a query returns: calls into foreign libraries.
- Multi-threaded use of one SQLite connection: two threads that miss on the same text both prepare it, and the
  second handle is not cached; the pool gives a connection to one thread at a time.
- Real time, the jittered sleep between two attempts to open, pthread internals, the logger and error texts. The
  expiry of a wait is an event that may happen at any time.
- Allocation failure, except for the pool's list node.
- 32-bit overflow of counters and of `i + batch_size`; byte-level access to records; floating-point values.
- String literals and comments inside raw clauses: every `?`, on Postgres every `$n` and on SQLite every named
  parameter of a raw clause is read as one. The alignment theorems ask that no digit follows a `?`, and that there
  is no `$` on Postgres and no `:`, `@`, `#` or `$` on SQLite; `SqliteParameters.SqliteExactly` covers all of these
  on SQLite. The suffixes that SQLite allows after `$x` (`::` and parentheses) are not modelled.
- Raw conditions in `Conditions` with an AND that is not of a BETWEEN, an OR, XOR or CASE outside parentheses and
  quotes, with a keyword that ends a search condition there (UNION, ORDER and the like), with unbalanced
  parentheses or quotes, or with comments, escapes, `&&`, `||`, brackets, `#`, `$`, semicolons or white space other
  than spaces; and fields of helpers that are such keywords.
- Inserts of models in which two fields have one name, which registration refuses.
- SELECT texts in `SelectReading` whose clauses have a clause keyword, unbalanced parentheses or quotes, or white
  space other than spaces outside parentheses and quotes; a negative limit with an offset, which only SQLite takes.
- UPDATE of a model whose columns are all keys: the builder then writes an empty SET clause.
- `preload`, joins that carry values, savepoints, isolation levels, `corm_transaction`, result accessors, DSN
  parsing and `corm_find_all`: they would add only easy members.
- Hooks that run after a statement, and hooks that use or change anything but the record.
- COMMIT and ROLLBACK are taken to succeed; BEGIN may fail.
- Column types and constraints of CREATE TABLE and ADD COLUMN, indexes, and an ADD COLUMN refused for another
  reason than that the column exists; tables are told apart by their exact names.
- The builder and the query object keep their text buffers as strings; the buffer itself is module `StrBuf`.
- `models_by_name` of the registry, which nothing reads, and freeing the hash table.
- `StrBuf.Buffer.Grow`: asks for no more than 2^63 bytes, because beyond that the loop does not end.
- `Pool.Pool.Acquire`: is about one thread; other threads are in `PoolProtocol`.
