# QueryWise: caches, coalescing, schema refresh and text codecs

QueryWise turns questions in natural language into SQL for databases it has introspected. This
project models the parts of it whose correctness is not obvious from one function: the caches and
the concurrent request handling, the bookkeeping of a schema refresh, the codecs between text and
values, and the accounting of background work. Every constant of the original (times to live,
capacities, intervals, overlaps, row limits) is a parameter here; what a property needs of one is
said in its `requires`.

How the original is represented:

- **Concurrency.** Code that runs on one event loop switches only at an `await`. A request is a task
  with a phase, a step is the code between two awaits, and a run is any sequence of steps of any
  number of tasks. `ContextCache`, `Coalescing`, `EmbeddingLru` and `ConnectorInterleaving` are such
  machines, and their theorems hold of every run. Failures are steps too: a lost Redis command, a
  provider that gives up, a probe that raises.
- **State.** Dictionaries and tables that the original updates in place are fields of classes
  (`ContextBuilder`, `QueryCache`, `SchemaCache`, `Linker`, `EmbeddingCache`, `Connectors`, `Tracker`,
  `Generator`). Each method is proved to have exactly the effect that a function gives, and the
  theorems are about those functions.
- **Text.** Strings are sequences of characters. Each regular expression is written out as a scanner
  for its one pattern, including word boundaries and greedy digits; loops over characters are loops.
- **The database** is a set of tables with a counter for ids; `ON DELETE CASCADE` is spelled out.

| file | what it models |
|---|---|
| `ContextCache`, `ContextUse`, `ContextVectors`, `ContextHits` | single-flight context cache: double-checked locks, nested embedding lock, eviction and use, the vector a context is built with, who is served from the cache |
| `QueryKeys`, `Coalescing`, `CoalescingReplies`, `CoalescingAlone` | Redis keys; leader and followers of one question, cached SQL; which reply a request gets; whole calls that nothing interrupts |
| `SchemaStore`, `SchemaService`, `SchemaFilters`, `SchemaIntegrity`, `SchemaKept`, `SchemaResolve`, `SchemaRows`, `SchemaCatalog`, `SchemaFixpoint` | `introspect_and_cache` |
| `ColumnCache`, `ColumnFreshness` | the column cache that nothing invalidates |
| `PyText`, `JsonText`, `JsonRepair`, `JsonExtraction`, `JsonWords`, `JsonCommas`, `JsonRewrites`, `JsonRepairLaws`, `JsonRepairExact`, `JsonUnambiguous`, `JsonFallback` | `repair_json`, and the values of strict JSON |
| `JsText`, `Csv`, `CsvPadding` | both CSV printers and the CSV parser |
| `Recency`, `EmbeddingLru`, `EmbeddingValues` | least-recently-used order; the two-tier embedding cache |
| `ConnectorRegistry`, `ConnectorOutcome`, `ConnectorInterleaving`, `ConnectorAlone`, `ConnectorAccounts` | the connector cache, with atomic and with overlapping calls |
| `EmbeddingProgress`, `EmbeddingJob`, `EmbeddingRows` | background embedding generation and its progress tracker |
| `Chunker`, `Headings`, `HeadingPaths` | document chunks and heading paths |
| `RowCap`, `RowTexts`, `RowPage` | row limits written into SQL statements; the page made of the rows that come back |
| `Options`, `Decimal`, `ColonKeys`, `CharClasses`, `LetterCase`, `Sequences` | shared vocabulary |

Several promises turn out not to hold as they are meant. In each case the model keeps what the code does, a
lemma gives the input or the run that shows it, and another says exactly when the promise is kept:

- `utils.py:72` says that Python words are replaced only outside quoted strings. They are replaced
  inside strings too, and so are commas before a closing bracket (`QuotedWordIsRewritten`). The value is
  recovered exactly when no string holds either (`RepairRecovers`), and valid JSON is left alone under
  exactly that condition (`ValidUnchanged`).
- A bare JSON string that spells a document is cut down to it (`BareStringIsCut`); a bare string is left whole
  exactly when it holds no pair of fences and no bracket that the scan sees closed (`BareStringKeptExactly`).
- When calls overlap, the connector cache keeps neither its bound nor its two key sets nor its instances, as it
  does when they do not (`RegistryHolds`).
  - The bound: all of any number of distinct ids can be cached at once (`BoundNotKept`). Entries and calls on
    the way to one stay within the maximum exactly in the runs in which no step passes the capacity check
    into room that the calls past it will need, or evicts an id without an entry (`BoundedExactly`), and
    exceed it by no more than the number of such steps (`BoundedBySlips`).
  - The instances: one can be connected, overwritten and never told to disconnect (`InstanceLost`). None is
    ever lost exactly in the runs in which no entry whose instance was not told is stored over, or deleted
    after a wait in which it was replaced (`NothingLostExactly`, step by step `StepLosesExactly`).
  - The keys: a timestamp can be left without an entry (`TimestampWithoutEntry`), and from then on a single
    call that overlaps nothing takes a full cache above its bound (`OrphanBreaksBound`, a whole run in
    `OrphanOverflows`). The keys agree all along exactly in the runs in which no live probe answers for an id that is no longer cached
    (`SameKeysExactly`).
- Columns without an embedding in a table that has one are counted but never embedded, so a run that
  did nothing wrong stays at "running" for ever (`CompletedExactlyWhenNothingStranded`,
  `RerunNeverCompletes`).
- The section path of a heading is its chain of ancestors exactly when each heading that closes another
  finds all smaller levels open (`RightExactlyWhenNesting`, `SkippedLevelNestsWrongly`).
- The SQL Server cap takes hold exactly of statements that are `Cappable`: text such as `LIMIT ` anywhere,
  or a word character glued to the leading keyword, lets a statement through uncapped (`TopIsCappedExactly`;
  `QuotedLimitIsUncapped` has the word in a string literal). The page shown is right all the same, but the
  fetch behind it is bounded exactly for cappable statements (`SqlServerPageExact`, `SqlServerFetchBounded`).
- The comment at `context_builder.py:333` calls the eviction least-recently-used; what is evicted is the
  entry whose build took its timestamp earliest (`EvictionTakesOldest`), which can be the one stored last and
  read last (`MostRecentlyUsedEvicted`). Timestamps order the entries by use all along exactly in the runs in
  which every hit and every store is of the entry with the greatest timestamp (`StampsTellUseExactly`), and
  then the evicted entry is the least recently used (`ContextUse.EvictsLeastRecentlyUsed`).
- The embedding cache is in order of last use when calls do not overlap (`SequentialIsLru`). When they do, a
  key stored a second time keeps its place (`OverlapKeepsOldPlace`): the order is by last hit or first store
  (`OrderIsByLastTouch`), and by last use all along exactly in the runs in which a key stored again is always
  the one used last (`OrderIsByUseExactly`).
- Keys joined with colons can meet for two roles. For two different role texts some resource and employee
  ids give equal keys of all three families exactly when one role is the other, a colon and a resource text,
  and then nothing or a colon and anything (`RolesCollideExactly`; `ColonInRoleCollides` is such a pair). For equal
  roles the keys agree exactly when the audiences do (`EqualRolesTellApart`). A missing role or employee is
  never told from an empty one or from the text "none" (`OrNoneMerges`).

## Model

| member | source | states |
|---|---|---|
| ContextCache.ContextKeyInjective | backend/app/semantic/context_builder.py:109 | requests share a cache key exactly when connection, dialect and normalised question agree |
| ContextCache.SingleFlight | backend/app/semantic/context_builder.py:118-148 | in every interleaving no two requests are inside the build of one key, nor inside the embedding call of one question |
| ContextCache.BuildsNeverOverlap | backend/app/semantic/context_builder.py:130-148 | at every moment of every run the builds of a key started and not ended are none or one |
| ContextCache.RebuildOnlyWhenStale | backend/app/semantic/context_builder.py:138-148 | after a stored build the next one of that key starts only after an eviction or once the TTL has passed since the stored timestamp |
| ContextCache.CacheBounded | backend/app/semantic/context_builder.py:333-349 | in every reachable state the cache holds at most the maximum |
| ContextCache.EvictionTakesOldest | backend/app/semantic/context_builder.py:333-336 | an entry leaves only a full cache, and none has a smaller timestamp |
| ContextCache.ReturnedContextIsOwn | backend/app/semantic/context_builder.py:107-148 | a returned context answers the requester's own key; the log shows that very context stored under that key, with the stamp that was fresh when read, or by that request (which vector it holds: `ContextVectors`) |
| ContextVectors.BuiltWithOwnVector | backend/app/semantic/context_builder.py:158-346 | in every run a context just built holds the very vector answered to its own embedding call, or the one found fresh when it last looked; it holds none exactly when that call was made and gave none |
| ContextVectors.CachedWithBuildersVector | backend/app/semantic/context_builder.py:107-349 | a context from the cache holds the vector its builder was told, under the time at which the builder last looked |
| ContextVectors.EmbeddingsAreLastAnswers | backend/app/semantic/context_builder.py:163-189 | the embedding cache holds the last answer for each question, stamped when its request had looked, and the provider is asked only after nothing younger than the embedding TTL was found |
| ContextHits.ServedExactlyFromLog | backend/app/semantic/context_builder.py:107-148 | in every reachable state a request that checks returns at once exactly when the last store of its key was not evicted and is younger than the TTL, with that context, and otherwise waits for its lock or starts a logged build |
| ContextHits.LocksRegistered | backend/app/semantic/context_builder.py:122-123 | a step registers the lock its request is about to wait for, and no other |
| ContextHits.FailsWhileWaiting | backend/app/semantic/context_builder.py:138-203 | a request can fail exactly while it waits for the context lock or holds it |
| ContextUse.StampsTellUseExactly | backend/app/semantic/context_builder.py:107-349 | timestamps order the entries by last use at every moment of a run exactly when each hit and store is of the entry with the greatest one |
| ContextUse.EvictsLeastRecentlyUsed | backend/app/semantic/context_builder.py:333-336 | in such runs an eviction takes the least recently used entry |
| ContextUse.MostRecentlyUsedEvicted | backend/app/semantic/context_builder.py:160-349 | a run in which the entry stored last and read last is the only one the code may evict |
| ContextCache.FailureReleases | backend/app/semantic/context_builder.py:138-203 | a failed build stores nothing and holds no lock afterwards |
| ContextCache.NoDeadlock | backend/app/semantic/context_builder.py:138-203 | while a request is unfinished some request can take a step that is not a failure, although the locks nest |
| ContextCache.RunsEnd | backend/app/semantic/context_builder.py:86-203 | a run takes at most five steps for each request |
| ContextCache.StepPreserves | backend/app/semantic/context_builder.py:86-350 | every step keeps the invariant tying tasks, locks, caches and the log of builds together |
| ContextCache.ContextBuilder.CheckCache | backend/app/semantic/context_builder.py:107-123 | the first check returns a fresh entry, otherwise registers a lock |
| ContextCache.ContextBuilder.EnterContextLock | backend/app/semantic/context_builder.py:138-175 | the second check under the lock, and the embedding lookup |
| ContextCache.ContextBuilder.EnterEmbeddingLock | backend/app/semantic/context_builder.py:176-185 | the embedding check under its lock |
| ContextCache.ContextBuilder.FinishEmbedding | backend/app/semantic/context_builder.py:184-203 | a vector is stored with the time before the call; either way the lock is freed |
| ContextCache.ContextBuilder.OldestKey | backend/app/semantic/context_builder.py:335 | the minimum over timestamps |
| ContextCache.ContextBuilder.StoreContext | backend/app/semantic/context_builder.py:333-350 | eviction when full, then the entry with its timestamp |
| ContextCache.ContextBuilder.Unwind | backend/app/semantic/context_builder.py:138-203 | leaving both lock blocks on an exception |
| QueryKeys.KeysInjective | backend/app/core/query_cache.py:27-52 | two identities meet on a lock, result or SQL key exactly when they ask one hashed question for one audience, if connection, hash and role have no colon |
| QueryKeys.AudienceIsIdentity | backend/app/core/query_cache.py:35-37 | the audience is the identity when role and employee are not empty and not "none" |
| QueryKeys.OrNoneMerges | backend/app/core/query_cache.py:49-51 | what the fallback text "none" cannot tell apart, exactly |
| QueryKeys.EqualRolesTellApart | backend/app/core/query_cache.py:27-52 | with equal roles, and no colon in connection or hash, keys of any family agree exactly when the audiences do |
| QueryKeys.KeysMeetOnTails | backend/app/core/query_cache.py:27-52 | with no colon in connection or hash, the keys of all three families agree exactly when those agree and the texts from the role on are the same, whatever the roles |
| QueryKeys.RolesCollideExactly | backend/app/core/query_cache.py:41-52 | for different role texts some ids make all keys meet exactly when one role runs on from the other through a colon and a resource text |
| QueryKeys.ColonInRoleCollides | backend/app/core/query_cache.py:41-52 | a pair of audiences whose roles do so and whose keys of all three families meet |
| QueryKeys.FamiliesDisjoint | backend/app/core/query_cache.py:38-52 | SQL, lock and result keys never coincide |
| QueryKeys.KeysSpelled | backend/app/core/query_cache.py:18-52 | the three keys of one identity with a negative resource id and no employee, letter by letter |
| Coalescing.FollowerProvenance | backend/app/core/query_cache.py:122-190 | what a follower returns was published by a lock holder of the same audience, less than the timeout before it was read |
| Coalescing.AcquisitionsSpaced | backend/app/core/query_cache.py:135-144 | two acquisitions of one lock are at least the timeout apart |
| Coalescing.LeaderPublishesItsReply | backend/app/services/query_service.py:163-217 | a leader that returns or reports an error has tried to publish exactly that; a timed-out follower publishes nothing (which reply it is: `CoalescingReplies`) |
| CoalescingReplies.RepliesAreRight | backend/app/services/query_service.py:326-457 | in every run a request's own result is, from its final state, a clarification for that action, the answer with that state otherwise, and an error exactly when the action is another, the error is not empty and there is no result; without a final state it is the cached statement that ran with what the database gave |
| CoalescingReplies.LostCommands | backend/app/core/query_cache.py:76-164 | a command lost on the way to Redis changes nothing there, one whose answer is lost does what an answered one does, and the request goes on alike, but leads without a key when it asked for the lock |
| CoalescingReplies.LostReads | backend/app/core/query_cache.py:55-190 | a read that fails counts as nothing found: a follower stops waiting at once, and SQL is generated |
| CoalescingAlone.LeaderIsServed | backend/app/services/query_service.py:163-457 | a call that finds the lock free and that nothing interrupts is answered by the cached statement if it runs, otherwise by the pipeline after dropping it, and leaves exactly the keys of that in Redis |
| CoalescingAlone.LostRedisIsServed | backend/app/core/query_cache.py:148-150 | without Redis it is answered the same way and publishes nothing |
| CoalescingAlone.FollowerIsShown | backend/app/services/query_service.py:168-174 | a call that finds the lock taken and a live result returns that result and writes nothing |
| CoalescingAlone.NextCallSharesReply | backend/app/services/query_service.py:163-174 | so a second call for the audience within the coalesce timeout gets the first one's reply |
| CoalescingAlone.FollowerServesItself | backend/app/services/query_service.py:168-217 | a follower that is shown nothing polls the most it may, then serves itself and publishes nothing |
| Coalescing.ErrorReportsSplit | backend/app/services/query_service.py:413-416 | an error report is returned only by followers, and its leader raised it |
| Coalescing.SqlCacheSound | backend/app/services/query_service.py:326-356 | cached SQL, stored or being run again, came from a run of the same audience with action query or none, SQL, no error, no retry and rows |
| Coalescing.SqlKeysHoldSql | backend/app/core/query_cache.py:27-52 | a SQL key never holds a lock or a result |
| Coalescing.FailedSqlIsDropped | backend/app/services/query_service.py:203-217 | a cached statement that failed is deleted before anything is generated |
| Coalescing.PollsBounded | backend/app/core/query_cache.py:178-187 | a follower polls at most ceil(max_wait / poll_interval) times, and gives up exactly then |
| Coalescing.EveryRequestEnds | backend/app/services/query_service.py:139-457 | in every run, whatever else arrives, each request takes at most ten steps beside its polls, and until it is finished it always has a step to take, also when leaders never publish |
| Coalescing.WaitForCoalesceResult | backend/app/core/query_cache.py:167-190 | the poll loop returns the first result it is shown, within the bound |
| Coalescing.QueryCache.TryCoalesceLeader | backend/app/core/query_cache.py:122-150 | NX acquisition, and leadership without a key when Redis fails |
| Coalescing.QueryCache.PublishCoalesceResult | backend/app/core/query_cache.py:153-164 | the result with its expiry |
| Coalescing.QueryCache.GetCachedSql | backend/app/core/query_cache.py:55-73 | a live SQL entry, nothing on failure |
| Coalescing.QueryCache.SetCachedSql | backend/app/core/query_cache.py:93-119 | the SQL entry with its expiry |
| Coalescing.QueryCache.DeleteCachedSql | backend/app/core/query_cache.py:76-90 | exactly the one key is removed |
| SchemaStore.KeptExact | backend/app/services/schema_service.py:25-62 | the filters keep exactly the tables that pass every rule, in order |
| SchemaFilters.KeptIsWanted | backend/app/services/schema_service.py:20-62 | letter by letter: a listed SQL Server table is kept, in order, exactly when its schema is dbo up to case, no slice of its name is backup or bakup up to case, and the whitelist is empty or has an entry that is schema, dot and name up to case; every other table is kept |
| SchemaIntegrity.WipeConsistent | backend/app/db/models/schema_cache.py:60-62 | deleting a connection's tables with cascade leaves no dangling reference |
| SchemaIntegrity.RestoreRelationsExact | backend/app/services/schema_service.py:235-261 | restoring re-creates, in order, exactly the manual relationships whose two names resolve |
| SchemaIntegrity.ColumnMapExact | backend/app/services/schema_service.py:266-274 | the map sends a pair of names to a column exactly when some rebuilt table of that name has it |
| SchemaIntegrity.RestoreEntriesExact | backend/app/services/schema_service.py:276-289 | restoring re-creates, in order, exactly the dictionary entries whose pair is in the map |
| SchemaIntegrity.IntrospectionConserves | backend/app/services/schema_service.py:65-297 | manual relationships and dictionary entries survive, by name, exactly when the target still lists what they name, and every reference left is live, even when the two passes see different databases |
| SchemaIntegrity.DictionaryConserved | backend/app/services/schema_service.py:116-135 | the multiset of entries by table and column is the old one restricted to listed pairs |
| SchemaKept.RelationsAreRows | backend/app/services/schema_service.py:91-114 | the snapshot lists the connection's manual rows, each with its own fields and the names of its two tables |
| SchemaKept.EntriesAreRows | backend/app/services/schema_service.py:116-135 | and its dictionary rows with the names of their column and table |
| SchemaKept.ManualRowsKept | backend/app/services/schema_service.py:91-261 | afterwards the manual rows are, in order, those before whose two tables are listed again, every field as it was |
| SchemaKept.EntryRowsKept | backend/app/services/schema_service.py:116-289 | and the dictionary rows, by sort order, those before whose column is listed again, every field as it was |
| SchemaResolve.TableMapIs | backend/app/services/schema_service.py:155-179 | the table map has one entry for each listed schema and name, in the order first listed, pointing to the table listed last |
| SchemaResolve.RelationsLead | backend/app/services/schema_service.py:235-261 | a restored relationship stands between the tables of the preferred schema, or else those first listed, of its names |
| SchemaResolve.EntriesLead | backend/app/services/schema_service.py:266-289 | a restored entry hangs on that column of the last schema's table that has it |
| SchemaRows.IntrospectionRows | backend/app/services/schema_service.py:141-297 | rows of other connections are untouched, and the counts returned are the rows made, manual relationships excluded |
| SchemaCatalog.AddTablesCatalog | backend/app/services/schema_service.py:158-196 | each listed table is stored with its own columns, in order, and no stored table changes |
| SchemaCatalog.LinkTablesLinks | backend/app/services/schema_service.py:198-226 | the foreign keys added are, by name, those between tables the first pass listed |
| SchemaCatalog.CatalogIsListing | backend/app/services/schema_service.py:65-297 | afterwards the connection's tables and columns are exactly the first pass's listing, and its foreign keys exactly the second pass's between listed tables |
| SchemaFixpoint.SecondRunRenames | backend/app/services/schema_service.py:65-297 | a second run on an unchanged target gives the same store with the new ids moved by one constant |
| SchemaService.SchemaCache.SnapshotRelations | backend/app/services/schema_service.py:91-114 | manual relationships by table names |
| SchemaService.SchemaCache.SnapshotEntries | backend/app/services/schema_service.py:116-135 | dictionary entries by table and column name, by sort order |
| SchemaService.SchemaCache.DeleteTables | backend/app/services/schema_service.py:141-142 | the cascading delete |
| SchemaService.SchemaCache.CacheTables | backend/app/services/schema_service.py:151-196 | the first pass, with its map and counts |
| SchemaService.SchemaCache.LinkAll | backend/app/services/schema_service.py:198-226 | the foreign keys of the second pass between mapped tables |
| SchemaService.SchemaCache.RestoreManual | backend/app/services/schema_service.py:235-261 | the restoring loop over relationships |
| SchemaService.SchemaCache.BuildColumnMap | backend/app/services/schema_service.py:266-274 | the map of column names |
| SchemaService.SchemaCache.RestoreDictionary | backend/app/services/schema_service.py:276-289 | the restoring loop over entries |
| SchemaService.SchemaCache.IntrospectAndCache | backend/app/services/schema_service.py:65-297 | the whole function in place, equal to the specified store and counts |
| ColumnCache.BatchIsPerTable | backend/app/semantic/schema_linker.py:63-76 | one ordered batch query, grouped, gives each table its own columns in order |
| ColumnCache.Linker.SplitCached | backend/app/semantic/schema_linker.py:56-61 | fresh entries answered, the others listed |
| ColumnCache.Linker.Fetch | backend/app/semantic/schema_linker.py:63-76 | the batch fills result and cache for exactly the listed tables |
| ColumnCache.Linker.GroupByTable | backend/app/semantic/schema_linker.py:69-71 | grouping keeps each table's rows in order |
| ColumnCache.Linker.GetColumnsForTables | backend/app/semantic/schema_linker.py:32-78 | every id asked for is answered, from the cache or with its stored columns |
| ColumnCache.IntrospectionKeepsLive | backend/app/services/schema_service.py:141-196 | re-introspection never changes the columns of a table whose id was already given out |
| ColumnCache.LookupsStayCorrect | backend/app/semantic/schema_linker.py:32-78 | across all runs of introspections, lookups and clock steps a live table is answered with exactly its stored columns |
| ColumnCache.StoredColumnsOrdered | backend/app/semantic/schema_linker.py:64-68 | those are in ordinal order, none lost or doubled |
| ColumnFreshness.AnswersAreYoung | backend/app/semantic/schema_linker.py:49-78 | after any run, for tables that live or are gone, the answer is what was read last when that is younger than the TTL and not cleared since, and the present columns otherwise |
| ColumnCache.UnmintedIdPoisons | backend/app/semantic/schema_linker.py:73-76 | a lookup of an id not yet given out would be cached as empty, and answered so after that id went to a table with columns; with random UUIDs nobody can ask for such an id |
| JsonRepair.FindEnd | backend/app/llm/utils.py:44-67 | the scanner loop finds the position at which its one bracket kind balances |
| JsonRepair.ExtractBracketed | backend/app/llm/utils.py:33-70 | the text from the first bracket to there, or everything |
| JsonRepair.Repair | backend/app/llm/utils.py:7-91 | the whole function, statement by statement (what comes out: `JsonRepairExact` for documents, `JsonFallback` for everything) |
| JsonExtraction.ScanDoc | backend/app/llm/utils.py:44-67 | inside its bracket the scan passes over every document, of either bracket kind and with any string, and comes back to the same depth |
| JsonExtraction.ExtractionExact | backend/app/llm/utils.py:20-70 | for every object or array in every layout, loose or strict, every preamble without an opening bracket and every trailer, also with a fence that is never closed, exactly the document's text is extracted |
| JsonExtraction.FenceNeedsPair | backend/app/llm/utils.py:22-26 | fenced content is found exactly when a fence stands behind another |
| JsonExtraction.FencedExtraction | backend/app/llm/utils.py:22-26 | a document in a markdown fence, tagged json or not, is extracted exactly |
| JsonExtraction.BareStringKeptExactly | backend/app/llm/utils.py:20-70 | a bare string is left whole exactly when no fences and no closed bracket are found in it |
| JsonExtraction.BareStringIsCut | backend/app/llm/utils.py:33-70 | a valid JSON string that spells a document is cut down to that document |
| JsonExtraction.BareBrackets | backend/app/llm/utils.py:33-70 | the text "[]", quotes included, is one such string |
| JsonWords.FixWordsSeam | backend/app/llm/utils.py:74-76 | the word rewrite works piece by piece where no word runs across the joint |
| JsonWords.FixWordsIdentity | backend/app/llm/utils.py:74-76 | it leaves a text alone exactly when none of the three words stands in it |
| JsonCommas.DropSeam | backend/app/llm/utils.py:79 | the comma rewrite works piece by piece where no trailing comma runs across the joint |
| JsonCommas.FixTextIdentity | backend/app/llm/utils.py:72-79 | both rewrites together never lengthen a text and leave it alone exactly when it has no such word and no comma before a closer |
| JsonRewrites.FixWordsExactly | backend/app/llm/utils.py:74-76 | in any text, each character inside True, False or None standing alone becomes that of true, false or null, and every other one stays; what stands alone is told by the neighbouring letters, digits and underscores |
| JsonRewrites.DropExactly | backend/app/llm/utils.py:79 | from any text, what goes is each comma that only white space parts from a closing bracket, with that white space, and nothing else |
| CharClasses.PythonSpaces | backend/app/llm/utils.py:20-26 | the characters that strip and \s take for white space, each of them and no other |
| JsonRepairLaws.DocFixed | backend/app/llm/utils.py:72-79 | the rewrites turn the text of any loose document into the strict text of the same document, its strings rewritten separately |
| JsonRepairExact.RawFixed | backend/app/llm/utils.py:72-79 | they never break a string literal or an escape |
| JsonRepairExact.RepairRecovers | backend/app/llm/utils.py:7-91 | the result of repair_json on a loose document is strict JSON, and denotes the value written exactly when its strings are clean |
| JsonRepairExact.FencedRepairRecovers | backend/app/llm/utils.py:7-91 | the same inside a fence |
| JsonRepairExact.ValidUnchanged | backend/app/llm/utils.py:72-79 | valid JSON passes the rewrites unchanged exactly when its strings are clean |
| JsonRepairExact.RepairIsIdentity | backend/app/llm/utils.py:7-91 | repair_json returns a bare valid object or array as it is exactly when its strings are clean |
| JsonRepairExact.QuotedWordIsRewritten | backend/app/llm/utils.py:72-76 | valid JSON whose one string is True, False or None is changed |
| JsonUnambiguous.TextTellsValue | backend/app/llm/utils.py:82-91 | a strict JSON text denotes one value, however its layout is cut |
| JsonUnambiguous.LoadParses | backend/app/llm/utils.py:82-91 | so a parser exists that is right on every strict text and accepts nothing else |
| JsonFallback.RepairAlwaysStrict | backend/app/llm/utils.py:82-91 | with that parser every text at all is answered with strict JSON: what extraction and rewrites leave when that is strict, and otherwise the object without members |
| JsonFallback.ProseGivesEmptyObject | backend/app/llm/utils.py:82-91 | every text of letters and spaces gives the empty object, unless it is one of the six literal words |
| Csv.ParseLine | frontend/src/components/common/CsvImportModal.tsx:43-66 | the character loop on one line (what it makes of cells: `Csv.RowParses`, `CsvPadding`) |
| Csv.ParseCsv | frontend/src/components/common/CsvImportModal.tsx:41-66 | trim, split into lines, parse each (what comes of printed tables: `Csv.RoundTrip`) |
| Csv.RowParses | frontend/src/pages/QueryPage.tsx:133-136 | a printed row, quoted by either printer, parses to its cells |
| CsvPadding.TightCellsSurvivePadding | frontend/src/components/common/CsvImportModal.tsx:43-64 | a row of tight cells, quoted by either printer, with any white space around each, parses to exactly the cells |
| CsvPadding.BareCellKeepsCore | frontend/src/components/common/CsvImportModal.tsx:56-63 | an unquoted cell keeps the slice from its first to its last non-space character |
| CharClasses.ScriptSpaces | frontend/src/components/common/CsvImportModal.tsx:42-63 | the characters that trim takes away, each of them and no other |
| Csv.ParseOk | frontend/src/components/common/CsvImportModal.tsx:41-66 | every text parses to rows of at least one trimmed cell without line feeds |
| Csv.RoundTrip | frontend/src/pages/QueryPage.tsx:133-137 | for both printers, importing an export gives back header and rows exactly for the tables described by Faithful, rectangular or not |
| Csv.TwoColumns | angular-test/src/app/chat/chat.component.ts:276-287 | with two columns or more both printers round-trip the same tables |
| Recency.ByLastUseAscends | backend/app/services/embedding_service.py:79-82 | the recency order is the order of last uses |
| Recency.AmongLast | backend/app/services/embedding_service.py:97-99 | a key is among the last n exactly when fewer than n other keys have been used since |
| EmbeddingLru.SequentialIsLru | backend/app/services/embedding_service.py:69-103 | with calls one at a time the dictionary's key order is the last distinct keys served, by last use |
| EmbeddingLru.CachedExactlyWhenRecent | backend/app/services/embedding_service.py:69-103 | a key is in memory exactly when it was served and fewer than the capacity of others since |
| EmbeddingValues.MemoryIsLog | backend/app/services/embedding_service.py:69-103 | calls one at a time: memory holds exactly the last answers of the keys answered recently enough |
| EmbeddingValues.AnswersAreLogged | backend/app/services/embedding_service.py:69-103 | so each call is answered with the last answer for its key when fewer than the capacity of others came since, and otherwise with what Redis or the provider offers |
| EmbeddingValues.AloneIsAtomic | backend/app/services/embedding_service.py:69-103 | in any run of overlapping calls, a call whose steps nothing comes between does what the atomic one does, and writes back exactly what the provider answered |
| EmbeddingValues.SharedAmongWorkers | backend/app/services/embedding_service.py:84-91 | a key memory lacks is answered with what another worker wrote last, and not found any more once that has vanished |
| EmbeddingLru.SizeBounded | backend/app/services/embedding_service.py:85-99 | under every interleaving the dictionary stays within its capacity |
| EmbeddingLru.RightExactlyWhenHashSound | backend/app/services/embedding_service.py:69-103 | every vector ever returned is the provider's for that text exactly when no two texts with one key embed differently |
| EmbeddingLru.OrderIsByLastTouch | backend/app/services/embedding_service.py:69-103 | in every interleaving the key order is that of the last hits and first stores, bounded |
| EmbeddingLru.OrderIsByUseExactly | backend/app/services/embedding_service.py:93-99 | it is by last hit or store of any kind all along exactly when a key stored again is always the one used last |
| EmbeddingLru.OverlapKeepsOldPlace | backend/app/services/embedding_service.py:93-99 | overlapping misses of one text leave the key at its first place, before a key stored between them |
| EmbeddingLru.EmbeddingCache.LookUp | backend/app/services/embedding_service.py:78-82 | a hit moves its key to the end |
| EmbeddingLru.EmbeddingCache.Insert | backend/app/services/embedding_service.py:97-99 | a new key goes to the end and the first is popped when there are too many |
| EmbeddingLru.EmbeddingCache.EmbedText | backend/app/services/embedding_service.py:69-103 | one call without interruption |
| ConnectorRegistry.RegistryHolds | backend/app/connectors/connector_registry.py:57-125 | after every sequence of calls, whatever fails, both maps have the same keys, at most the maximum, every connected instance is cached or was told to disconnect, and timestamps are times of last return |
| ConnectorRegistry.EvictsLeastRecentlyReturned | backend/app/connectors/connector_registry.py:57-68 | a full cache loses one entry, no other was returned earlier, its instance is told to disconnect, and no other leaves |
| ConnectorRegistry.EvictsLeastRecentlyUsed | backend/app/connectors/connector_registry.py:57-68 | in every run whose clock moves on between returns, that entry's last return lies before every other's in the history of the run |
| ConnectorRegistry.CleanupRemovesStale | backend/app/connectors/connector_registry.py:71-82 | cleanup removes exactly the ids not returned for the maximum age |
| ConnectorOutcome.ReturnsExactly | backend/app/connectors/connector_registry.py:85-117 | the connector returned is the one cached under the id when it is found, not expired and alive, a new one exactly when there is none or it was dead and disconnects and the type is known and connects, and none otherwise; it is stamped, logged and cached |
| ConnectorOutcome.OthersStay | backend/app/connectors/connector_registry.py:57-117 | every other entry stays as it is unless it expires in a periodic cleanup or is the victim in a full cache |
| ConnectorOutcome.TellsExactly | backend/app/connectors/connector_registry.py:57-117 | told to disconnect are exactly those that expire or make room, and the one found dead |
| ConnectorOutcome.RemovesExactly | backend/app/connectors/connector_registry.py:120-125 | a removal tells the id's connector, and takes the entry away exactly when it disconnects |
| ConnectorRegistry.Connectors.OldestId | backend/app/connectors/connector_registry.py:61 | the minimum over timestamps |
| ConnectorRegistry.Connectors.EvictLru | backend/app/connectors/connector_registry.py:57-68 | both entries popped, the instance told to disconnect |
| ConnectorRegistry.Connectors.CleanupStale | backend/app/connectors/connector_registry.py:71-82 | the loop over stale ids |
| ConnectorRegistry.Connectors.GetOrCreateConnector | backend/app/connectors/connector_registry.py:85-117 | the call with all its failing paths |
| ConnectorRegistry.Connectors.RemoveById | backend/app/connectors/connector_registry.py:120-125 | removal; a raising disconnect leaves the entry |
| ConnectorInterleaving.CachedIdsStamped | backend/app/connectors/connector_registry.py:57-125 | in every interleaving every cached id has a timestamp |
| ConnectorInterleaving.BoundNotKept | backend/app/connectors/connector_registry.py:108-117 | for any number of distinct ids some run of overlapping calls caches them all, whatever the maximum and the cleanup period |
| ConnectorInterleaving.InstanceLost | backend/app/connectors/connector_registry.py:112-117 | two overlapping calls for one id lose a connected instance |
| ConnectorInterleaving.TimestampWithoutEntry | backend/app/connectors/connector_registry.py:98-102 | a probe that overlaps a removal leaves a timestamp without entry |
| ConnectorInterleaving.OrphanBreaksBound | backend/app/connectors/connector_registry.py:57-68 | once there is one, a single call that overlaps nothing takes a full cache above its maximum |
| ConnectorInterleaving.OrphanOverflows | backend/app/connectors/connector_registry.py:57-117 | such a run from the empty cache |
| ConnectorAlone.AloneIsAtomic | backend/app/connectors/connector_registry.py:57-117 | in any run of overlapping calls, a call that is then resumed to its end alone, whatever it cleans up, probes, evicts or connects, ends as the atomic one and leaves what that leaves |
| ConnectorAlone.RemovalAloneIsAtomic | backend/app/connectors/connector_registry.py:120-125 | so does a removal |
| ConnectorAlone.AtomicRunsAreRuns | backend/app/connectors/connector_registry.py:57-125 | every sequence of uninterrupted calls is a run of the overlapping ones: same dictionaries, and every call ends the same |
| ConnectorAccounts.BoundedBySlips | backend/app/connectors/connector_registry.py:108-117 | in every run, entries and calls past the capacity check exceed the maximum by at most the steps that slipped past it |
| ConnectorAccounts.BoundedExactly | backend/app/connectors/connector_registry.py:108-117 | they never exceed it exactly in the runs without such a step |
| ConnectorAccounts.StepLosesExactly | backend/app/connectors/connector_registry.py:98-125 | what a step makes lost is the untold instance it stores over or deletes, and a lost one is told exactly by a probe that finds it dead |
| ConnectorAccounts.NothingLostExactly | backend/app/connectors/connector_registry.py:98-125 | no instance is ever lost exactly in the runs in which no step does that |
| ConnectorAccounts.StepStraysExactly | backend/app/connectors/connector_registry.py:98-102 | only a live probe's answer for an id no longer cached makes a timestamp without entry, and it always does |
| ConnectorAccounts.SameKeysExactly | backend/app/connectors/connector_registry.py:57-125 | both maps have the same keys all along exactly in the runs without such an answer |
| EmbeddingProgress.EmbeddedIsCountMinusStranded | backend/app/services/embedding_service.py:168-234 | generation embeds what was counted except the stranded columns |
| EmbeddingProgress.StrandedForGood | backend/app/services/embedding_service.py:245-272 | after a run exactly those columns are still counted and no further run embeds them |
| EmbeddingRows.CountedRows | backend/app/services/embedding_service.py:168-234 | the count is the number of rows of the six kinds that belong to the connection and have no embedding |
| EmbeddingRows.EmbeddedRows | backend/app/services/embedding_service.py:237-329 | a complete run gives those rows their embeddings, of columns those whose table it embeds, changes no other row, and returns how many it gave |
| EmbeddingRows.IncrementsExactly | backend/app/services/embedding_progress.py:66-90 | a tracker after any number of increments: completed from its total on, never when that is zero |
| EmbeddingRows.BackgroundEndsAs | backend/app/services/setup_service.py:870-906 | for every outcome the total, the number made and the status the tracker ends with, and when rows change |
| EmbeddingProgress.TrackerCounts | backend/app/services/embedding_progress.py:66-90 | the tracker counts increments and completes exactly at the total |
| EmbeddingProgress.CompletedExactlyWhenNothingStranded | backend/app/services/setup_service.py:883-896 | a run without failure ends completed exactly when no column is stranded, otherwise running and short by them |
| EmbeddingProgress.BackgroundSafe | backend/app/services/setup_service.py:880-906 | completed never exceeds total, other trackers are untouched, and a failure rolls back and marks failed |
| EmbeddingProgress.RerunNeverCompletes | backend/app/services/setup_service.py:883-896 | a rerun with stranded columns embeds nothing and stays running |
| EmbeddingJob.Tracker.StartTracking | backend/app/services/embedding_progress.py:66-74 | a fresh running record |
| EmbeddingJob.Tracker.Increment | backend/app/services/embedding_progress.py:77-83 | one more, completed at the total |
| EmbeddingJob.Tracker.MarkCompleted | backend/app/services/embedding_progress.py:86-90 | the status of a tracked connection |
| EmbeddingJob.Tracker.MarkAsFailed | backend/app/services/embedding_progress.py:93-98 | the status of a tracked connection |
| EmbeddingJob.Generator.EmbedTables | backend/app/services/embedding_service.py:245-272 | tables, and the unembedded columns of the tables embedded now |
| EmbeddingJob.Generator.EmbedItems | backend/app/services/embedding_service.py:274-310 | glossary terms, metrics and sample queries |
| EmbeddingJob.Generator.EmbedChunks | backend/app/services/embedding_service.py:312-326 | chunks of the connection's documents |
| EmbeddingJob.Generator.GenerateEmbeddings | backend/app/services/embedding_service.py:237-329 | all loops: the rows, the count, and one increment for each embedding, up to a failure |
| EmbeddingJob.Generator.RunInBackground | backend/app/services/setup_service.py:870-906 | count, track, generate, commit or roll back |
| Chunker.SplitExactly | backend/app/services/knowledge_service.py:206 | splitting gives the runs without space that a text is made of, and no other list of words fits the text |
| Chunker.SplitJoin | backend/app/services/knowledge_service.py:206-216 | splitting joined words gives the words back |
| Chunker.ChunkWords | backend/app/services/knowledge_service.py:201-220 | the chunk loop |
| Chunker.ChunkSizes | backend/app/services/knowledge_service.py:214-216 | no chunk exceeds the limit and all but the last reach it |
| Chunker.NeighboursOverlap | backend/app/services/knowledge_service.py:214-219 | neighbours share exactly the overlap and go on with the next word |
| Chunker.ChunksReassemble | backend/app/services/knowledge_service.py:201-220 | dropping repeated words and joining gives the words of the text |
| Chunker.TextsReassemble | backend/app/services/knowledge_service.py:201-220 | the same from the stored chunk texts |
| Chunker.ChunkCount | backend/app/services/knowledge_service.py:213-219 | one chunk and one for each step of max minus overlap still needed |
| Chunker.CeilIsLeast | backend/app/services/knowledge_service.py:213-219 | that number of steps is the least that covers the rest |
| Chunker.EndsExactlyWhenOverlapBelowMax | backend/app/services/knowledge_service.py:214-219 | on a text longer than one chunk the loop ends exactly when the overlap is below the limit |
| Headings.PushHeading | backend/app/services/knowledge_service.py:177-179 | the popping loop |
| Headings.SplitIntoSections | backend/app/services/knowledge_service.py:155-193 | the loop over headings with sections, stack and title |
| Headings.StackIsSubsequence | backend/app/services/knowledge_service.py:172-179 | the stack lists headings in order, none twice, at most as many as the last level |
| Headings.RightExactlyWhenNesting | backend/app/services/knowledge_service.py:172-179 | the stack is the declarative ancestor chain after every heading exactly when every heading nests |
| Headings.NeverSkippingNests | backend/app/services/knowledge_service.py:172-179 | it is for every document that never skips a level |
| Headings.SkippedLevelNestsWrongly | backend/app/services/knowledge_service.py:177-179 | for h1, h3, h3 it is not |
| Headings.EverySegmentOnce | backend/app/services/knowledge_service.py:165-187 | every segment with text is a section once, in order, with its path |
| Headings.PathsAreAncestors | backend/app/services/knowledge_service.py:169-170 | in a nesting document that path lists the true ancestors |
| HeadingPaths.SectionPathsSpell | backend/app/services/knowledge_service.py:165-186 | a section has no path exactly before the first heading, and otherwise its path spells out the headings on the stack, which are the ones it stands under when the document nests |
| HeadingPaths.TitleIsFirstName | backend/app/services/knowledge_service.py:173-175 | the title is what the first heading is called, and missing exactly without headings |
| HeadingPaths.PathTellsNames | backend/app/services/knowledge_service.py:169 | a path tells its headings when none of them has the mark in it |
| HeadingPaths.SpellsOnce | backend/app/services/knowledge_service.py:169 | and headings spell one path |
| Headings.FallsBackToWhole | backend/app/services/knowledge_service.py:188-191 | without such text the whole text is the one section |
| RowCap.LimitIsCapped | backend/app/connectors/postgresql/connector.py:287-308 | the first LIMIT number afterwards is the smaller of the existing one and the cap, or the cap |
| RowCap.LimitChangesOnlyNumber | backend/app/connectors/postgresql/connector.py:295-308 | nothing but that number's digits changes, or the clause is appended |
| RowCap.TopIsCappedExactly | backend/app/connectors/sqlserver/connector.py:432-469 | for a positive cap the same of the first TOP number exactly when the statement is cappable; otherwise there is none or one beyond the cap |
| RowCap.ReplacedNumber | backend/app/connectors/sqlserver/connector.py:445-457 | an existing number is cut down in place, everything around it kept |
| RowCap.QuotedLimitIsUncapped | backend/app/connectors/sqlserver/connector.py:459-461 | a statement with the word in a string literal is returned uncapped |
| RowTexts.FirstNumberExactly | backend/app/connectors/sqlserver/connector.py:446-448 | a statement's number is the first that stands behind the keyword, in any case and as a word of its own, at the value of its decimal digits |
| RowTexts.NoNumber | backend/app/connectors/sqlserver/connector.py:446-447 | and there is none when none stands so |
| RowTexts.LimitStrips | backend/app/connectors/postgresql/connector.py:295 | what is stripped off the end is spaces, semicolons and spaces, as much as there is |
| RowTexts.TopStrips | backend/app/connectors/sqlserver/connector.py:442 | and on SQL Server the spaces in front |
| RowTexts.TrimsOnce | backend/app/connectors/postgresql/connector.py:295 | only one core is left by that |
| RowTexts.TopClausePlace | backend/app/connectors/sqlserver/connector.py:457-469 | a missing TOP goes right behind SELECT DISTINCT or else SELECT; a statement that mentions LIMIT is left alone, and any other becomes a subquery whole |
| RowTexts.TopNumberPlace | backend/app/connectors/sqlserver/connector.py:447-455 | a TOP number at most the cap leaves the statement alone; a larger one is written over, and nothing else |
| RowTexts.LimitNumberPlace | backend/app/connectors/postgresql/connector.py:298-306 | the same for LIMIT |
| Decimal.ReadIsValue | backend/app/connectors/postgresql/connector.py:300 | reading digits gives each the worth of its place |
| Decimal.PrintShortest | backend/app/connectors/postgresql/connector.py:306-308 | a number is written without a leading zero |
| RowPage.StrippedNumbers | backend/app/connectors/sqlserver/connector.py:441-446 | stripping spaces and semicolons never changes a statement's own limit |
| RowPage.LimitFetch | backend/app/connectors/postgresql/connector.py:287-308 | the rewritten statement fetches what the statement answers on its own, cut at the cap |
| RowPage.TopFetch | backend/app/connectors/sqlserver/connector.py:432-469 | so does the other rewriter for cappable statements; any other is fetched whole or beyond the cap |
| RowPage.PostgresPageExact | backend/app/connectors/postgresql/connector.py:227-266 | for every statement and every maximum the API accepts (schemas/connection.py asks for one or more), the page is the first rows of the statement's own answer, no more than the maximum, truncated exactly when there are more |
| RowPage.SqlServerPageExact | backend/app/connectors/sqlserver/connector.py:317-341 | the same of every statement, cappable or not |
| RowPage.SqlServerFetchBounded | backend/app/connectors/sqlserver/connector.py:317-332 | the fetch is bounded, whatever is selected, exactly when the statement is cappable |

## Left out

- SchemaFilters.KeptIsWanted: tells case apart for the letters A to Z only, for the same reason as the next line.
- SchemaStore.KeptExact: lower-cases the letters A to Z only, where `lower()` covers every alphabet; what the filters do with other letters is not modelled.
- The LLM pipeline, prompts and graph: an arbitrary final state in `Coalescing`; what a context contains in `ContextCache`.
- `find_relevant_tables` and its ranking, pgvector search, inferred relationships, glossary and metric resolution.
- JSON serialisation of payloads and cached SQL in Redis is taken to give back what was stored.
- Redis has one clock that does not run backwards; the wall clock of `ContextCache` may be set to anything.
- Waiting for an asyncio lock is modelled as any waiter being granted it next, which includes the first-come order of asyncio; cancellation is a failure step.
- `asyncio.shield` lets an embedding call go on after a timeout; its late effect is the one `EmbeddingLru` models, not one on the context cache.
- `introspect_and_cache` runs as one transaction; two overlapping introspections of one connection are not modelled.
- Ids are drawn from a counter instead of random UUIDs; what is used of them is that they are never given out twice.
- A SELECT without ORDER BY returns rows in insertion order.
- Embedding vectors of schema rows are only present or absent in `EmbeddingProgress`, and not part of `SchemaStore`.
- `clear_column_cache`, which the introspection endpoint calls, is a step `ColumnCache` allows but does not need.
- `repair_json`: values compare string literals as written, not as decoded; `json.loads` is a parameter that is right on strict texts; which non-ASCII characters are word characters is a parameter.
- Loose documents at the top level that are a bare word, number or string: the promise is about objects and arrays.
- Characters outside ASCII in `RowCap`: `upper()` may change the length of such a statement and `\d` matches more digits.
- A duplicate LIMIT or TOP in subqueries or comments: both rewriters look at the first one only, and so does the model.
- `check_sql_safety`, timeouts, transactions and drivers around the row cap.
- The HTML parser: `Headings` starts from the text between headings, `Chunker` from text.
- CSV: download, file names and cell formatting; a cell is the string it is printed from.
- `EmbeddingProgress`: timestamps, error texts, task registration and the removal of old records; two runs for one connection at once.
- The order in which columns of one table are embedded, which does not change the result.
- Retry, tracing and metrics decorators, logging, audit, authentication, user interface.
