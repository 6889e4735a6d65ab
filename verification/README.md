# XLStatus: verified models of its stateful cores

XLStatus is a server-monitoring platform: Rust agents and a Rust server, a TypeScript web
client, and a Python script that moves an installation from SQLite to PostgreSQL. This project
models the parts of it that keep state or transform data in non-obvious ways, and proves what
they promise over all inputs, all interleavings and all runs. `dafny verify dfyconfig.toml`
checks everything.

Where the source updates fields step by step, the model is a class or a loop, and its methods
are proved equal to step functions on plain values. The theorems are then about those step
functions, over every finite sequence of events. Clocks, network answers, decoded messages and
other processes are parameters: where the outside world can act between two awaits it is an
arbitrary function of time.

| module | what it models |
|---|---|
| `ClientCache`, `OrderedMaps` | the browser client's read cache, with interleaved reads, writes and invalidations |
| `MetricStore`, `NewestKeys`, `MetricPayload` | the in-memory time-series store and its payload check |
| `FileExecutor`, `AllowedRoots`, `WriteChanges`, `UndisturbedWrite`, `FileListing`, `FileTree`, `PosixPath` | the agent's file operations on a tree with symbolic links |
| `TableOrder`, `CopyText` | the importer's table order and its COPY text output |
| `AgentConfig`, `AgentIo` | remote configuration of the agent and the terminal/NAT stream multiplexer |
| `ServerCache` | the two-level server-list cache and the loads that fill it |
| `LiveMerge`, `Reconnect` | live metrics and the socket that delivers them |
| `ShellQuoting`, `Base64`, `WorkerPool` | quoting, base64 and the bounded worker pool |

`Wrappers`, `Sets` and `Bytes` hold small shared helpers.

## Main results

- **Client cache.** In every interleaving, a read that starts after an invalidation (a write
  that begins or settles, a 401, an explicit invalidation) is never answered by a request that
  began before it, whether from the cache or by joining an in-flight request
  (`NoStaleAnswers`, `ReadsSeeSettledWrites`). A superseded request is never stored, although
  the epoch table forgets keys (`EarlierNeverStored`); successive cache hits never go back in
  time (`CacheHitsAreMonotone`).
- **Metric store.** Age eviction, the 50,000-sample cap and lazy per-agent compaction cannot be
  observed: all four reads agree with a store that never forgets anything
  (`EvictionUnobservable`, `ReadsAgree`), always so while the clock goes forward and the
  retention is not raised (`ReadsAgreeOnForwardRuns`). Raising it can expose a dropped sample
  (`DroppedSamplesStayDropped`): with a forward clock, the reads made at a cutoff agree in all
  runs exactly when that cutoff is not below the highest one the agent was ever compacted at,
  or is out of reach of any retention (`ReadsAgreeExactlyFromHighWater`).
- **File executor.** Whatever other processes do between the root check and the walk,
  everything read, written, listed or deleted lies at a literal path below an allowed root. A
  write accounts for everything that happens to the tree from its first await to its end, also
  when it fails (`Traced`): at a place outside the roots that others leave alone, what exists is
  not altered, and at most a directory on the way appears (`TraceOutsideRoots`). A recursive
  delete that succeeds removes exactly the named subtree, and one that fails loses nothing
  outside it. When nobody interferes, a write that creates missing roots and parents and checks
  its target twice does exactly what a write with one check does (`WriteFile`, `OnceForAll`).
  The root check alone does not confine writes: `ClimbingTailPassesRootCheck` is a path it
  accepts, and `TargetLiteralIff` says exactly which targets the walk will accept.
- **Importer.** The depth-first order lists every table once; a parent that comes late lies on
  a cycle, and all parents come first if and only if the foreign keys have no cycle
  (`ParentsFirstIffAcyclic`). A COPY block, read by the documented rules, gives back exactly the
  rows (`BlockRoundTrip`).
- **Agent.** Over whole runs of accepted and rejected updates, locks never open and the
  reachable file paths only shrink (`RunNarrows`); once a kind of session is disabled no later
  frame opens or feeds one (`DisabledKindsStayUnused`).
- **Web.** Only the current load of the current identity publishes a server list
  (`OnlyCurrentLoadPublishes`). For a load that nothing superseded, the identity at its guard
  alone decides, and the cache then holds exactly the rows that arrived
  (`PublishesIffIdentity`), so a cookie that changes and changes back is not noticed
  (`CookieDetourUnnoticed`); merged metrics do not depend on delivery order if and only if
  the newest events agree (`OrderIrrelevantIff`); a visible page has exactly one socket or one
  timer (`AlwaysCovered`).

## Model

| member | source | states |
|---|---|---|
| ClientCache.InFlightKeyInjective | web/lib/api.ts:742 | the generation-scoped key text determines both its generation and its cache key, so requests of different generations never share an entry |
| ClientCache.StepKeeps | web/lib/api.ts:617-791 | every step keeps the invariant: cached responses belong to the current generation and their own key, epochs follow the order in which calls began, no unfinished shared call is missing from the in-flight table, at most 64 responses and 128 epochs |
| ClientCache.RunInv | web/lib/api.ts:598-791 | the invariant holds after every sequence of events from an empty client |
| ClientCache.FreshAfterInvalidation | web/lib/api.ts:758-762 | after an invalidation at step i, every call of the then current generation began later than i, for ever |
| ClientCache.AnswerIsCurrent | web/lib/api.ts:642-651 | a cached or joined answer comes from a call for the same key begun in the current generation |
| ClientCache.NoStaleAnswers | web/lib/api.ts:642-762 | no read after an invalidation is answered from the cache by, or joins, a request begun before it; it gets the answer for its own key |
| ClientCache.WriteSettleInvalidates | web/lib/api.ts:713-720 | resuming a finished write invalidates |
| ClientCache.ReadsSeeSettledWrites | web/lib/api.ts:713-755 | after a write settles, every read is answered by a request begun after that settle |
| ClientCache.StaysSuperseded | web/lib/api.ts:764-776 | once a later request for the key has begun, an earlier one never matches the epoch table again, in spite of eviction at 128 keys and clearing |
| ClientCache.EarlierNeverStored | web/lib/api.ts:722-733 | a request that a later one for its key has superseded is never stored |
| ClientCache.CacheHitsAreMonotone | web/lib/api.ts:642-651 | of two cache hits for one key, the later is never answered by the earlier-begun request |
| ClientCache.StoredInOrder | web/lib/api.ts:722-733 | stored responses of one key strictly increase in begin time |
| ClientCache.StoredIsServed | web/lib/api.ts:642-651 | a stored response answers reads of its key until it expires |
| ClientCache.UnfinishedIsJoined | web/lib/api.ts:742-755 | in every reachable state a read with nothing cached joins the request of its key that is under way in the current generation |
| ClientCache.OneSharedRequest | web/lib/api.ts:740-755 | at most one unfinished shared request exists per generation and key |
| ClientCache.ApiClient.constructor | web/lib/api.ts:598-611 | a new client is the empty state |
| ClientCache.ApiClient.InvalidateClientCache | web/lib/api.ts:758-762 | bumps the generation and clears responses and epochs, leaving in-flight requests |
| ClientCache.ApiClient.InvalidateReads | web/lib/api.ts:613-615 | is the explicit invalidation step |
| ClientCache.ApiClient.BeginCacheRequest | web/lib/api.ts:764-776 | evicts the oldest key only when full and the key is new, re-inserts the key last with the next sequence number, and returns it |
| ClientCache.ApiClient.PurgeExpired | web/lib/api.ts:780-782 | the loop drops exactly the expired responses and keeps the order of the rest |
| ClientCache.ApiClient.StoreClientCache | web/lib/api.ts:778-791 | purge, evict the oldest if still full, then insert |
| ClientCache.ApiClient.Request | web/lib/api.ts:617-756 | up to its first await, a call makes the step of its kind and yields the answer the theorems speak of |
| ClientCache.ApiClient.FinishExecute | web/lib/api.ts:657-711 | the fetch step: a 401 on an authenticated call invalidates |
| ClientCache.ApiClient.Resume | web/lib/api.ts:713-733 | the settle step: a write invalidates again, a cacheable read is stored only in its own generation and epoch |
| ClientCache.ApiClient.FinallyShared | web/lib/api.ts:748-752 | removes an in-flight entry only if it is still this request's own |
| OrderedMaps.Without | web/lib/api.ts:773 | deleting a key keeps all other keys, in order and once each |
| OrderedMaps.DeleteOldest | web/lib/api.ts:770-771 | removes one entry when the first key is non-empty text and alters no other |
| OrderedMaps.KeepingWithout | web/lib/api.ts:780-782 | deleting during iteration is restricting to the remaining keys |
| MetricPayload.Walk | crates/tsdb/src/lib.rs:237-280 | the early-exit walk succeeds exactly when the rest of the value fits the byte, depth and finiteness limits, and then adds its exact size |
| MetricPayload.WalkItems | crates/tsdb/src/lib.rs:263-270 | the same for an array, by its loop |
| MetricPayload.WalkFields | crates/tsdb/src/lib.rs:271-278 | the same for an object, by its loop |
| MetricPayload.ValidateSamplePayload | crates/tsdb/src/lib.rs:224-285 | accepts exactly the payloads of acceptable size, depth and numbers, and returns the size |
| MetricPayload.ItemsMonotone | crates/tsdb/src/lib.rs:263-270 | size and depth of a prefix never exceed those of the whole, so stopping early is sound |
| MetricPayload.FieldsMonotone | crates/tsdb/src/lib.rs:271-278 | the same for object fields |
| NewestKeys.NewestUpClosed | crates/tsdb/src/lib.rs:323-328 | whatever is newer than a kept timestamp is kept |
| NewestKeys.NewestDropMin | crates/tsdb/src/lib.rs:325-327 | dropping the oldest of too many keys does not change the newest n |
| NewestKeys.NewestSize | crates/tsdb/src/lib.rs:323-328 | the newest n of k keys are min(n, k) keys, and all of them when k <= n |
| NewestKeys.SinceNewest | crates/tsdb/src/lib.rs:322-328 | age filtering and the sample cap commute |
| NewestKeys.NewestUnion | crates/tsdb/src/lib.rs:412-427 | capping early and then adding keys keeps the same newest n as adding first |
| NewestKeys.KeepNewestMerge | crates/tsdb/src/lib.rs:412-427 | the same for entries, with overwriting |
| MetricStore.ValidateSample | crates/tsdb/src/lib.rs:287-299 | accepts exactly valid samples; the timestamp error is reported exactly for timestamps out of range |
| MetricStore.CompactSeries | crates/tsdb/src/lib.rs:315-330 | keeps exactly the newest 50,000 entries from the cutoff on; drop count plus remaining size is the old size |
| MetricStore.PopFirst | crates/tsdb/src/lib.rs:325-327 | removing the oldest entry of an over-full series does not change what the cap keeps |
| MetricStore.CompactedAbsorbs | crates/tsdb/src/lib.rs:315-330 | compacting before and after an update is compacting after it |
| MetricStore.CompactedIdempotent | crates/tsdb/src/lib.rs:315-330 | compacting twice at one cutoff is compacting once |
| MetricStore.EntriesSplit | crates/tsdb/src/lib.rs:379-381 | the number of entries is the sum over agents, so drop counts add up |
| MetricStore.InMemoryMetricStore.constructor | crates/tsdb/src/lib.rs:306-313 | an empty store with normalised retention |
| MetricStore.InMemoryMetricStore.CompactAgent | crates/tsdb/src/lib.rs:332-346 | compacts one agent, removes it if nothing is left, and conserves the count |
| MetricStore.InMemoryMetricStore.CompactEach | crates/tsdb/src/lib.rs:348-355 | compacts a set of agents, in any order, with the same result and a conserved count |
| MetricStore.InMemoryMetricStore.Compact | crates/tsdb/src/lib.rs:359-363 | is the compaction step; dropped plus remaining is the old size |
| MetricStore.InMemoryMetricStore.SetRetention | crates/tsdb/src/lib.rs:525-539 | accepts exactly positive retentions up to the maximum, then compacts everything |
| MetricStore.InMemoryMetricStore.Write | crates/tsdb/src/lib.rs:412-427 | is the single-write step; succeeds exactly for valid samples |
| MetricStore.InMemoryMetricStore.WriteBatch | crates/tsdb/src/lib.rs:429-458 | is the batch step: all or nothing, each affected agent compacted once, count returned |
| MetricStore.InMemoryMetricStore.InsertSamples | crates/tsdb/src/lib.rs:445-453 | inserts in order, last write wins, and collects exactly the agents touched |
| MetricStore.InMemoryMetricStore.Len | crates/tsdb/src/lib.rs:379-381 | the total number of stored entries |
| MetricStore.InMemoryMetricStore.ExportSamples | crates/tsdb/src/lib.rs:387-404 | a sorted list of exactly the samples within retention |
| MetricStore.Ascending | crates/tsdb/src/lib.rs:466-479 | lists exactly the entries of a series in strictly ascending time |
| MetricStore.SortSamples | crates/tsdb/src/lib.rs:402 | sorts by agent and time without losing or inventing a sample |
| MetricStore.SortedListingUnique | crates/tsdb/src/lib.rs:402 | two sorted listings of the same samples are equal, so the export does not depend on hash order |
| MetricStore.QueryReads | crates/tsdb/src/lib.rs:460-481 | filtering at the later of two cutoffs is filtering at both |
| MetricStore.NewestDecides | crates/tsdb/src/lib.rs:483-511 | looking at the newest entry only decides whether anything is within retention |
| MetricStore.ApplyOnAgent | crates/tsdb/src/lib.rs:359-458 | what any operation does to one agent: nothing, or compaction of its series with its accepted samples |
| MetricStore.CompactedAgrees | crates/tsdb/src/lib.rs:315-330 | agreement with the never-forgetting store from a mark on is kept by an update and a compaction, from the raised mark on |
| MetricStore.EvictionUnobservable | crates/tsdb/src/lib.rs:315-458 | after every run, from the agent's high-water cutoff on, the series equals the newest 50,000 of everything ever accepted |
| MetricStore.ReadsAgree | crates/tsdb/src/lib.rs:387-511 | query, latest, list_agents and export_samples all return what the never-forgetting store would, whenever the read cutoff is at or above the high-water mark |
| MetricStore.HighWaterBelowNow | crates/tsdb/src/lib.rs:217-222 | with a forward clock and retention never raised, the read cutoff is at or above every cutoff used before |
| MetricStore.ReadsAgreeOnForwardRuns | crates/tsdb/src/lib.rs:387-511 | all four reads agree in every run with a forward clock and a retention that is never raised |
| MetricStore.DroppedSamplesStayDropped | crates/tsdb/src/lib.rs:369-375 | for any mark and any lower cutoff a retention can reach there is a forward-clock run, ending with a raised retention, in which latest returns nothing although an accepted sample lies within retention |
| MetricStore.MarkBehindClock | crates/tsdb/src/lib.rs:210-222 | with a forward clock the high-water mark stays at least the shortest retention behind the clock |
| MetricStore.ReadsAgreeExactlyFromHighWater | crates/tsdb/src/lib.rs:369-511 | with a forward clock, all reads at a cutoff after a high-water mark agree if and only if the cutoff is not below the mark, or is further below it than any retention reaches |
| MetricStore.AgreementExactlyFromHighWater | crates/tsdb/src/lib.rs:315-330 | the stored series agrees at a cutoff in all runs with a given high-water mark if and only if the cutoff is at or above it |
| MetricStore.BatchThenPut | crates/tsdb/src/lib.rs:429-458 | a batch is its first part as a batch and then its last sample as a single write, for every agent |
| MetricStore.BatchIsSequential | crates/tsdb/src/lib.rs:429-458 | a valid batch leaves the same state as writing its samples one at a time at the same instant |
| MetricStore.CompactingAgainDropsNothing | crates/tsdb/src/lib.rs:348-363 | a second compaction at the same cutoff changes nothing |
| MetricStore.RunBounded | crates/tsdb/src/lib.rs:315-346 | in every run no agent holds more than 50,000 samples and no agent is kept with none |
| PosixPath.NormalNames | crates/agent/src/executor/files.rs:489-501 | accepts exactly the paths without a parent component, and gives their names |
| FileTree.LookupGraft | crates/agent/src/executor/files.rs:504-519 | replacing a node changes what is found at and below it and nowhere else |
| FileTree.LookupPrune | crates/agent/src/executor/files.rs:802-809 | unlinking removes what is at and below the path and nothing else |
| FileTree.LookupWithDirs | crates/agent/src/executor/files.rs:471-486 | creating directories alters no existing file, link or special node; all that is new is a directory on the way |
| FileTree.WithDirsStep | crates/agent/src/executor/files.rs:471-486 | making one more directory at the end of a created chain is creating the longer chain |
| FileTree.CanonicalSound | crates/agent/src/executor/files.rs:356-363 | a canonical path exists, is no link and has only valid names |
| FileTree.CanonicalIdempotent | crates/agent/src/executor/files.rs:356-363 | a canonical path resolves to itself |
| FileTree.ResolveWithDirs | crates/agent/src/executor/files.rs:365-402 | a path that resolves still resolves to the same place once directories are created |
| FileTree.ResolveSplit | crates/agent/src/executor/files.rs:358-360 | once the front of a path has resolved to a directory, the rest is resolved from there |
| FileTree.ResolveThen | crates/agent/src/executor/files.rs:381-393 | below a directory a path resolves to, literal names resolve to themselves or are missing |
| FileTree.ResolveUp | crates/agent/src/executor/files.rs:381-393 | a parent component after a resolved directory leads to its parent |
| FileListing.SortByName | crates/agent/src/executor/files.rs:550 | sorts a listing by name without losing or inventing an entry |
| FileListing.NameBeforeTransitive | crates/agent/src/executor/files.rs:550 | the name order is transitive |
| FileListing.NameBeforeTotal | crates/agent/src/executor/files.rs:550 | the name order decides every two different names |
| FileExecutor.ReadDirNames | crates/agent/src/executor/files.rs:853-898 | lists every entry once, or fails exactly above 10,000 entries |
| FileExecutor.Executor.OpenDirParts | crates/agent/src/executor/files.rs:624-632 | opens a literal path only through real directories; without denials exactly then |
| FileExecutor.Executor.RemoveDirAllAt | crates/agent/src/executor/files.rs:602-615 | succeeds exactly if nothing in the subtree is refused or over-full, then removes exactly it; on failure, also of the closing unlink of an emptied directory, loses nothing outside it; recursion ends on the tree |
| FileExecutor.Executor.RemoveEntries | crates/agent/src/executor/files.rs:605-613 | the loop empties a directory exactly when all entries are removable |
| FileExecutor.Executor.RemoveEntry | crates/agent/src/executor/files.rs:606-612 | removes one entry: a directory recursively, a link as a link |
| FileExecutor.Executor.DeletePathWalk | crates/agent/src/executor/files.rs:577-599 | success is exactly pruning the named node; failure loses nothing outside it; with nothing refused it succeeds exactly for removable nodes |
| FileExecutor.OnlyLostOutside | crates/agent/src/executor/files.rs:577-615 | a failed delete leaves everything off the named path as it was, link targets included |
| FileExecutor.Executor.CreateDirAll | crates/agent/src/executor/files.rs:471-486 | makes a prefix of the missing directories, also when opening one it has just made fails; with nothing refused it succeeds exactly if no non-directory is in the way |
| FileExecutor.Executor.CreateFile | crates/agent/src/executor/files.rs:504-519 | creates or empties exactly one regular file in an existing directory, never through a link, or changes nothing; a failure after the file was created leaves it empty; exact success condition |
| FileExecutor.Executor.WriteAll | crates/agent/src/executor/files.rs:192-195 | the file holds a prefix of the data, all of it exactly if the disk takes it |
| FileExecutor.Executor.ReadFileWalk | crates/agent/src/executor/files.rs:555-574 | returns the requested slice of the regular file at the literal path, and without denials fails exactly if there is none |
| FileExecutor.Executor.ListWalk | crates/agent/src/executor/files.rs:522-552 | lists exactly the entries of the directory at the literal path, links as links, sorted by name; exact success condition |
| AllowedRoots.CanonicalAllowedRoots | crates/agent/src/executor/files.rs:334-342 | succeeds exactly if every configured root resolves, none to the root directory, and returns their canonical forms |
| AllowedRoots.ResolveExistingPath | crates/agent/src/executor/files.rs:356-363 | succeeds exactly if the canonical path lies below an allowed root; the result is literal, exists and is no link |
| AllowedRoots.DeepestAncestor | crates/agent/src/executor/files.rs:373-380 | finds the longest existing ancestor: it exists and none longer does |
| AllowedRoots.DeletionTarget | crates/agent/src/executor/files.rs:429-445 | the entry to delete is a literal last component whose parent lies under an allowed root |
| FileExecutor.Executor.FindAncestor | crates/agent/src/executor/files.rs:373-384 | climbs to the ancestor that exists, under any interference, changing nothing itself; in a tree that stands still it is the deepest one |
| FileExecutor.Executor.EnsureRoot | crates/agent/src/executor/files.rs:301-340 | makes a missing root below its resolved ancestor, literally, and resolves it; the recorded changes are all that happened besides the awaits, also on failure; exact result when nobody interferes |
| FileExecutor.Executor.MakeMissingRoot | crates/agent/src/executor/files.rs:306-328 | makes the missing directories of a root and nothing else, recorded also on failure; exact result when nobody interferes |
| FileExecutor.Executor.EnsureAllowedRoots | crates/agent/src/executor/files.rs:292-343 | every root is the canonical form of its configured path in a tree that was there; the recorded changes are all the changes made, each a directory at the place of a configured root; exact result when nobody interferes |
| UndisturbedWrite.CreatedRootResolves | crates/agent/src/executor/files.rs:324-340 | a root that was missing resolves, once made, to the place where it was made |
| UndisturbedWrite.DirsResolve | crates/agent/src/executor/files.rs:324-340 | after missing directories are made a path through them resolves to their literal place |
| FileExecutor.Executor.ResolveWriteTarget | crates/agent/src/executor/files.rs:365-402 | under any interference the target extends an allowed root and nothing is changed; in a tree that stands still meanwhile it is the intended target |
| AllowedRoots.TargetLiteralIff | crates/agent/src/executor/files.rs:365-402 | an accepted target is literal if and only if the path exists or its missing tail has no parent component |
| AllowedRoots.ClimbingTailPassesRootCheck | crates/agent/src/executor/files.rs:381-402 | a concrete path that climbs out in its missing tail passes the root check, and the walk refuses it |
| UndisturbedWrite.ParentsKeepTarget | crates/agent/src/executor/files.rs:177-190 | creating the parents does not move the target: the second check finds the same place, and the write then works unless a non-file is there |
| UndisturbedWrite.UndisturbedParents | crates/agent/src/executor/files.rs:177-190 | after the parents are made the second check accepts exactly the targets the first one made literal; a target that ends in a parent component then names a directory and is refused |
| UndisturbedWrite.OnceForAll | crates/agent/src/executor/files.rs:177-195 | checking twice around the creation of parents comes to what a single check does |
| FileExecutor.Executor.ReadFile | crates/agent/src/executor/files.rs:120-133 | whatever happens in between, the bytes are those of a regular file at the resolved literal path below an allowed root; without denials it succeeds exactly if that file is there |
| FileExecutor.Executor.ListFiles | crates/agent/src/executor/files.rs:40-47 | the same for listings, sorted by name, which fail above 10,000 entries; exact success condition |
| FileExecutor.Executor.DeletePath | crates/agent/src/executor/files.rs:429-452 | if the walk is reached the entry is the literal last component below the canonical parent, which lies under an allowed root; success removes exactly it, failure loses nothing else, and otherwise nothing changes; exact success condition |
| FileExecutor.Executor.WriteFile | crates/agent/src/executor/files.rs:167-202 | from the first await to the end, on success and failure, the tree changes only by what awaits find and by the recorded changes, each confined to the allowed roots or making a missing configured root; success puts exactly the data at the re-checked target; when nobody interferes, the exact success condition and final tree of a write with a single check |
| FileExecutor.Executor.CreateParents | crates/agent/src/executor/files.rs:179-185 | makes exactly the missing parents of the target, or a part of them on failure, recorded either way; exact success condition |
| FileExecutor.Executor.Prepare | crates/agent/src/executor/files.rs:177-185 | the first check and the creation of parents, with every change recorded, leave a tree in which the rest decides as a single check would |
| FileExecutor.Executor.CheckAndPut | crates/agent/src/executor/files.rs:186-195 | the second check and the write, with every change recorded, put all the data at the checked target or fail |
| FileExecutor.Executor.WriteUnder | crates/agent/src/executor/files.rs:176-195 | the write below known roots changes the tree only by recorded, confined changes, and is exact when nobody interferes |
| FileExecutor.Executor.PutTarget | crates/agent/src/executor/files.rs:186-195 | leaves a prefix of the data at the literal target, all of it on success, or changes nothing; exact success condition |
| WriteChanges.ChangeOutsideRoots | crates/agent/src/executor/files.rs:167-202 | a change alters no file, link or special node outside the allowed roots, keeps directories directories, and adds at most directories on the way to a target inside or to a missing configured root |
| WriteChanges.TraceOutsideRoots | crates/agent/src/executor/files.rs:167-202 | over everything that happens during a write, nothing is altered at a place outside the roots that other processes leave alone; at most a directory on the way appears |
| WriteChanges.TracedThen | crates/agent/src/executor/files.rs:167-202 | accounts of two stretches of a write join into one: no change in between goes unrecorded |
| FileExecutor.DeletionOutsideRoots | crates/agent/src/executor/files.rs:429-452 | a delete, successful or failed half-way, alters no file, link, special node or directory status outside the allowed roots and adds nothing |
| TableOrder.BuildDependencies | scripts/import_sqlite_to_postgres.py:230-234 | keeps exactly the foreign keys between two different listed tables |
| TableOrder.Ordering.constructor | scripts/import_sqlite_to_postgres.py:236-238 | starts with nothing visited |
| TableOrder.Ordering.Visit | scripts/import_sqlite_to_postgres.py:240-250 | terminates on any graph and keeps the order well formed: each listed once, and a parent that is not yet listed reaches the child |
| TableOrder.Ordering.VisitParents | scripts/import_sqlite_to_postgres.py:246-247 | visits every parent, or finds it on the stack |
| TableOrder.OrderedTables | scripts/import_sqlite_to_postgres.py:230-254 | lists every table exactly once in a well-formed order of exactly the given foreign keys |
| TableOrder.LateParentIsOnCycle | scripts/import_sqlite_to_postgres.py:240-250 | a child listed before its parent lies on a cycle with it |
| TableOrder.PathMovesForward | scripts/import_sqlite_to_postgres.py:240-250 | in a parents-first order every path of references leads to earlier tables |
| TableOrder.ParentsFirstIffAcyclic | scripts/import_sqlite_to_postgres.py:230-254 | all parents come first if and only if the references have no cycle |
| CopyText.UnescapeEscape | scripts/import_sqlite_to_postgres.py:306-320 | reading an escaped string by the COPY rules, with octal and hex escapes, gives the string |
| CopyText.EscapeNotNull | scripts/import_sqlite_to_postgres.py:317-320 | no string is written as the NULL marker |
| CopyText.FieldRoundTrip | scripts/import_sqlite_to_postgres.py:317-320 | a field reads back as the value, NULL distinct from every string |
| CopyText.ScanStopsAfter | scripts/import_sqlite_to_postgres.py:375 | a reader finds the end of a written field or line exactly where the writer put it |
| CopyText.RowRoundTrip | scripts/import_sqlite_to_postgres.py:374-375 | a line reads back as its row |
| CopyText.RowIsNotTerminator | scripts/import_sqlite_to_postgres.py:375-378 | no data line is the end marker |
| CopyText.RowTabs | scripts/import_sqlite_to_postgres.py:375 | a line has exactly one raw tab fewer than columns |
| CopyText.LineRoundTrip | scripts/import_sqlite_to_postgres.py:375 | reading on after a written line yields its row and then the rest |
| CopyText.BlockRoundTrip | scripts/import_sqlite_to_postgres.py:364-379 | a block reads back as exactly its rows in order and ends exactly at its terminator |
| CopyText.TextStream.Write | scripts/import_sqlite_to_postgres.py:364 | appends |
| CopyText.Cursor.FetchMany | scripts/import_sqlite_to_postgres.py:360 | returns the next rows, and none only at the end |
| CopyText.StreamTable | scripts/import_sqlite_to_postgres.py:347-379 | writes nothing for an empty table, else header, all converted rows across all batches and terminator; what follows the header reads back as exactly those rows; returns the number of rows |
| CopyText.StreamRows | scripts/import_sqlite_to_postgres.py:371-377 | the batch loop writes and counts every row |
| CopyText.WriteBatch | scripts/import_sqlite_to_postgres.py:373-376 | the row loop continues the text and the count |
| AgentConfig.ValidateDisableFlag | crates/agent/src/main.rs:2711-2723 | an accepted flag keeps a lock that is on |
| AgentConfig.ValidateRoots | crates/agent/src/main.rs:2725-2743 | accepted roots are the trimmed texts, each a normalised absolute path |
| AgentConfig.TrimIdempotent | crates/agent/src/main.rs:2733-2741 | trimming a trimmed root again changes nothing, so policy and use see the same path |
| AgentConfig.RequestedRootsNarrow | crates/agent/src/main.rs:2745-2812 | roots within the policy reach no path the old roots did not |
| AgentConfig.RootsNarrow | crates/agent/src/main.rs:2529-2538 | patching the roots changes nothing else and only narrows |
| AgentConfig.NarrowedTransitive | crates/agent/src/main.rs:2745-2812 | narrowing composes |
| AgentConfig.ApplyNarrows | crates/agent/src/main.rs:2443-2544 | an accepted update keeps every lock set in memory or on disk, narrows the paths, keeps agent id and keys, and satisfies the TLS rule |
| AgentConfig.AcceptedUpdateTakesEffect | crates/agent/src/main.rs:2443-2544 | an accepted update sets each lock to memory or disk or patch, and the roots to the patched ones or the old |
| AgentConfig.LockUpdateAcceptedIff | crates/agent/src/main.rs:2443-2544 | an update that only sets locks is accepted if and only if it is small enough, the file can be read and written, the connection is consistent and no lock of memory or disk is opened |
| AgentConfig.StepNarrows | crates/agent/src/main.rs:2443-2544 | any update, accepted or rejected, narrows and keeps the TLS rule |
| AgentConfig.RunNarrows | crates/agent/src/main.rs:2443-2544 | between any two points of any run locks stay, paths only shrink, identity is the same, and the TLS rule is kept |
| AgentConfig.AcceptedUpdateLasts | crates/agent/src/main.rs:2443-2544 | after an accepted update the locks seen on disk and the TLS rule hold for ever |
| AgentIo.KindsNeverOverlap | crates/agent/src/main.rs:739-884 | in every run no stream id is both a terminal and a NAT session |
| AgentIo.StepGated | crates/agent/src/main.rs:886-1190 | while a kind is disabled no step opens a session of it or feeds one |
| AgentIo.LocksLast | crates/agent/src/main.rs:611-678 | locks stay on through any mix of frames, updates and reader exits |
| AgentIo.DisabledKindsStayUnused | crates/agent/src/main.rs:739-1190 | once disabled at any point of a run, a kind is never opened or fed at any later step |
| AgentIo.DisabledSessionTornDown | crates/agent/src/main.rs:753-811 | data for a session of a disabled kind removes that session |
| AgentIo.EnabledKindsWork | crates/agent/src/main.rs:739-1190 | while a kind is enabled its sessions open, and terminal input and NAT data get through |
| AgentIo.SessionsWereOpened | crates/agent/src/main.rs:739-1190 | every session in the maps was opened by an earlier frame for that id while its kind was enabled, and has been there since |
| AgentIo.AgentSession.constructor | crates/agent/src/main.rs:524-526 | starts with no sessions |
| AgentIo.AgentSession.ApplyRemoteConfig | crates/agent/src/main.rs:623-629 | an update changes the configuration exactly if it is accepted, and no session |
| AgentIo.AgentSession.HandleIoFrame | crates/agent/src/main.rs:739-884 | the dispatcher is the frame step, effects included |
| AgentIo.AgentSession.CloseNatSession | crates/agent/src/main.rs:1320-1338 | removes the session and any whose reader has finished |
| AgentIo.AgentSession.TerminalData | crates/agent/src/main.rs:955-1038 | input for a running terminal, with the lock checked first |
| AgentIo.AgentSession.NatData | crates/agent/src/main.rs:775-811 | data for a running NAT session, with the lock checked first |
| AgentIo.AgentSession.NewTerminal | crates/agent/src/main.rs:886-953 | opens a terminal only if allowed and started |
| AgentIo.AgentSession.NatControl | crates/agent/src/main.rs:1040-1190 | opens a NAT session only if allowed and connected |
| AgentIo.AgentSession.CleanupSessions | crates/agent/src/main.rs:701-720 | ends every session of both kinds and leaves both maps empty |
| ServerCache.ParseSnapshot | web/app/lib/server-cache.ts:66-88 | a parsed snapshot is fresh, of the asked scope, well formed and of at most 500 rows |
| ServerCache.StepKeeps | web/app/lib/server-cache.ts:101-190 | every step keeps the invariant: memory scopes are hydrated, and snapshots are well formed, bounded and fetched for their own scope, by this page or an earlier one |
| ServerCache.RunInv | web/app/lib/server-cache.ts:101-190 | the invariant holds after every run from any earlier page's storage |
| ServerCache.ReadReturns | web/app/lib/server-cache.ts:101-128 | a returned snapshot is within the freshness window, has at most 500 well-formed rows and was fetched for the asked scope, also when it was found in storage at page load |
| ServerCache.StepEntries | web/app/lib/server-cache.ts:101-190 | a step adds no cache entry but those of the load that publishes |
| ServerCache.LoadBorn | web/app/components/ServerDataProvider.tsx:144-152 | a load's generation and request id are those of the step that began it |
| ServerCache.OnlyCurrentLoadPublishes | web/app/components/ServerDataProvider.tsx:156-220 | a load that writes the cache is of the current identity, and no later load, clear or user change came between its beginning and the write |
| ServerCache.CompletedEffect | web/app/components/ServerDataProvider.tsx:178-220 | the last rows of a load that was not overtaken are stored, in memory and if they fit in storage, exactly if the identity matches, there is a scope and they are at most 500; otherwise the cache is as before |
| ServerCache.PublishesIffIdentity | web/app/components/ServerDataProvider.tsx:156-220 | a completed load that nothing superseded publishes if and only if the identity at its guard is the one it was for; memory and storage then hold exactly the rows that arrived if they are at most 500, and are otherwise as before |
| ServerCache.CookieDetourUnnoticed | web/app/components/ServerDataProvider.tsx:160-166 | a run in which the cookie changes and changes back while the rows are on their way, at most 500 of them, and memory then holds them |
| ServerCache.ClearsSupersede | web/app/lib/client-store.ts:98-118 | clearing everything, changing the user and generation-bumping clears all supersede running loads |
| ServerCache.StaysWiped | web/app/lib/server-cache.ts:173-190 | after a full clear or a user change, memory and storage never again hold anything loaded before it |
| ServerCache.StaysWipedScope | web/app/lib/server-cache.ts:165-190 | after a clear that covers a scope, what a read of it could find in memory or storage never again comes from an earlier load |
| ServerCache.NothingOldAfterClear | web/app/lib/client-store.ts:98-118 | after a full clear, a user change, a generation-bumping clear of the scope or a denied load for it, no read of that scope returns a list whose load began before |
| ServerCache.ServerLists.constructor | web/app/lib/server-cache.ts:28-30 | an empty memory cache over the given storage |
| ServerCache.ServerLists.ReadCachedServerList | web/app/lib/server-cache.ts:101-128 | memory first, storage once per scope, stale and malformed entries removed |
| ServerCache.ServerLists.WriteCachedServerList | web/app/lib/server-cache.ts:134-163 | nothing for another generation or a bad list; else memory, and storage if the text fits |
| ServerCache.ServerLists.ClearCachedServerList | web/app/lib/server-cache.ts:165-171 | forgets one scope on both levels, bumping the generation if asked |
| ServerCache.ServerLists.ClearAllCachedServerLists | web/app/lib/server-cache.ts:173-190 | forgets everything and bumps the generation |
| ServerCache.ServerLists.RemoveCacheKeys | web/app/lib/server-cache.ts:179-184 | the backward loop removes exactly the keys with the cache prefix and keeps the order of the others |
| ServerCache.ServerLists.BeginLoadServers | web/app/components/ServerDataProvider.tsx:144-152 | a new load takes the next request id and the current generation |
| ServerCache.ServerLists.OnFirstPage | web/app/components/ServerDataProvider.tsx:160-220 | the guards after the first page, denial, completion and the request for the remainder |
| ServerCache.ServerLists.OnRemainder | web/app/components/ServerDataProvider.tsx:199-220 | the guards after the remainder and the final write |
| LiveMerge.RateFromTotalDelta | web/app/lib/use-server-realtime.ts:265-275 | a derived rate is non-negative and times the elapsed seconds gives back the counter difference; undefined exactly for missing, unordered or reset counters |
| LiveMerge.LiveView.FlushLive | web/app/lib/use-server-realtime.ts:80-107 | the flush loop applies its events in order |
| LiveMerge.FlushBoundariesDoNotMatter | web/app/lib/use-server-realtime.ts:80-107 | any split of the events into flushes gives the same metrics |
| LiveMerge.MergedIsNewest | web/app/lib/use-server-realtime.ts:209-242 | the shown metrics are those of a newest event of the agent |
| LiveMerge.OrderIrrelevant | web/app/lib/use-server-realtime.ts:209-242 | two deliveries of the same events show the same metrics if the newest events agree |
| LiveMerge.DistinctTimesAgree | web/app/lib/use-server-realtime.ts:222 | distinct timestamps per agent are enough for that |
| LiveMerge.FirstNewestWins | web/app/lib/use-server-realtime.ts:222 | of equally new events the first delivered wins |
| LiveMerge.NewestFirst | web/app/lib/use-server-realtime.ts:222 | any newest event can be delivered first and is then what is shown |
| LiveMerge.OrderIrrelevantIff | web/app/lib/use-server-realtime.ts:209-242 | every reordering of the events shows the same metrics if and only if the newest events agree |
| LiveMerge.ReceivedAtNeverDecreases | web/app/lib/use-server-realtime.ts:222 | the shown timestamp of an agent never goes back and no agent disappears |
| LiveMerge.LastAdvanceShown | web/app/lib/use-server-realtime.ts:222 | what is shown for an agent is exactly the last event that advanced its view |
| LiveMerge.ReadingRate | web/app/lib/use-server-realtime.ts:232-235 | the rate shown after a reading covers exactly the rise of its counter since the one before, and nothing after a reset |
| LiveMerge.RatesCountRises | web/app/lib/use-server-realtime.ts:209-242 | for any delivery, the shown rates times their intervals add up to exactly the rises of the counter between the events that advanced the view, resets included |
| LiveMerge.InOrderAllAdvance | web/app/lib/use-server-realtime.ts:222 | readings of one agent delivered in order all advance its view |
| LiveMerge.RatesIntegrate | web/app/lib/use-server-realtime.ts:232-233 | for either direction and any delivery whose advancing events meter a counter that is never reset, the shown rates times their intervals add up to exactly the counter difference |
| Reconnect.StepKeeps | web/app/lib/use-server-realtime.ts:114-203 | every event keeps exactly one socket or timer on a visible page, none on a hidden or unmounted one, and the backoff bounds |
| Reconnect.AlwaysCovered | web/app/lib/use-server-realtime.ts:114-203 | in every reachable state sockets plus timers number one if visible and mounted, else none, although refs may be stale |
| Reconnect.LiveSocketHook.constructor | web/app/lib/use-server-realtime.ts:193-198 | mounting connects unless hidden |
| Reconnect.LiveSocketHook.Open | web/app/lib/use-server-realtime.ts:135-139 | connecting makes a new attached socket unless hidden or cancelled |
| Reconnect.LiveSocketHook.Teardown | web/app/lib/use-server-realtime.ts:114-133 | disarms the timer and detaches the socket the refs name |
| Reconnect.LiveSocketHook.OnOpen | web/app/lib/use-server-realtime.ts:140-144 | resets the backoff |
| Reconnect.LiveSocketHook.OnClose | web/app/lib/use-server-realtime.ts:171-177 | doubles the backoff up to 15 seconds and arms a timer unless hidden or cancelled |
| Reconnect.LiveSocketHook.OnTimer | web/app/lib/use-server-realtime.ts:176 | connects |
| Reconnect.LiveSocketHook.HandleVisibility | web/app/lib/use-server-realtime.ts:180-191 | tears down when hidden, reconnects when visible and uncovered |
| Reconnect.LiveSocketHook.OnUnmount | web/app/lib/use-server-realtime.ts:199-203 | cancels and tears down |
| ShellQuoting.ReplacedReadsBack | crates/server/src/main.rs:1324-1326 | inside single quotes the replaced text reads back as the original up to the closing quote, in any word |
| ShellQuoting.ShellQuoteRoundTrip | crates/server/src/main.rs:1324-1326 | in any place a quoted string adds exactly its text to the word it stands in, or begins one, and what follows is read on; alone it is exactly one word, also when empty |
| ShellQuoting.ExportLineCarriesValue | crates/server/src/main.rs:1126-1130 | the line is the command export with exactly one argument, the name, an equals sign and the value; after the equals sign comes exactly one word; without a value there is no word at all |
| ShellQuoting.TwoPassesCleanOnce | web/app/lib/security.ts:300-307 | dropping control characters and then bidi marks is dropping both at once |
| ShellQuoting.EscapeShellDoubleQuoted | web/app/lib/security.ts:298-309 | the loop and the replacements give the escaped cleaned text, empty for no value |
| ShellQuoting.EscapedReadsBack | web/app/lib/security.ts:306-308 | inside double quotes the escaped text reads back as the original: no expansion, no early end |
| ShellQuoting.EscapedArgumentIsOneWord | web/app/lib/security.ts:298-309 | in double quotes it is exactly one word, the cleaned text, also when empty, and in any place adds that text to its word |
| Base64.Base64Encode | crates/agent/src/main.rs:2405-2432 | the loop with its two tails gives the encoding of the bytes |
| Base64.PushGroup | crates/agent/src/main.rs:2411-2414 | appends the four characters of a 24-bit group |
| Base64.AlphabetValue | crates/agent/src/main.rs:2406 | every character of the alphabet decodes to its index and none is padding |
| Base64.GroupBytes | crates/agent/src/main.rs:2409-2416 | a full group decodes to its three bytes |
| Base64.EncodedLength | crates/agent/src/main.rs:2407 | the output has four characters per started three bytes |
| Base64.RoundTrip | crates/agent/src/main.rs:2405-2432 | a strict RFC 4648 decoder gives back the bytes |
| Base64.PaddingAtEnd | crates/agent/src/main.rs:2418-2430 | padding is only among the last two characters and only for incomplete groups |
| WorkerPool.ClaimKeeps | web/app/lib/concurrency.ts:12-14 | claiming keeps the pool's invariant |
| WorkerPool.ResumeKeeps | web/app/lib/concurrency.ts:11-17 | storing a result and claiming on keeps the invariant |
| WorkerPool.StartedInv | web/app/lib/concurrency.ts:19-20 | starting the workers one after the other establishes it |
| WorkerPool.PoolCorrect | web/app/lib/concurrency.ts:6-21 | for every limit and interleaving: never more mappers than the worker count, no two on one index, and on completion every result is its own item's |
| WorkerPool.EachIndexClaimedOnce | web/app/lib/concurrency.ts:11-17 | in every interleaving the mapper is called on 0, 1, 2 and so on, each once, and a worker returns only when all are claimed |
| WorkerPool.ResumeFinishesOne | web/app/lib/concurrency.ts:15 | each resumption finishes one unfinished index for good |
| WorkerPool.RunToCompletion | web/app/lib/concurrency.ts:11-20 | any schedule that resumes some waiting worker ends after exactly n resumptions |
| WorkerPool.MapWithConcurrency | web/app/lib/concurrency.ts:1-22 | the result is the mapping of every item, in place |

## Left out

- React components, navigation, dialogs, charts, maps, translations and themes: user interface without state machines of their own.
- HTTP, gRPC, WebSocket and database plumbing, TLS setup, DNS and probe execution: input and output over libraries.
- Secret encryption and its migration (crates/server/src/secrets.rs) and the address and header tables of crates/server/src/security.rs are not modelled.
- Client cache: abort signals of single waiters, `downloadFile`, `callMcpJsonRpc` and the learned verb of legacy endpoints do not touch the cache and are not modelled; response contents are represented by the request that fetched them.
- Metric store: times are integers, overflow fallbacks of the date library are not represented, `list_agents` is a set because the source returns it in hash order.
- MetricStore.ReadsAgreeOnForwardRuns: makes no claim after the retention is raised, because dropped samples do not come back; the exact condition is ReadsAgreeExactlyFromHighWater.
- FileExecutor.Executor.ListWalk: sizes, modes and times of entries are not represented, because the tree does not hold them, and reading a link's target always succeeds.
- FileExecutor.Executor.ListFiles: the same as ListWalk.
- File writes: nobody moves or replaces the file while its handle is open; setting a file mode either succeeds or fails and is not otherwise represented.
- File tree: hard links, mount points and interference inside one walk are excluded; a trailing slash or `.` after a non-directory is treated as absent when a path is resolved; 40 symbolic links are followed, as on Linux; branches for systems other than Unix are not modelled.
- TableOrder.OrderedTables: visits tables and parents in any order, where the source sorts them first; the results hold for every order.
- Importer: the conversion of single values is a parameter, a table has at least one column in the round trip, and truncation and emptiness checks are SQL text only.
- Remote configuration: URL parsing is a parameter; rewriting the file is a flag that says whether it succeeded.
- Agent streams: sequence numbers and frame texts are not represented; nothing is claimed about the order of a NAT session's ready message and its first data, nor about when a finished reader's entry leaves the map.
- ServerCache.OnlyCurrentLoadPublishes: a change of the cookie alone does not count as superseding, because the source compares identities only at its guards; PublishesIffIdentity is the exact condition.
- Server cache: storage is available and never full, one provider is mounted, and events from other tabs are not modelled; URL encoding of scopes is an arbitrary function.
- Live metrics: timestamps are parseable and numbers are reals; unparseable timestamps fall back to the local clock in the source.
- Shell text: strings hold no NUL; the reader refuses unquoted special characters instead of giving them their meaning, so it reads simple commands only.
- WorkerPool.MapWithConcurrency: mappers that reject and limits that are not integers are not modelled.
