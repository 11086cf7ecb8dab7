# Verification of the megascope index engine

This project models the core of vycor-cpp's `megascope` engine in Dafny and
proves what it is for. The engine keeps a program index made of three
refcounted, per-translation-unit indexes (call graph, control flow, channels),
stores it in a compact file, refreshes it in place, merges it, and answers
questions about call paths, exceptions and dead code.

`dafny verify dfyconfig.toml` checks everything. There is nothing to run.

| component | files |
|---|---|
| call-path search | `PathSpec`, `Corridor`, `PathSearch`, `CallerPaths`, `CanonicalOrder`, `GraphSearch` |
| call graph and its queries | `GraphTypes`, `Interner`, `Registry`, `RefTable`, `Rows`, `Ledger`, `CallGraph`, `Relations`, `CallQueries` |
| channel index | `ChannelIndex` |
| control-flow index | `FlowTypes`, `Codec`, `SetTables`, `FlowIndex`, `CountingSort`, `MappedIndex` |
| snapshot bytes | `Codec`, `FlowSnapshot`, `MappedBytes`, `MappedReads`, `ChannelSnapshot`, `GraphCodec`, `GraphSnapshot` |
| refresh and merge | `Ledger`, `GraphRefresh`, `Refresh`, `Merge`, `Staleness` |
| exception analysis | `ContextVisitor`, `LexicalContext`, `Unwinding`, `HandlerRuns`, `Oracle`, `ThrowRuns`, `NearestCatch` |
| dead code | `DeadCode` |
| publication, paths as text | `Publication`, `IndexText` |

How things are modelled:

- Strings are interned to ids by position. A method that holds a mutex in the
  source is one atomic step. An edge is identified by all its fields but the
  reference count.
- An index refines a *ledger*: the registrations still standing, each made by a
  translation unit or untagged. `CallGraph.regs`, `ChannelIndex.regs` and
  `ControlFlowIndex.Contents()` are the ledgers; `Ledger.dfy` has their algebra.
- Calls into the operating system, the frontend and hash functions are inputs:
  file stamps, statement trees, parsed contexts, exception subtyping.

Five promises of the source turned out to need a condition. The code is modelled
as it is, and both sides are proved:

- **Complete path search.** A target that is itself a start and has no caller
  leading to a start is remembered as a dead end at depth 0, so a later target
  loses the paths that begin there (`src/callgraph/PathSearch.cpp:168-170, 245-249`). The result is
  complete exactly if no target shadows a later one
  (`CallerPaths.FindCallerPaths`); `GraphSearch.ShadowRun` is a search that reports
  a complete result and has lost a path.
- **Mapped answers like resident.** A removal leaves an empty bucket in the maps
  by usr (`src/callgraph/ControlFlowIndex.cpp:920-927`), which blocks the fallback to display
  names. The forms agree exactly if no such bucket hides a name
  (`MappedReads.CompareSaved`, `MappedIndex.LeaveEmptyBucket`).
- **Recorded scopes are the unwinding scopes.** The visitor hides outer tries from
  lambda bodies but not from member functions of classes declared inside a
  function (`src/callgraph/ControlFlowContextVisitor.cpp:256-290, 292-315`), and the scope loop
  agrees with a run only if those foreign scopes catch nothing
  (`HandlerRuns.ScopeLoopAgrees`, `HandlerRuns.LocalFunctionExample`).
- **A marked handler passes the exception on.** The mark means that a bare `throw;`
  stands somewhere in the handler (`src/callgraph/ControlFlowContextVisitor.cpp:351-369`). Run
  as C++ runs it, a handler without the mark never rethrows, so a handler the scope
  loop reports is final; but a marked one may keep the exception. The loop tells
  exactly what happens if and only if every marked handler on the way always passes
  it on (`HandlerRuns.ScopeLoopIsUnwinding`); a nested try or a lambda in the handler
  are cases where it does not (`HandlerRuns.NestedTryExample`, `HandlerRuns.LambdaExample`).
- **Atomic publication.** A writer that could not get the lock may lose its temp
  to a sweep and then rename another writer's temp of the same name. Every run keeps
  the index whole exactly if no run takes the temp name of a running writer
  (`Publication.PublishedExactlyWithoutClash`, `Publication.ClashExample`), and always if
  every save holds the lock (`Publication.LockedAlwaysPublished`).

## Model

| member | source | states |
|---|---|---|
| PathSpec.PathsExact | src/callgraph/PathSearch.cpp:157-250 | the plain depth-first enumeration lists exactly the reverse paths that repeat nothing, within the depth, and around hubs when pruning |
| PathSpec.PathsNoDuplicates | src/callgraph/PathSearch.cpp:157-250 | the enumeration lists no path twice |
| Corridor.BuildCorridor | src/callgraph/PathSearch.cpp:309-331 | the frontier loop computes, for every node, the fewest admitted edges from a start; absent nodes are unreachable |
| PathSearch.Search.Dfs | src/callgraph/PathSearch.cpp:157-250 | with corridor, dead-node memo and limits, one call adds exactly the plain enumeration of its subtree, or a prefix of it when stopped, keeps the memo sound, spends one visit per path and at most one per walk, sets the depth stop only if a longer walk exists, and is truncated only with something left unexplored |
| PathSearch.WalksAreCounted | src/callgraph/PathSearch.cpp:166-166 | the work bound of a target is the number of its admitted reverse walks that repeat nothing, the empty one included |
| PathSearch.Search.HasCorridorCaller | src/callgraph/PathSearch.cpp:147-155 | true exactly if an admitted caller can be reached from a start |
| PathSearch.Search.SearchTarget | src/callgraph/PathSearch.cpp:339-353 | searching one target adds its paths for the starts not yet written off |
| CallerPaths.FindCallerPaths | src/callgraph/PathSearch.cpp:282-355 | lists only call paths, each once and within the limits; complete means every call path within the depth exactly if no start target shadows a later target; exhaustive means every call path of any length; every stop has its reason, the work is at most the number of walks, and limits that are off or not reached never stop the search |
| CallerPaths.NothingShadowed | src/callgraph/PathSearch.cpp:333-353 | one target, or no target among the starts, is enough for completeness |
| CallerPaths.CallPathIsReversePath | src/callgraph/PathSearch.cpp:108-117 | a call path read backwards is a path of the reverse walk |
| GraphSearch.ShadowExample | src/callgraph/PathSearch.cpp:168-170 | a graph with one call on which two targets shadow a path |
| GraphSearch.ShadowRun | src/callgraph/PathSearch.cpp:333-353 | without limits the search of that graph reports a complete result that lacks its only call path |
| GraphSearch.Tabulate | src/callgraph/PathSearch.cpp:132-139 | the tables are the answers of the queries, callers in canonical order; they show exactly the calls, the same forwards and backwards |
| GraphSearch.FindSimplePaths | src/callgraph/PathSearch.cpp:282-355 | the answer of the search over the graph's own queries: lists only call chains, and when exhaustive every chain of calls from a start to the target on which no function repeats |
| CanonicalOrder.SortCallers | src/callgraph/PathSearch.cpp:261-280 | a strictly ascending rearrangement of the callers |
| CanonicalOrder.TextLessMeans | src/callgraph/PathSearch.cpp:261-280 | texts are ordered by their first difference, a prefix first |
| CanonicalOrder.AscendingUnique | src/callgraph/PathSearch.cpp:127-131 | the canonical order of a set of callers is unique, so it does not depend on insertion order or ids |
| CallGraph.CallGraph.AddEdge | src/callgraph/CallGraph.cpp:196-234 | adds one registration to the ledger and keeps counts, adjacency, content index and unit lists in step with it |
| CallGraph.CallGraph.Absorb | src/callgraph/CallGraph.cpp:640-727 | the ledger becomes the sum of both ledgers, in terms of strings |
| CallGraph.CallGraph.RemoveTUs | src/callgraph/CallGraph.cpp:772-862 | the ledger loses exactly the registrations of the given units, and the result counts the edges that went |
| CallGraph.CallGraph.Compact | src/callgraph/CallGraph.cpp:864-907 | the live edges stay, in their order, and the ledger is unchanged |
| Relations.TransitiveClosure | src/callgraph/CallGraph.cpp:236-258 | lists each id reachable from the start, other than the start itself, once |
| Relations.ReachTransposed | src/callgraph/CallGraph.cpp:236-258 | reachability in a relation is reachability backwards in its transpose |
| Relations.Relations.AddMethodOverride | src/callgraph/CallGraph.cpp:520-536 | adds the pair to the overrides and keeps the reverse map their transpose |
| Relations.Relations.AddFunctionReturn | src/callgraph/CallGraph.cpp:611-623 | adds the pair to the returns and keeps the reverse map their transpose |
| Relations.Relations.AbsorbOverrides | src/callgraph/CallGraph.cpp:739-763 | takes over the shard's renamed pairs and no others |
| Relations.Relations.AbsorbReturns | src/callgraph/CallGraph.cpp:739-763 | takes over the shard's renamed pairs and no others |
| CallQueries.CalleeRefsOf | src/callgraph/CallGraph.cpp:260-319 | shows exactly the calls out of a function; first every stored call with its own attributes, then edges redirected from stored dispatches and joins with theirs, each landing once |
| CallQueries.CallerRefsOf | src/callgraph/CallGraph.cpp:336-399 | shows exactly the calls into a function by the same definition, stored ones first and as stored, expanded ones only from call sites not there yet, and no edge twice |
| Ledger.RefreshIsBake | src/main.cpp:1774-1823 | removing the dropped and dirty units and adding a bake of the dirty ones gives the bake of the current units |
| Ledger.BakeUnique | src/main.cpp:1774-1823 | a bake of a set of units is determined up to order |
| Ledger.MergeCountsOnce | src/callgraph/Snapshot.cpp:1707-1749 | a merge holds, for every unit, exactly what the first shard listing it registered, and nothing if that shard lists it twice |
| Ledger.SeenShardIsNoOp | src/callgraph/Snapshot.cpp:1726-1731 | a shard whose files were all seen changes nothing |
| Ledger.RepeatedFileIsLost | src/callgraph/Snapshot.cpp:1709-1737 | a file listed twice in one shard loses its registrations |
| GraphRefresh.SameGraph | src/callgraph/CallGraph.cpp:196-234 | graphs with the same ledger store the same edges with the same counts, whatever their ids |
| GraphRefresh.SameLists | src/callgraph/CallGraph.cpp:224-225 | graphs with the same ledger list the same edges at each name, in lists of the same length |
| GraphRefresh.SameLiveCount | src/callgraph/CallGraph.cpp:228-228 | graphs with the same ledger have the same live count |
| GraphRefresh.BakesAgree | src/main.cpp:1774-1823 | a refreshed graph stores what a clean build stores |
| Refresh.WarmRefresh | src/main.cpp:1774-1823 | after the refresh all three indexes hold the bake of the current units, and channel sites have their old details or newly baked ones |
| Merge.MergeSnapshots | src/callgraph/Snapshot.cpp:1627-1769 | fails exactly without inputs or, unless allowed, when configurations or recorded environments differ; otherwise every unit has in all three indexes what the first input listing it registered |
| ChannelIndex.ChannelIndex.AddSiteRefs | src/callgraph/ChannelIndex.cpp:58-97 | adds the registrations to the ledger and keeps counts, lists, unit lists and the least contributing unit of each site |
| ChannelIndex.ChannelIndex.AddSite | src/callgraph/ChannelIndex.cpp:42-56 | adds one registration |
| ChannelIndex.ChannelIndex.Absorb | src/callgraph/ChannelIndex.cpp:175-226 | the ledger becomes the sum of both, per unit and site; sites keep their details and new ones have the shard's |
| ChannelIndex.ChannelIndex.RemoveTUs | src/callgraph/ChannelIndex.cpp:232-317 | the ledger loses exactly the given units, every surviving site shows its least remaining contributor and keeps its details |
| ChannelIndex.ChannelIndex.Compact | src/callgraph/ChannelIndex.cpp:319-362 | the live sites stay, in their order, and the ledger is unchanged |
| ChannelIndex.ChannelIndex.ProducersOf | src/callgraph/ChannelIndex.cpp:99-112 | returns each live producing site of the channel once |
| ChannelIndex.ChannelIndex.ConsumersOf | src/callgraph/ChannelIndex.cpp:114-127 | returns each live consuming site of the channel once |
| ChannelIndex.ChannelIndex.SitesForFunction | src/callgraph/ChannelIndex.cpp:129-148 | returns each live site of a function, by usr or display name, once |
| SetTables.KeysInjective | src/callgraph/ControlFlowIndex.cpp:83-123 | scope, guard and RAII keys determine their sets |
| SetTables.TableCanonical | src/callgraph/ControlFlowIndex.cpp:184-235 | two set ids are equal exactly if the sets are |
| SetTables.InternSet | src/callgraph/ControlFlowIndex.cpp:184-235 | gives the id of the set, adds it only if it is new, and keeps the meaning of every id |
| FlowIndex.ControlFlowIndex.InsertStored | src/callgraph/ControlFlowIndex.cpp:237-265 | appends one context to the contents and lists it under each of its keys |
| FlowIndex.ControlFlowIndex.AddCallSiteContext | src/callgraph/ControlFlowIndex.cpp:267-336 | the contents gain exactly the given context, with usrs defaulting to display names |
| FlowIndex.StoredMeans | src/callgraph/ControlFlowIndex.cpp:338-358 | a context stored under interned ids and sets is materialized as it was given |
| FlowIndex.EntriesGrow | src/callgraph/ControlFlowIndex.cpp:338-358 | growing the string and set tables changes no materialized context |
| FlowIndex.ControlFlowIndex.Absorb | src/callgraph/ControlFlowIndex.cpp:792-840 | the contents become both contents in sequence, after renaming strings and sets |
| FlowIndex.ControlFlowIndex.RemoveTUs | src/callgraph/ControlFlowIndex.cpp:846-945 | the contents lose exactly the contexts of the given units and the untagged ones whose site lies in one of those files |
| FlowIndex.RemainingIsWithout | src/callgraph/ControlFlowIndex.cpp:881-899 | with every context tagged, a removal is a filter by unit |
| FlowIndex.ControlFlowIndex.Compact | src/callgraph/ControlFlowIndex.cpp:947-990 | the contents are unchanged, and no tombstone or empty bucket is left |
| CountingSort.OrderBy | src/callgraph/Snapshot.cpp:658-668 | the result is the stable grouping of the items by key, and a rearrangement of them |
| CountingSort.Range | src/callgraph/ControlFlowIndex.cpp:455-486 | the range is inside the array, and on sorted keys holds exactly the places of the id |
| CountingSort.RangeIsSelection | src/callgraph/ControlFlowIndex.cpp:455-486 | the range of a key in the sorted array is the items with that key, in their order |
| MappedIndex.Save | src/callgraph/Snapshot.cpp:649-736 | writes the live records sorted by site and the lookup arrays sorted by name |
| MappedIndex.FindId | src/callgraph/ControlFlowIndex.cpp:499-522 | bisection finds the id of a string exactly if the table has it |
| MappedIndex.RangeIn | src/callgraph/ControlFlowIndex.cpp:455-486 | never leaves the array; on a saved array gives the positions the hash map lists |
| MappedIndex.MappedAtSite | src/callgraph/ControlFlowIndex.cpp:530-547 | the same sequence of contexts for a site as the resident form |
| MappedIndex.ResidentAtSite | src/callgraph/ControlFlowIndex.cpp:530-547 | the contexts of a site in the order they were added |
| MappedIndex.MappedByName | src/callgraph/ControlFlowIndex.cpp:549-570 | the contexts with that usr, or else that display name, up to order |
| MappedIndex.ResidentByName | src/callgraph/ControlFlowIndex.cpp:571-583 | the same, unless an empty usr bucket blocks the display names |
| MappedIndex.Compare | src/callgraph/ControlFlowIndex.cpp:530-583 | both forms agree on every site, and on a name exactly if no empty bucket blocks it |
| MappedIndex.LeaveEmptyBucket | src/callgraph/ControlFlowIndex.cpp:920-927 | removing every context of a usr leaves such a bucket |
| Codec.Reader.Need | src/callgraph/Snapshot.cpp:83-89 | failure is sticky and no byte past the end is promised |
| Codec.Reader.ReadU32 | src/callgraph/Snapshot.cpp:97-104 | reads back an emitted word; the cursor stays inside and failure gives zero |
| Codec.Reader.Text | src/callgraph/Snapshot.cpp:115-138 | reads back an emitted string; anything that is not text fails the reader |
| Codec.Reader.Count | src/callgraph/Snapshot.cpp:140-149 | an accepted count is at most the bytes left |
| FlowSnapshot.LoadFlow | src/callgraph/Snapshot.cpp:1096-1278 | for any bytes an accepted section has only valid ids; emitted bytes give back the saved tables and records, and are refused with anything after them |
| FlowSnapshot.RoundTrip | src/callgraph/Snapshot.cpp:572-737 | saving, emitting, loading and installing gives an index with the same contexts, and for every site the same sequence |
| GraphCodec.LoadGraph | src/callgraph/Snapshot.cpp:946-1090 | for any bytes an accepted section has only valid ids and no dead edge; emitted bytes give back strings, nodes, edges and relations, and are refused with anything after them |
| GraphSnapshot.RoundTrip | src/callgraph/Snapshot.cpp:454-570 | saving, emitting, loading and installing gives the same strings, the same ledger, the live edges in their order, each relation with its order, and reverse maps that match |
| GraphSnapshot.SameCalls | src/callgraph/Snapshot.cpp:1018-1084 | a loaded graph shows exactly the calls of the saved one, dispatch and returned pointers included |
| GraphSnapshot.RowsOf | src/callgraph/Snapshot.cpp:490-525 | the rows are the live edges in order, and stand for the ledger, each unit as often as it registered |
| GraphSnapshot.InstallEdge | src/callgraph/Snapshot.cpp:1034-1045 | installing a row directly adds its tagged and untagged registrations and keeps every index in step |
| ChannelSnapshot.LoadRows | src/callgraph/Snapshot.cpp:1283-1347 | an accepted section has no site without registrations or with more units than registrations; emitted bytes give back the rows, and are refused with anything after them |
| ChannelSnapshot.RoundTrip | src/callgraph/Snapshot.cpp:739-786 | saving, emitting, loading and installing gives the same ledger and the same live sites, with their guards and least unit |
| ChannelSnapshot.InstallRow | src/callgraph/Snapshot.cpp:1320-1339 | installing a row directly, represented by the first of its sorted units, adds its registrations and keeps every list and representative right |
| Rows.UnitsOf | src/callgraph/Snapshot.cpp:490-499 | inverting the unit lists gives for a record each unit as often as it registered it |
| FlowSnapshot.SortKeepsOrder | src/callgraph/Snapshot.cpp:658-668 | the sort keeps the order within each key |
| FlowSnapshot.OffsetFinds | src/callgraph/Snapshot.cpp:586-596 | at the recorded offset of an id stands that id's string |
| MappedBytes.Attach | src/callgraph/ControlFlowIndex.cpp:364-410 | accepted means every array has its bytes; the emitted region is cut into the saved arrays |
| MappedBytes.RegionOfSection | src/callgraph/Snapshot.cpp:669-736 | the region the reader maps is the tail of what a save emits |
| MappedBytes.StringBack | src/callgraph/ControlFlowIndex.cpp:412-423 | a string read in place is the saved string |
| MappedReads.FieldsBack | src/callgraph/ControlFlowIndex.cpp:425-453 | every field of a record read in place is the saved one |
| MappedReads.MappedRecord | src/callgraph/ControlFlowIndex.cpp:425-453 | defined at any position of any accepted region; a live record has only ids and sets that mean something |
| MappedReads.ByteRange | src/callgraph/ControlFlowIndex.cpp:455-486 | reads only inside an accepted region, whatever words its arrays hold, and on sorted keys finds exactly the range of the id |
| MappedReads.ByteFindId | src/callgraph/ControlFlowIndex.cpp:499-522 | bisects any accepted region; on ids in string order finds the id exactly if there is one |
| MappedReads.ByteAtSite | src/callgraph/ControlFlowIndex.cpp:530-547 | total on accepted regions; where they show a saved index, the contexts of the site in order |
| MappedReads.ByteByName | src/callgraph/ControlFlowIndex.cpp:549-570 | total on accepted regions; where they show a saved index, the contexts with that usr or else display name |
| MappedReads.LoadMapped | src/callgraph/Snapshot.cpp:1096-1228 | whatever the bytes, an accepted section has full arrays and checked set tables; emitted bytes attach as the saved arrays |
| MappedReads.SeenIsSaved | src/callgraph/Snapshot.cpp:657-736 | all that is seen of an attached save, strings, records and arrays, is what was saved |
| MappedReads.CompareSaved | src/callgraph/ControlFlowIndex.cpp:530-583 | over the bytes a save emits both forms give the contexts of every site in order, and agree on a name exactly if no empty bucket blocks it |
| Staleness.RecordDependencies | src/callgraph/Snapshot.cpp:1551-1575 | every opened file has an entry no newer than any parse saw it |
| Staleness.MarkUnstable | src/callgraph/Snapshot.cpp:1520-1538 | forgets exactly the stamps in or after the bake's second |
| Staleness.RecordBake | src/callgraph/Snapshot.cpp:1520-1575 | the meta of a bake: shared dependency table, then marks |
| Staleness.DirtyTUs | src/callgraph/Snapshot.cpp:1430-1518 | a unit is clean exactly if its last entry vouches for it: own stamp, fingerprint, dependencies and outcome |
| Staleness.CleanMeansUnchanged | src/callgraph/Snapshot.cpp:1384-1391 | a clean unit and every file its parse opened are still there with the version the parse saw, also where stamps were carried through refreshes |
| Staleness.UnchangedMeansClean | src/callgraph/Snapshot.cpp:1384-1395 | the converse: a unit whose own file and opened files have the stamps its parse saw, settled before the bake and seen alike by all parses, is vouched for |
| Staleness.BakeThenCheck | src/callgraph/Snapshot.cpp:1430-1575 | after a bake the next check reports no unit dirty that was indexed under the same inputs and whose files are untouched |
| Staleness.DependenciesOf | src/callgraph/Snapshot.cpp:1540-1549 | the recorded stamps of every unit, entry by entry |
| Staleness.RefreshKeepsStamps | src/main.cpp:1770-1791 | a refresh that carries the stamps of clean units and takes those of re-baked ones keeps what that theorem needs |
| Publication.AlwaysPublished | src/callgraph/AtomicFile.cpp:70-122 | over all interleavings and crashes without a reused temp name the index holds its old contents or one writer's complete body |
| Publication.SafeExactlyWithoutClash | src/callgraph/AtomicFile.cpp:70-122 | from any reachable state a step is safe for all that can follow exactly if it takes no running writer's temp name |
| Publication.PublishedExactlyWithoutClash | src/callgraph/AtomicFile.cpp:70-142 | however temp names are chosen, every run keeps the index whole exactly if no run ever takes a running writer's temp name |
| Publication.LockedAlwaysPublished | src/callgraph/AtomicFile.cpp:160-211 | if every save holds the lock this needs no assumption about temp names |
| Publication.SweepSparesHolders | src/main.cpp:1401-1430 | whatever names are reused, a sweep runs only while the lock holder is the sweeper and has no temp |
| Publication.HolderKeepsTemp | src/main.cpp:1401-1430 | without a reused name the temp of a running lock holder is there and is its own |
| Publication.ClashExample | src/callgraph/AtomicFile.cpp:124-142 | a run with a reused temp name that publishes a partial index |
| IndexText.ToIndexText | scripts/utf8-paths-check.py:72-93 | the text stands for exactly the raw bytes, an entry is an escape exactly if no ordinary code point starts at its bytes, and ordinary UTF-8 is unchanged |
| IndexText.EconomicalUnique | scripts/utf8-paths-check.py:72-93 | only one text stands for given bytes and escapes just that |
| IndexText.FromIndexText | scripts/utf8-paths-check.py:96-105 | gives the bytes the text stands for |
| IndexText.RoundTrip | scripts/utf8-paths-check.py:72-105 | every byte string comes back |
| IndexText.EncodeDecode | include/vycor/callgraph/Utf8.h:82-112 | a slice that decodes strictly is the encoding of its code point |
| FlowTypes.MatchingHandler | src/callgraph/ControlFlowOracle.cpp:169-180 | the first handler in source order that matches |
| FlowTypes.UnwindScopes | src/callgraph/ControlFlowOracle.cpp:276-289 | the innermost scope whose matching handler does not rethrow, and the handlers that passed the exception on |
| ContextVisitor.Visitor.Traverse | src/callgraph/ControlFlowContextVisitor.cpp:292-475 | a traversal records the lexical context of each call and puts its stacks back |
| LexicalContext.VisitFunction | src/callgraph/ControlFlowContextVisitor.cpp:292-475 | a function gets one context per call: the tries and ifs around it innermost first, true in the then part, the assertions and locals before it in open blocks, nothing from outside a lambda, the handler mark and the specification of its frame |
| LexicalContext.ContextIsLexical | src/callgraph/ControlFlowContextVisitor.cpp:738-876 | the stacks of the walk at a call are what its place in the tree gives |
| ContextVisitor.Visitor.BuildContext | src/callgraph/ControlFlowContextVisitor.cpp:841-876 | the context is the stacks: tries and guards innermost first, locals outermost first |
| ContextVisitor.Visitor.SnapshotGuards | src/callgraph/ControlFlowContextVisitor.cpp:738-757 | enclosing guards innermost first, then the assertions in force |
| ContextVisitor.Visitor.TraverseTry | src/callgraph/ControlFlowContextVisitor.cpp:319-349 | the body is inside the try, the handlers outside it |
| ContextVisitor.Visitor.TraverseLambda | src/callgraph/ControlFlowContextVisitor.cpp:292-315 | a lambda body sees none of the constructs around it |
| Unwinding.ScopeLoopByFlags | src/callgraph/ControlFlowOracle.cpp:276-289 | the scopes of the call's own frame select what the marks of its enclosing tries say |
| HandlerRuns.QuietNeverPasses | src/callgraph/ControlFlowContextVisitor.cpp:351-369 | no run of a block without a bare throw lets the handled exception out |
| HandlerRuns.ScopeLoopAgrees | src/callgraph/ControlFlowOracle.cpp:276-289 | a handler the loop reports is final in every run, a run otherwise ends earlier at a marked handler, and all recorded scopes tell exactly what happens if and only if the marks on the way are true and no foreign scope catches |
| HandlerRuns.ScopeLoopIsUnwinding | src/callgraph/ControlFlowContextVisitor.cpp:319-349 | without local functions the loop names the only end of all runs exactly if every marked handler on the way always rethrows |
| HandlerRuns.FalseMark | src/callgraph/ControlFlowContextVisitor.cpp:351-369 | around a marked handler that never passes the exception on, the loop says it escapes and it never does |
| HandlerRuns.NestedTryExample | src/callgraph/ControlFlowContextVisitor.cpp:351-354 | a rethrow into a nested try makes such a handler |
| HandlerRuns.LambdaExample | src/callgraph/ControlFlowContextVisitor.cpp:351-354 | so does a rethrow in a lambda the handler only defines |
| HandlerRuns.LocalFunctionExample | src/callgraph/ControlFlowContextVisitor.cpp:256-290 | a call in a local class's member is recorded under a try that no run reaches |
| Oracle.Propagate | src/callgraph/ControlFlowOracle.cpp:219-315 | the outcome of a path is decided by the first frame outward that stops the exception, with the handler it picks and the marked handlers met on the way |
| Oracle.OuterHop | src/callgraph/ControlFlowOracle.cpp:236-315 | a longer path changes no outcome but Uncaught |
| Oracle.EndsOnce | src/callgraph/ControlFlowOracle.cpp:219-315 | a path has one outcome |
| Oracle.QueryExceptionProtection | src/callgraph/ControlFlowOracle.cpp:335-384 | each of the seven verdicts holds exactly for its combination of listed outcomes and exhaustiveness; the universal ones hold of every call path of any length, every verdict has a witness, and no universal verdict is withheld |
| ThrowRuns.OutcomeIsRun | src/callgraph/ControlFlowOracle.cpp:219-315 | running the functions on a path, every throw ends like the path's outcome or is caught before; a caught path is caught in every run, and with true marks the outcome is what happens |
| ThrowRuns.AlwaysCaughtIsSafe | src/callgraph/ControlFlowOracle.cpp:366-384 | if every path is caught, no run on any path of calls lets the exception out |
| NearestCatch.QueryNearestCatches | src/callgraph/ControlFlowOracle.cpp:419-531 | each report is a protected call above a shortest chain of unprotected ones, no call is reported twice, every protected call within the bound, or at all when complete, is reported, and the depth stop is set exactly if a function at the bound has callers |
| NearestCatch.ChainFrom | src/callgraph/ControlFlowOracle.cpp:458-473 | rebuilding ends, and gives an unprotected chain as long as the function is far |
| DeadCode.Bfs | src/check/DeadCodeAnalyzer.cpp:38-163 | finds everything that has a derivation from the seeds and nothing that has none; closed under the liveness rules and the least solution when dispatch edges are proven or plausible |
| DeadCode.LeastUnique | src/check/DeadCodeAnalyzer.cpp:100-162 | the least solution does not depend on the order of the walk |
| DeadCode.PessimisticWithin | src/check/DeadCodeAnalyzer.cpp:28-36 | the pessimistic set is part of any optimistic answer |
| DeadCode.OneAnswerExactly | src/check/DeadCodeAnalyzer.cpp:124-128 | with undetermined dispatch edges the rules of the walk admit one answer exactly if the least solution without those edges obeys them |
| DeadCode.UndeterminedGap | src/check/DeadCodeAnalyzer.cpp:124-128 | dispatch edges that are neither proven nor plausible make the solutions differ |
| DeadCode.Analyzer.AnalyzePessimistic | src/check/DeadCodeAnalyzer.cpp:28-31 | stores the least set live over proven edges |
| DeadCode.Analyzer.AnalyzeOptimistic | src/check/DeadCodeAnalyzer.cpp:33-36 | stores an optimistic solution that contains the pessimistic set |

## Left out

- Node tables (except their bytes), display-name resolution and class hierarchies of the call graph; targets, starts and entry points are given as ids.
- The read-only graph mode, the edge insert hook and the per-search cache of sorted callers.
- The call graph's edges and its override and return relations are two classes here; in the source they are one, under one lock.
- CallQueries.CalleeRefsOf: which of several stored edges gives a synthesized edge its attributes is not specified; the first one wins in the source.
- The meta section of a snapshot, its header and its checksums; the graph, control-flow and channel sections are modelled byte for byte.
- GraphSnapshot.RoundTrip: nodes, derived classes and effective implementation classes are carried as rows, because the graph class here does not hold them; relation keys and contributor lists are written in any order where the source sorts them.
- GraphCodec.LoadGraph: a byte that is no edge kind, confidence or execution context reads as the last one; the source keeps the raw value.
- ChannelSnapshot.InstallRow: rows with distinct keys and sorted, named units, as a save writes them; the source installs other accepted rows as they come.
- ChannelSnapshot.LoadRows: an operation byte other than 0 reads as consume; the source keeps the raw value.
- GraphSnapshot.InstallEdge: rows with distinct edges and no more units than registrations, as a save writes them; the source installs other accepted rows as they come.
- FlowSnapshot.LoadFlow: a byte that is no RAII kind or exception specification reads as the last one; the source keeps the raw value.
- ChannelIndex.ChannelIndex.Absorb: the units of a site are replayed in any order; the source sorts them first.
- ChannelIndex.ChannelIndex.AddSiteRefs: the liveness flag of a stored site is not kept beside its count, because a site is live exactly while its count is positive.
- ContextVisitor.Visitor.Traverse: collapse filters, system-code checks and channel recording are not part of the statement model; blocks of handlers, lambdas and functions are statement lists.
- CallerPaths.FindCallerPaths: filters are taken to look at caller, callee and call site only; with one that looks at the attributes of an edge the forward and the reverse view of a call may be admitted differently, and nothing is claimed.
- Corridor.BuildCorridor: the same filters.
- HandlerRuns.ScopeLoopAgrees: a handler block is run with calls that return; a function called by the handler that rethrows, and a lambda that is called where it is defined, are not followed.
- Oracle.QueryExceptionProtection: outcomes are read from the recorded scopes and their marks; by the results of `HandlerRuns` a catch so found is final, while an escape may end earlier in a marked handler.
- DeadCode.UndeterminedGap: compares the two solutions; which of them a walk returns there depends on the order of the edges.
- Oracle.Propagate: the explanatory notes and the stop locations.
- ThrowRuns.OutcomeIsRun: functions without local classes whose members make calls, with one call per hop.
- NearestCatch.QueryNearestCatches: the final sort of the reports by names.
- Publication.AlwaysPublished: durability after a power loss; a crash ends a process, not the file system.
- Staleness.CleanMeansUnchanged: assumes that modification times never go backwards and that a second before a unit's bake fixes one version of what that bake read.
- Integer widths: ids and counts are unbounded, except in the encodings, where 32-bit lengths are explicit.
- Command line, JSON, worker processes, hashing, parsing of C++.
