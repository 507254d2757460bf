# Verified models of the usage statistics plugin

Dafny models of the parts of the plugin where a mistake would lose, double or miscount usage records:

- **Pairing fallbacks with native records** (`FlowCost` to `RetainedNative`). Token shapes put records into buckets, a
  window search finds candidate edges, a minimum-cost flow picks the pairs, and the paired fallbacks leave the ledger, be it a
  flat list of persisted records or the recorded histories of all models.
- **Retained history and range queries** (`BlockList` to `RangeApiDetail`). A copy-on-write block list, a detail window that
  slides through one allocation, descriptors of 2048-record blocks, and a bounded cache of block aggregates that all models share.
- **Events** (`EventRefs` to `EventRuns`). Stable references to details that move, and sorted indexes that are brought up to
  date instead of rebuilt.
- **Migration of snapshots** (`SnapshotDocument` to `ProjectionRoundTrip`). A streaming parser, the projection of its events into
  rows and edges, commits by batches with restart, and the paged walk that reads the rows back.
- **Quota cycles** (`QuotaPeriods` to `QuotaBackup`). Observations in any order, early resets, revocation, expiry, repair and
  the merge of backups.
- **The usage fallback coordinator** (`OccurrenceIndex`, `UsageFallbacks`), **the request metadata cache** (`RequestMetadata`)
  and **the export jobs** (`ExportJobs`), as step systems: a method is one section under the lock, and a run is any sequence of steps.
- **The revisioned ledger** (`LedgerTables` to `LedgerPages`). Tables as maps, batches that commit as a whole, removal of what
  nobody uses, chunked values, and pages.

`dafny verify dfyconfig.toml` checks the whole project with Dafny 4.11. Objects that the source updates in place are classes
here; their methods are proved against functions and predicates on values, and what is promised is proved about those. Times
are integers in nanoseconds, and the zero time is 0 unless a module says otherwise. Counters that the source adds with
saturation saturate at the int64 maximum; other integers are unbounded. Hashes, token evidence, wire decoding, the order of
map iteration and the clock are parameters or left open.

Where an operation and its specification share a function, the modules `EdgeRules`, `RangeTotals`, `SnapshotSchema`,
`SnapshotPlaces`, `QuotaRules` and `LedgerRules` say apart from that function what it means.

Three things the source is meant to do do not hold in it, and the models say exactly when they do:

- The buckets do not find every edge of the full product. Names are compared by folding, but bucket keys are lower-cased, and
  the long s folds to `s` without being lower-cased to it. `CandidateBuckets.EdgeInBucket` gives the exact condition,
  `CandidateBuckets.LongSExample` two such records.
- Merging a quota backup does not keep "a previous period that no reset ended is over before the current one starts", because
  validation does not compare the two periods. `QuotaBackup.MergeSnapshot` says exactly, for new, known, repaired and reset
  windows, when it is kept and when it is lost, and `QuotaBackup.OverlapSpoils` is a backup that loses it.
- A native that is paired with a fallback does not always get all that the fallback knew: the retained part stores no thinking,
  no service tier and no stream flag. `RecordedReconciliation.CarriesAllIff` gives the exact condition, and
  `RetainedNative.StreamIsLost` is a native that loses the stream flag.

## Model

| member | source | states |
|---|---|---|
| AssignmentDuality.Optimal | go/protocol_fallback.go:1254-1349 | Weak duality: a matching certified by node prices is cheapest among all matchings, once each pair is charged the price difference of source and sink. |
| AssignmentDuality.Maximum | go/protocol_fallback.go:1254-1349 | A cut of free arcs certifies that no matching has more pairs. |
| FlowNetwork.AddFlowEdge | go/protocol_fallback.go:1247-1252 | Adding an edge in place gives the network with two new edges, the edge and its reverse, as each other's twins. |
| LabelCorrecting.CheapestPaths | go/protocol_fallback.go:1292-1325 | While node prices exclude negative cycles, the queue empties, labels are cheapest walk costs, and predecessors form a tree rooted in the source. |
| Augmentation.Augment | go/protocol_fallback.go:1326-1336 | Flipping the predecessor path moves one unit from source to sink, and new prices again exclude every negative cycle. |
| MatchingNetwork.Build | go/protocol_fallback.go:1258-1290 | The network starts without flow and has just the arcs of source, fallbacks, ranked candidates, natives and sink. |
| FlowMatching.FlowIsMatching | go/protocol_fallback.go:1338-1348 | What is read from the saturated candidate edges of a flow is a matching: no native twice, candidates only. |
| MinimumCostMatching.Match | go/protocol_fallback.go:1215-1349 | The pairs are candidate edges, there are as many as in any matching, and of these their total of strength, distance and rank is lexicographically least; each round adds one pair until none can be added. |
| StableOrder.Trichotomy | go/protocol_fallback.go:1200-1213 | Of two orders one is less, unless they agree on time, completion, labels and index. |
| StableOrder.Transitive | go/protocol_fallback.go:1200-1213 | The order is transitive. |
| StableOrder.EarlierIsLess | go/protocol_fallback.go:1200-1213 | Earlier requests come first, then earlier completions, then the first label that differs decides by the character where the two texts part, and at last the index. |
| StableOrder.SortedUnique | go/protocol_fallback.go:1200-1213 | With different keys the sorted list does not depend on the order of arrival. |
| CandidateMatching.MatchCandidates | go/protocol_fallback.go:1254-1349 | For candidates given by key, no assignment has more pairs; of those with as many none has a greater total strength, of those as strong none a smaller total distance, and of those as close none earlier ranks. |
| CandidateMatching.BestIsStrongest | go/protocol_fallback.go:1281-1289 | Least cost means greatest total strength, then least total distance, then least total rank, each summed up over the pairs. |
| ProtocolEdge.ToleranceBounded | go/protocol_fallback.go:126-135 | Whatever the latency, the tolerance lies between the default and five seconds. |
| ProtocolEdge.EdgeNeeds | go/protocol_fallback.go:1131-1180 | An edge needs a shape of equal tokens on both sides and completion within five seconds of the fallback. |
| EdgeRules.EdgeIff | go/protocol_fallback.go:1131-1180 | Exactly when two observations have an edge, with which strength and which distance. |
| EdgeRules.StrengthIs | go/protocol_fallback.go:1050-1080 | The strength is that of the strongest common shape and twenty for each of reasoning and cache that can be compared. |
| EdgeRules.NoStrengthUnless | go/protocol_fallback.go:1050-1080 | Without a common shape, or with reasoning or caches that contradict each other, there is none. |
| EdgeRules.CompatibleIff | go/protocol_fallback.go:1082-1129 | When reasoning and cache counts can be compared, and when combined and split caches agree. |
| EdgeRules.ObservationIs | go/protocol_fallback.go:527-572 | What an observation takes over from its record. |
| CandidateBuckets.BucketSharesPartition | go/protocol_fallback.go:885-919 | Records that share a shape key are of one partition. |
| CandidateBuckets.EdgeInBucket | go/protocol_fallback.go:885-919 | Two records with an edge share a bucket if and only if their lower-cased identities agree. |
| CandidateBuckets.LongSMissed | go/protocol_fallback.go:898-919 | Every edge between a model named by a long s and one named `s` is missed by the buckets. |
| CandidateBuckets.LongSExample | go/protocol_fallback.go:898-919 | Two records that have an edge and meet in no bucket. |
| RecordBuckets.SortByCompletion | go/protocol_fallback.go:1385-1390 | The records of a bucket by completion: each as often as before, in non-decreasing order. |
| RecordBuckets.Window | go/protocol_fallback.go:1391-1403 | Two binary searches find exactly the records within five seconds. |
| CandidateSearch.CollectEdges | go/protocol_fallback.go:1380-1422 | Exactly the edges between records that meet in a bucket are collected, each with its own strength and distance, under its partition. |
| FallbackPairing.AllCandidates | go/protocol_fallback.go:1351-1422 | Buckets and windows find exactly the edges that the full product of fallbacks and natives with alike names has. |
| PartitionUnion.UnionOfBest | go/protocol_fallback.go:1423-1460 | Best assignments of partitions that share no record are together a best assignment of all of them. |
| FallbackPairing.PairDetails | go/protocol_fallback.go:1351-1460 | Over all partitions the pairs are a largest assignment among all edges between alike records; of those as large none is stronger in total, then closer, then of earlier ranks; each pair has the distance of its edge. |
| Reconciliation.PlanUsesOnce | go/protocol_fallback.go:1423-1460 | No record is in two pairs, and no fallback is also a native. |
| Reconciliation.KeptInOrder | go/protocol_fallback.go:1476-1512 | What is kept stands behind exactly the kept records that stood before it. |
| Reconciliation.ReconcilePersisted | go/protocol_fallback.go:1476-1512 | Of persisted records exactly the fallbacks of an optimal pairing leave; natives stay, in order and enriched, all others as they are, and the length falls by the number of pairs. |
| Reconciliation.NativeKeepsItsOwn | go/stats.go:1032-1058 | Whatever a native has of its own stays. |
| Reconciliation.FallbackFillsGaps | go/stats.go:1032-1058 | What it lacks it gets from its fallback, if that has it. |
| RecordedChanges.RemoveDescending | go/protocol_fallback.go:1746-1753 | Removing one by one by descending index, through visible and retained records, removes exactly the records that had these indices at the start. |
| RecordedReconciliation.CollectAll | go/protocol_fallback.go:1708-1724 | Every record of every model is collected once, with its place. |
| RecordedReconciliation.GroupByModel | go/protocol_fallback.go:1737-1741 | The removals are those of the pairs, by model, each once. |
| RecordedReconciliation.ReconcileRecorded | go/protocol_fallback.go:1700-1772 | Over the histories of all models the pairs are optimal across models; each model keeps its records without just its paired fallbacks, in order, natives enriched as far as their part of the history stores it; the records in all models fall by the number of pairs. |
| RecordedReconciliation.NativesStay | go/protocol_fallback.go:1730-1753 | No native is removed, and each is found in its model with what its fallback knew, in the retained part without thinking, tier and stream. |
| RecordedReconciliation.CarriesAllIff | go/accounting.go:12-46 | A paired native carries all that its fallback knew if and only if it is visible, or the fallback knew no thinking, tier or stream that it lacks. |
| RetainedNative.StreamIsLost | go/stats.go:1032-1058 | A concrete history: the native is retained, its fallback is a stream, and after the reconciliation the native is none. |
| BlockList.BlockList.Set | go/accounting_blocks.go:21-37 | Writing one element copies its block if a snapshot may read it: the list changes in that element, and no snapshot changes. |
| BlockList.BlockList.Freeze | go/accounting_blocks.go:41-52 | The snapshot reads the arrays of the list, which protects them from now on. |
| BlockList.BlockList.Append | go/accounting_blocks.go:58-77 | The element is added at the end, also in place behind what a snapshot reads, and no snapshot changes. |
| BlockList.BlockList.Truncate | go/accounting_blocks.go:93-118 | The first elements are kept, and no snapshot changes. |
| BlockList.BlockList.Remove | go/accounting_blocks.go:120-125 | One element leaves, the others keep their order, and no snapshot changes. |
| BlockList.BlockList.Retain | go/accounting.go:91-129 | The scan that compacts the list in place while it reads it leaves exactly the elements to keep, in order, and returns the others; no snapshot changes. |
| AccountingBlocks.AccountingBlocks.Append | go/accounting_blocks.go:54-77 | As above, and the descriptors of aggregate blocks stay true of the records. |
| AccountingBlocks.AccountingBlocks.Prune | go/accounting.go:91-129 | Expiry keeps the records without a time and those since the cutoff, in order; the descriptors stay true. |
| RangeBlocks.ExpiresIff | go/accounting.go:91-129 | Just the records with a time before the cutoff expire. |
| AccountingBlocks.Run | go/accounting_blocks.go:17-125 | Under every sequence of appends, writes, removals, truncations, expiries and freezes the list holds what a plain sequence would, and every snapshot shows at the end what it showed when it was taken. |
| RangeBlocks.RangeBlocks.InvalidateFrom | go/range_cache.go:29-41 | What remains valid describes every list that agrees with the old one before the invalidated blocks. |
| RangeBlocks.RangeBlocks.Prepare | go/range_cache.go:43-67 | The descriptor of a block is the valid one at hand or a new one, with the exact time bounds of the records. |
| SlidingWindow.SlidingWindow.Add | go/accounting.go:174-220 | A detail is inserted, into freed room at the front, into a larger allocation or in place; a window sorted by time stays sorted. |
| DetailWindow.DetailWindow.Trim | go/stats.go:5231-5249 | The oldest details beyond the limit leave without moving the others, and descriptors of the rest stay true. |
| DetailWindow.DetailWindow.Prune | go/stats.go:5284-5328 | Expiry in place is an order-preserving filter, followed by the move to a smaller allocation. |
| ModelHistory.ModelHistory.SetAt | go/accounting.go:141-153 | One record of the visible and retained records together is replaced; in the retained part by what is stored there of the new one. |
| ModelHistory.ModelHistory.RemoveAt | go/accounting.go:155-172 | One record leaves the visible or the retained part; all others keep their order and their part. |
| ModelHistory.ModelHistory.Trim | go/stats.go:5231-5249 | What leaves the visible part is appended to the retained one, reduced to what is stored there: no record is lost or doubled. |
| ModelHistory.ModelHistory.Prune | go/stats.go:5280-5328 | Expiry filters both parts and keeps their order; what expired and what is left add up. |
| Histories.OneChanged | go/stats.go:5270-5340 | A change of the history of one model leaves the records of all others as they are. |
| RangeCounters.PlusAssociative | go/stats.go:6575-6577 | Saturating addition of counters does not depend on grouping. |
| RangeSummary.Accumulator.Add | go/range_summary.go:40-186 | One record adds to totals, day, hour, API, model, provider, source, credential and client, with the first label kept. |
| RangeSummary.Accumulator.Merge | go/range_summary.go:335-478 | Loops over every group give the merged summary, and only the receiver is written. |
| RangeSummary.MergeScan | go/range_summary.go:335-478 | Merging the accumulated records of a block is accumulating these records one by one. |
| RangeTotals.ScanIsRight | go/range_summary.go:40-186 | A scan counts just the records in range that the selector is about: requests, successes, failures, tokens and latencies of the total and of each day, hour, model, provider, source, credential, client and API are the capped numbers and sums over its records. |
| RangeProviders.ClientModel.Increment | go/range_providers.go:13-44 | One more record of a provider counts in its group, also when the list of eight becomes a map. |
| RangeProviders.ClientModel.Merge | go/range_summary.go:481-524 | Whichever of the two models keeps a list or a map, the groups are merged, and the other model is not written. |
| StatTables.StatTable.Merge | go/range_api_detail.go:135-175 | Groups on the heap are merged entry by entry; new ones are copied, so the two tables share none, and the operand is as before. |
| RangeApiDetail.MergeCalls | go/range_api_detail.go:26-176 | For models, sources and errors too, merging the sums of a block is adding its records one by one. |
| RangeApiDetail.ScanCallsIsRight | go/range_api_detail.go:26-120 | The same for the detail of an API: totals, models, sources, and each error as often as calls failed with it. |
| RangeApiDetail.ApiDetailAccumulator.Add | go/range_api_detail.go:26-120 | One record adds to the totals, its model, its source and, if it failed, its error. |
| RangeApiDetail.ApiDetailAccumulator.MergeBlock | go/range_api_detail.go:223-273 | Given that a cached aggregate is the scan of its block, merging it counts as if the records were read now, and leaves it unchanged and unshared. |
| RangeCache.RangeAggregateCache.SweepInvalid | go/range_cache.go:140-150 | Exactly the entries of invalid identities leave, and the bytes stay the sum of the entries. |
| RangeCache.RangeAggregateCache.CanRetain | go/range_cache.go:173-187 | Says exactly whether an entry fits, after a sweep if there was none yet; no valid entry leaves for it. |
| RangeCache.RangeAggregateCache.Retain | go/range_cache.go:154-171 | An entry is kept once and within the budget of bytes and entries. |
| RangeQuery.MergeRangeBlock | go/range_cache.go:265-293 | A block adds what a scan of its records would: nothing, its cached or new aggregate, or the scan. |
| RangeQuery.VisitModel | go/range_cache.go:216-263 | Block by block, the visible and retained records of a model add what one scan of them would. |
| HistoryRuns.Summarize | go/range_cache.go:200-250 | A summary over all models, through one shared cache, is the plain scan of all records, model by model in some order, and each counter of each group is the capped number or sum over the records of that group. |
| HistoryRuns.TrackedHistories.Run | go/range_cache.go:189-293 | In every state reached by records that arrive late or in time, change, leave, are trimmed or expire, in any models, each range query answers what a plain scan of all records of all models would: the counts of just the records that it is about. |
| EventRefs.EventWindow.ResolvesToOwn | go/event_index.go:23-63 | A reference is live if and only if a detail has its number, and then leads to that detail. |
| EventRefs.EventWindow.Append | go/accounting.go:174-220 | After any insertion, also one that moves or reallocates the details, all references lead home. |
| EventRefs.EventWindow.Remove | go/accounting.go:155-172 | The reference of the removed detail dies, and all others lead home. |
| EventRefs.EventWindow.Trim | go/stats.go:5231-5249 | References of evicted details die, and all others lead home. |
| EventRefs.EventWindow.Prune | go/stats.go:5284-5328 | Expiry forgets the references of just the expired details and rebinds the rest. |
| EventRefs.EventWindow.EventAt | go/event_index.go:44-63 | Gives a detail one reference for good, numbering restored details first. |
| EventIndex.MergeBackward | go/event_index.go:101-128 | The merge from the back of one array is the ordered merge of both lists. |
| EventIndex.MergeIndex | go/event_index.go:101-128 | An index with dead references, merged with what is pending, is the sorted list of the visible events that match. |
| EventIndex.RightIsUnique | go/stats.go:7743-7756 | There is just one such list. |
| EventIndex.NewestFirst | go/stats.go:7743-7756 | An index lists just the visible events of its key; a later one is never newer, and of one time the order is by API, model and number. |
| EventIndex.EventIndexes.Apply | go/event_index.go:130-158 | Bringing all indexes up to date leaves each as a rebuild would, or drops all over budget. |
| EventIndex.EventIndexes.Query | go/stats.go:7871-7903 | An index, cached or built, is the sorted list of the visible events that match its key. |
| EventRuns.Run | go/event_index.go:30-158 | Under every sequence of arrivals, updates, removals, evictions, expiries and queries in any models, each query gets the sorted list of the matching records that the windows then hold. |
| EventRuns.ReferencesLeadHome | go/event_index.go:23-63 | In every such state each reference ever given leads to the record that the indexes know under its number, or that record is not visible. |
| EventRuns.ListedByLabels | go/stats.go:8006-8030 | A record is listed under its own model and source, or those of where it was recorded. |
| SnapshotParser.ParseSnapshot | go/sqlite_migration_parse.go:155-360 | The parser accepts a token stream if and only if the JSON is a document of the schema, and emits exactly its bracketed events; the header is accepted if and only if the last version and time that decoding leaves are. |
| SnapshotSchema.TableIsSchema | go/sqlite_migration_parse.go:188-228 | The members that are parsed are those of a table, each with its shape and the scope of what it holds. |
| SnapshotSchema.KeyNamesField | go/sqlite_migration_parse.go:246-264 | In a struct a key stands for the field of the table that it folds to, in a map for itself. |
| SnapshotPlaces.FoundAt | go/sqlite_migration_parse.go:155-240 | What a document holds at a path of the schema the decoded snapshot holds at that path. |
| SnapshotPlaces.RetainedRecordsLead | go/sqlite_migration_parse.go:200-201 | The retained records of any model of any API are on such a path. |
| SnapshotPlaces.UnlistedIsSkipped | go/sqlite_migration_parse.go:226-227 | A member outside the table changes nothing. |
| SnapshotPlaces.NothingInvented | go/sqlite_migration_parse.go:188-228 | A field of a decoded object comes from a member of the table that is there. |
| SnapshotHeader.HeaderOfEvents | go/sqlite_migration_parse.go:287-325 | The version and the time that the parser keeps from the members it passes, nulls and repetitions included, are those of the decoded snapshot. |
| SnapshotHeader.AcceptIff | go/sqlite_migration_parse.go:84-93 | Just the versions 0, 1 and 2 with a valid time are accepted. |
| SnapshotHeader.QuotaVersionIsRefused | go/sqlite_migration_parse.go:85-88 | A last version above 2 is refused whatever the time; so is 3, which storage supports. |
| ProjectionRoundTrip.EmptyObjectIsRefused | go/stats.go:1867-1876 | `{}` and `null` are documents of the schema and are refused for their header. |

| SnapshotParser.SnapshotParser.SkipValue | go/sqlite_migration_parse.go:327-360 | A value is skipped, to its last token, unless it is nested too deep. |
| ProjectionGraph.SiblingsApart | go/sqlite_migration_projection.go:462-481 | Two children of a row have no row below them in common, so writing one cannot change the other. |
| ProjectionMeaning.SimulateArray | go/sqlite_migration_projection.go:483-590 | An array member, new, repeated, shorter, longer or empty, gets the cells that slice reuse gives it, hidden tail included. |
| ProjectionMeaning.SimulateMember | go/sqlite_migration_projection.go:483-590 | The events of any member give it the value that decoding it over its previous value gives. |
| ProjectionMeaning.ProjectionIsDecoding | go/sqlite_migration_projection.go:483-590 | For every document of the schema the events apply, and the rows then stand for what decoding its members in order gives. |
| ProjectionResume.Projection.Run | go/sqlite_migration_projection.go:190-272 | A run, stopped anywhere, leaves committed exactly what the committed events give, each applied once, and all but fewer than 256 of those it read; one that reads to the end completes if and only if the header is accepted. |
| ProjectionResume.RunUntilDone | go/sqlite_migration_projection.go:218-272 | However often and wherever runs stop, the projection completes if and only if the header is accepted, and then is that of one uninterrupted run. |
| ProjectionWalk.Children | go/sqlite_migration_projection_read.go:254-306 | A page holds the next children in order, at least one if any is left, within the budgets of names and, but for a single name, of bytes. |
| ProjectionWalk.Walk | go/sqlite_migration_projection_read.go:126-192 | The items walked from a row deliver the visible value of the row, hidden cells left out. |
| ProjectionRoundTrip.ProjectAndRead | go/sqlite_migration_projection_read.go:71-124 | Parsing, projecting with any interruptions and walking delivers the visible part of what decoding the document gives, so whatever the JSON holds at a path of the schema is delivered there; JSON is refused if and only if it is no such document or its header is not accepted. |
| QuotaPeriods.ScanFindsLatest | go/quota_pricing.go:53-68 | The scan finds the latest drop of usage that counts as a reset, and the peak before it. |
| QuotaRules.ConfirmedIff | go/quota_pricing.go:53-68 | What a drop is that counts: before the deadline, by more than two points or to nothing, and confirmed by a next sample nearer to the low. |
| QuotaPeriods.EffectiveHasNoDecrease | go/quota_pricing.go:103-136 | The effective part of a period has no further drop of usage that counts as a reset. |
| QuotaPeriods.EffectiveDeadlines | go/quota_pricing.go:103-136 | Nor was there usage in it before a deadline that was moved later, unless the last sample still names an earlier one. |
| QuotaPeriods.EffectiveView | go/quota_pricing.go:103-136 | The shape of the view: it leaves out the first samples, not all, or is the whole period. |
| QuotaRules.MovedIs | go/quota_pricing.go:107-127 | A deadline that moved after usage ends a segment: where the effective part then begins, and whether that is an estimate. |
| QuotaRules.DecreaseIs | go/quota_pricing.go:128-131 | After the latest drop the effective part begins, as an estimate, at the sample of the drop. |
| QuotaRules.ThresholdIs | go/quota_pricing.go:74-83 | How much earlier a deadline must be to be another one. |
| QuotaPeriods.Compact | go/quota_cycles.go:105-142 | At most 64 samples stay: the anchors and the newest others, in order; the span does not change. |
| QuotaPeriods.AppendSample | go/quota_cycles.go:86-102 | A new observation is sorted in, unless the same one is there; the samples stay sorted and at most 64. |
| QuotaRules.CollectedIs | go/quota_cycles.go:93-98 | From when on a period counts its requests, after one more sample. |
| QuotaRules.ObservationValidIff | go/quota_storage.go:12-21 | Which observations are valid, identities apart. |
| QuotaWindows.ArchiveReset | go/quota_cycles.go:311-361 | A segment that an early reset ended becomes the previous period just when it is not empty, not older than a natural predecessor and not archived already; within an archive that was there it takes over its start and the samples before its end, all of them while there is room. |
| QuotaRules.SegmentIs | go/quota_cycles.go:311-333 | The archived segment is the effective part of the samples before the reset, and ends where the effective part of the current period begins. |
| QuotaRules.ArchiveDueIff | go/quota_cycles.go:311-333 | When a segment is archived. |
| QuotaWindows.ApplyLate | go/quota_cycles.go:216-252 | A late observation is accepted exactly when the period that it belongs to lacks it or it is of a later predecessor; that period gains it and loses no sample while there is room, and the head of the window stays. |
| QuotaRules.BelongsIff | go/quota_cycles.go:216-252 | To which period a late observation belongs, by its time and its deadline. |
| QuotaWindows.ApplyInOrder | go/quota_cycles.go:253-306 | The newest observation dates and shows the window and is recorded in the current, the restarted or the rolled-over period, which keeps its other samples while there is room; the previous period is aligned or dropped; it is refused just when its period has it, or when the current period, with another deadline, was over or empty. |
| QuotaCycles.QuotaState.Observe | go/quota_cycles.go:167-306 | Every observation keeps the state valid. Accepted usage is recorded in a period as the late or the in-order rule says, what an early reset ended is then in the previous place unless it is known, and an archive without usage is gone; a revocation leaves the periods alone. A window shows the newest word heard about it, whatever the order of delivery, ties going to revocation. |
| QuotaCycles.HeededMovesOn | go/quota_cycles.go:167-306 | The date of a window never goes back. |
| QuotaCycles.QuotaState.Advance | go/quota_cycles.go:375-395 | A current period that is over becomes the previous one; any other stays, and only what an early reset ended may become its predecessor; dates and visibility stay. |
| QuotaCycles.QuotaState.Prune | go/quota_cycles.go:397-486 | Just the facts and tombstones that no window and no retention needs leave; of hidden windows whose periods are long over a recent revocation stays, and an old one leaves. |
| QuotaRules.PrunedIs | go/quota_cycles.go:409-440 | What expiry leaves of a window: a visible one stays, a hidden one whose usage is long over is remembered as a revocation for two times 366 days. |
| QuotaRules.CoversIff | go/quota_cycles.go:448-458 | A window needs the facts from the start of one of its periods to before its end. |
| QuotaCycles.QuotaState.AddFact | go/quota_cycles.go:51-75 | A fact is entered unless its record was deleted, so facts and tombstones stay disjoint. |
| QuotaCycles.QuotaState.RemoveFact | go/quota_cycles.go:521-539 | The fact goes and a tombstone takes its place. |
| QuotaBackup.RepairWindow | go/quota_storage.go:542-574 | A sound window becomes valid; a valid one without an empty archive is not touched. |
| QuotaBackup.MergeHistory | go/quota_storage.go:293-352 | The newest word decides date and visibility, no sample is invented, and the periods are apart if and only if those of the leading history were. |
| QuotaRules.TargetIs | go/quota_storage.go:322-345 | Which period the samples of another history join: the one with its deadline, else the only one that was live with it. |
| QuotaRules.PredecessorIs | go/quota_storage.go:306-321 | When a period of another history takes the previous place, and with which span. |
| QuotaRules.KnownIsNewestIff | go/quota_storage.go:273-279 | Which of two windows has the newest word. |
| QuotaRules.LeadingIs | go/quota_storage.go:294-301 | Which history leads when the newest word is a revocation. |
| QuotaBackup.MergeSnapshot | go/quota_storage.go:251-289 | An invalid backup changes nothing; a merged one keeps facts and tombstones disjoint and windows sound, and the state stays valid if and only if for each window of the backup the leading periods, after repair, are apart or an early reset takes the previous place. |
| QuotaBackup.OverlapSpoils | go/quota_storage.go:198-289 | A concrete valid backup whose periods overlap makes the state break the rule on its two periods. |
| QuotaBackup.Reload | go/quota_storage.go:198-249 | What a valid state saves is accepted when it is read again. |
| QuotaRules.SnapshotValidIff | go/quota_storage.go:198-249 | What validation asks of a backup: facts under their own identity that contradict no known one, dated tombstones, valid windows. |
| OccurrenceIndex.BestByKeys | go/response_intercept.go:1266-1346 | Of all occurrences that share a shape key none is stronger than the chosen one, none as strong is closer, and none as strong and close is earlier. |
| OccurrenceIndex.RemoveByKeys | go/response_intercept.go:1348-1378 | An occurrence leaves all lists of the index, and nothing else does. |
| UsageFallbacks.UsageFallbackCoordinator.Schedule | go/response_intercept.go:847-899 | A fallback joins the best recent native if any is like it, and is never recorded; otherwise it waits and its timer starts; the conservation of records is kept. |
| UsageFallbacks.UsageFallbackCoordinator.Arrive | go/response_intercept.go:901-967 | A native replaces the best waiting fallback if any is like it; else the best of those lately committed is marked for removal; else it is remembered and recorded; the conservation of records is kept. |
| UsageFallbacks.UsageFallbackCoordinator.MatchedInTime | go/response_intercept.go:1190-1264 | A native can be matched for its retention, a committed fallback for half a minute. |
| UsageFallbacks.UsageFallbackCoordinator.Fire | go/response_intercept.go:1044-1084 | A timer commits its fallback, whose write follows later, unless a native was faster. |
| UsageFallbacks.UsageFallbackCoordinator.Supersede | go/response_intercept.go:992-1012 | Of each fingerprint one waiting fallback goes, if there is one, and no other; pairs and records stay. |
| UsageFallbacks.UsageFallbackCoordinator.Replace | go/protocol_fallback.go:1822-1855 | The native's caller removes the fallback and will record the native; if the fallback is not written yet, the native is dropped instead. |
| UsageFallbacks.UsageFallbackCoordinator.OneRecordEach | go/response_intercept.go:847-1084 | After any interleaving, when all callers are done, each pair has exactly one record, each native without a partner has its own, and a fallback without one is recorded if and only if it was committed; once none waits, that is every fallback that was not superseded. |
| ExportJobs.ExportJobManager.Cleanup | go/dashboard_export_jobs.go:749-765 | Exactly the expired jobs that are not active leave, with their files. |
| ExportJobs.ExportJobManager.CreateJob | go/dashboard_export_jobs.go:274-318 | Expired jobs go first; then a job is accepted if and only if the manager is open, fewer than two workers and two jobs are active, and fewer than sixteen jobs are kept. |
| ExportJobs.ExportJobManager.PublishJob | go/dashboard_export_jobs.go:320-388 | The job succeeds and its file appears if and only if it is still there and the file was renamed; any other job, file and worker stays as it is. |
| ExportJobs.ExportJobManager.EndEncoding | go/dashboard_export_jobs.go:340-358 | The worker goes on to publish if and only if encoding was good and its file is there; a failed one leaves no file. |
| ExportJobs.ExportJobManager.FailJob | go/dashboard_export_jobs.go:660-670 | A listed job fails and its files go. |
| ExportJobs.ExportJobManager.TakeWorkers | go/dashboard_export_jobs.go:320-388 | A step of a worker leaves all other jobs, files and workers as they are. |
| ExportJobs.EndedStaysAWhile | go/dashboard_export_jobs.go:749-765 | A job that ended is not active and expires a quarter of an hour later. |
| ExportJobs.ExportJobManager.DeleteJob | go/dashboard_export_jobs.go:709-723 | Just the named job of that kind leaves. |
| ExportJobs.ExportJobManager.Run | go/dashboard_export_jobs.go:274-388 | Under all interleavings at most two workers run and sixteen jobs are kept; a listed job has succeeded if and only if its encoding was good and its file was renamed, and failed if and only if its worker was done without both; the published files are exactly those of the succeeded jobs, and with no worker there is no other file. |
| RequestMetadata.RequestMetadataCache.Observe | go/request_metadata.go:85-123 | Without a reset the cache stands for the unbounded history with one more execution; during a suspension nothing is entered, and after it every execution is; a reset happens only for an execution open beyond the retention or for the 4097th one. |
| RequestMetadata.RequestMetadataCache.Complete | go/request_metadata.go:125-137 | Without a reset the open executions of that number are ended, as in the unbounded history. |
| RequestMetadata.RequestMetadataCache.Cleanup | go/request_metadata.go:188-225 | Cleaning resets the cache and suspends it if and only if an execution is open for too long; otherwise it only forgets. |
| RequestMetadata.Match | go/request_metadata.go:139-186 | The loop finds out whether all candidates agree, in whatever order they come. |
| RequestMetadata.CandidateIff | go/request_metadata.go:148-166 | Which executions may have made a record: those that ran then under its credential and that it does not contradict. |
| RequestMetadata.FillsGapsOnly | go/request_metadata.go:174-184 | What a record has is never overwritten; what it lacks it gets, a service tier only if all candidates agree on it. |
| RequestMetadata.RequestMetadataCache.Enrich | go/request_metadata.go:139-186 | Without a reset a record is enriched as the unbounded history would do it; during a suspension it is left alone, and after it is enriched by the executions held. |
| LedgerTables.StoreValue | go/sqlite_ledger_values.go:160-209 | Contents are stored inline or once for all equal ones, and can be read back. |
| LedgerTables.Mutate | go/sqlite_ledger.go:363-454 | A mutation succeeds if and only if it names the current revision, and what the record let go of becomes a candidate for removal. |
| LedgerRules.AllowedIff | go/sqlite_ledger.go:365-381 | A record is inserted without a number, or changed or deleted at the revision it has. |
| LedgerRules.OneRecordChanges | go/sqlite_ledger.go:363-454 | One mutation changes this record and no other. |
| LedgerRules.ChargedIff | go/sqlite_ledger.go:393-424 | What a mutation counts, and when a batch or a record is over its budget. |
| RevisionedLedger.SweepIdentities | go/sqlite_ledger.go:455-465 | Removing unused candidates leaves exactly the identities that some record uses. |
| RevisionedLedger.SweepValues | go/sqlite_ledger_values.go:340-348 | And exactly the values that some record or identity uses. |
| RevisionedLedger.ContinuesAtNext | go/sqlite_ledger.go:329-350 | After a batch its source continues at the position where the batch ended and under its fingerprint only; other sources stand where they stood. |
| LedgerRules.CursorWellFormedIff | go/sqlite_ledger.go:329-336 | Which cursors a batch may name. |
| LedgerRules.StateAllowedIff | go/sqlite_ledger_state.go:48-80 | A derived state is inserted where there is none, or changed at the revision it has. |
| RevisionedLedger.RevisionedLedger.ApplyState | go/sqlite_ledger.go:308-478 | A batch succeeds if and only if all revisions, the cursor and the budgets allow it; then everything of it is in the next generation, and the tables hold exactly what is used; otherwise nothing changes. |
| LedgerValues.Write | go/sqlite_ledger_values.go:160-209 | Chunks follow each other, are full but for the last, and join to the value with its checksum. |
| LedgerValues.ValueReader.Read | go/sqlite_ledger_values.go:249-285 | Reads deliver a prefix of the stored bytes; the end comes only after all of them with the right checksum, and corruption is reported only for rows that no writer leaves. |
| LedgerValues.ValueEquals | go/sqlite_ledger_values.go:287-311 | Whatever the buffer size, the comparison says whether the bytes are equal. |
| LedgerPages.SortColumns | go/sqlite_ledger.go:70-79 | Sorting by the negated seconds and nanoseconds is sorting by time, latest first. |
| LedgerPages.LaterFirst | go/sqlite_ledger.go:70-79 | A later record comes first, and of one time the order is by API, model and number. |
| LedgerPages.SelectsIff | go/sqlite_ledger.go:632-655 | Which records a query selects: retained ones only for accounting, of one API or model if named, dated and not before the cutoff. |
| LedgerPages.ReadPage | go/sqlite_ledger.go:632-768 | A page is a start of the selected rows behind the cursor, not empty if there are any, within the limit and, but for a single record, within the budget. |
| LedgerPages.ReadAll | go/sqlite_ledger.go:622-768 | Pages of any sizes, each behind the last record of the one before, are together the sorted list of all selected records, each once; they fail if and only if a selected record's names exceed what a page may hold. |
| LedgerPages.ReadLedger | go/sqlite_ledger.go:622-768 | No batch lets such a record in, so reading a ledger always gets to the end. |

## Left out

- Flow costs, total events and error counts are unbounded integers: the wrap-around of int64 is not modelled.
- Cost estimates, prices, averages and other floating-point results; quota usage is a real number.
- `buildProtocolTokenShapes`, the extraction of token evidence from records, and the provider families: an observation comes with its token shapes, the token kinds it knows, and its output and cache modes; how two such observations compare is modelled.
- Text folds and lower-cases ASCII letters, the long s and the Kelvin sign only.
- `sort.Slice`, `sort.SliceStable` and `slices.SortFunc` are sorts by contract or insertion sorts.
- RecordedReconciliation.ReconcileRecorded: ends before empty models are deleted, counters and quota facts are decremented, retention is applied and the set of seen records is rebuilt, because these do not decide which records stay.
- RecordedReconciliation.GroupByModel: a pair of API and model stands for the compound key; the source splits it at the first zero character, so the two differ for API names that contain one.
- The repair of a whole statistics snapshot, with its time series (go/protocol_fallback.go:1514-1609); pairing and removal are those of the two paths modelled.
- ModelHistory.ModelHistory.Prune: the stable sort that pruning applies to details out of order is not part of it.
- HistoryRuns.TrackedHistories.Run: models whose last record left stay as empty histories, because their deletion depends on counters; which order of models a query takes is left open, and first labels may depend on it.
- RangeSummary.Accumulator.Merge: groups are values in maps, so sharing cannot be expressed there; `StatTables.StatTable` and `RangeApiDetail` have them on the heap, and the list or map of `RangeProviders.ClientModel` stands for the provider groups that a summary sums.
- RangeApiDetail.ApiDetailAccumulator.MergeBlock: the lookup under its cache key is that of range summaries and is not repeated; model names come normalised, and provider groups inside a model are values.
- The sizes of aggregates, indexes and records are abstract where they only decide about admission.
- EventRuns.Run: the models are given at the start, and a query gives every listed event its reference by one pass over the list.
- SnapshotParser.ParseSnapshot: works on tokens, so white space, escapes, byte spans and checksums of the text are not modelled; JSONL sources are not either.
- ProjectionWalk.Walk: the sanity errors of a walk over damaged tables, staged chunks and preloading do not occur on the rows that a projection leaves.
- ProjectionRoundTrip.ProjectAndRead: requires that no more events are committed than the source has; a source that shrank is refused by its fingerprint, which is not modelled. Rows of abandoned roots stay in the tables. The batches of a source that the parser refuses on the way may be committed already; here such a source leaves the projection alone.
- Quota identities have no length limits, periods are values without aliasing, and estimates of cycles are not modelled.
- QuotaBackup.MergeSnapshot: of samples that join a known window only their origin is stated, and in `AppendAll` that all join while there is room; details that a tombstone removes from the histories are not part of it.
- The coordinator's `Flush`, the learned auth index and collisions of the dedup window.
- LedgerPages.ReadPage: a cursor is a key; that it was read in another view or for another query is not noticed by the code either.
- Encoding of ledger records as JSON, the budget of the encoder, SQLite itself, busy and I/O errors, errors when files are removed.
- The endpoint parsing of request metadata, export formats, HTTP and management routes, the dashboard.
