# CodexKeeper in Dafny

A model of the parts of CodexKeeper that carry invariants in plain Go, with proofs of what they promise. Each file is one
module; `dafny verify dfyconfig.toml` checks them all.

Code that changes state step by step is written as classes and loops proved against functions; what the functions guarantee is
proved in lemmas. Code shared between goroutines is written twice: as a state machine whose actions may interleave freely, over
whose runs the safety properties are proved, and as the methods of the object, proved to take the steps of that machine.

## What is modelled

**Latency aggregates.** A sample keeps the K best points ever offered. `SamplePoints` says what that means, `SampleHeap` holds the
worst-at-root heap, `SampleSets` the set with its selection over an arbitrary map order, and `QuerySamples` the merger that reads
encoded rows without building sets; it accepts and retains exactly what decoding and merging would. `LogBuckets`, `LatencySketch`
and `Sketches` hold the logarithmic sketch, its merger, and the 1% bound on its 95th percentile together with the exact size at
which the wrapped rank breaks it. `Varint`, `ZigZag`, `Records`, `SampleCodec` and `SketchCodec` are the binary formats. `LatencyRows`,
`LatencyPages`, `RowSums` and `UsageRows` are the row builders that pages of events are merged through.
`CodecMeaning`, `LatencyMeaning` and `RowMeaning` say what the bytes and rows hold in terms of the events.

**Usage aggregation.** `RollupStore` states what the runner relies on from the database, `RunnerProtocol` is the runner with its
turns, pages, notifications, failures and inbox deferrals as a state machine, `RunnerSafety` its invariants over every run,
`UsageRunner` the object, and `RunnerLiveness` the proof that, undisturbed, it comes to rest with everything done.

**Quota history.** `HistoryTrack` is what happens to the observations of one window, with conservation of counts and order of the
entries. `HistoryScheduler` is the runner's two maps and pending list, proved to follow every window's track; `HistoryBatch` and
`HistoryRuns` are whole batches up to the writer and the state they leave for the next one. `HistoryMeaning` and `BatchMeaning`
say the same in percentages, times and resets, without the functions the maps are proved against.

**Quota efficiency.** `EfficiencyPeriods` and `EfficiencyWorks` build the effective periods and line them up; `EfficiencyUsage`
accumulates, with the guard against wrap-around; `EfficiencyCost` shows that the columns not read make no difference to the price;
`EfficiencyStream` is the two-pointer pass; `EfficiencyHistory` puts them together and compares the answer with a naive join.
`EfficiencyMeaning` and `AnswerMeaning` say what the totals, prices and records are, in events, observations and resets.

**Pricing.** `UsageCost`, `PricingRules`, `PricingSafety` and `PricingCatalogue` are the cost formula, the resolver and the
compilation of a catalogue, ending in the theorem that an accepted catalogue cannot produce an infinite cost.
`PricingMeaning` and `CatalogueMeaning` say what a usage costs under the entries as they are written.

**Headers and refresh tasks.** `HeaderMerge` and `HeaderPending` merge quota snapshots component by component in a
bounded map, one entry for an identity; `HeaderOrder` and `HeaderFold` say exactly when the order of merging matters.
`RefreshProtocol`, `RefreshSafety` and `RefreshTasks` are the tasks shared by requests, dispatchers, workers, header writes and
cleanup.

**Smaller cores.** `ActivityGrain` (calendar and fixed buckets), `Resp` (the Redis serialization protocol, with its grammar in
`RespMeaning`), `Sessions` (a cache over stored rows with one background writer) and `MetadataSync` (the debounced sync loop, with
the proof that a requested sync begins in `MetadataLiveness`).

`Wrappers`, `Choice`, `Lists`, `Text`, `MapSums`, `RealSums` and `Runs` are shared helpers; `TextMeaning` says what trimming, lower
case and comparison do character by character.

## Conventions

- Instants are integers. Zero is Go's zero time where the code asks `IsZero`, except in `ActivityGrain` and `LatencyPages`, which
  count nanoseconds from the epoch; header times are natural numbers, so zero is the oldest, as the code has it.
- Prices, multipliers and costs are reals, bounded by the largest finite number where the code checks for it; which number
  that is, is left open. Token counts wrap around as 64-bit integers where the code adds them unchecked.
- Maps are iterated in an arbitrary order; results that must not depend on it are proved not to.
- The limit K of retained points and the limits of queues and workers are parameters, and so is the priority of an event.
- The database, clocks, timers, channels and other goroutines are steps of the state machines or parameters of the methods; a
  read or write that can fail has its outcome as a parameter.
- Where the code and its comments differ, the model follows the code. A comment on the percentile calls the rank exact; past the
  wrap-around of `count*95+99` it is not (`LatencySketch.P95RightUpToTheWrap`). The scan over cycle periods is described as
  covering any cycles; a cycle that starts at the zero time can defeat it (`EfficiencyPeriods.ZeroStartOverlaps`; when exactly:
  `EfficiencyPeriods.EndsExactlyWhenHarmless` for the ends, `EfficiencyPeriods.PeriodsDisjoint` for overlap).
- Merging snapshots is meant not to depend on their order. It does for a snapshot without a time, for disagreeing ones at one
  time, and for the plan; `HeaderFold` gives an input for each, and the exact conditions.
- Pending snapshots are meant to be kept by identity. A Claude snapshot without an account shares the entry of an account that
  its authentication type reads like (`HeaderPending.AccountLikeEntry`; exactly when: `HeaderPending.KeysAndIdentities`).

## Model

| member | source | states |
|---|---|---|
| SamplePoints.BestUnique | internal/latency/sample.go:281-303 | of all points offered at most one set is the K best, so any two ways of trimming agree |
| SamplePoints.BestOfBest | internal/latency/sample.go:55-70 | keeping only the K best between merges loses nothing: the best of kept plus new are the best of everything ever offered |
| SamplePoints.DroppedStaysDropped | internal/latency/sample.go:36-70 | a point no better than one already dropped is dropped by every later merge |
| SampleHeap.RootIsWorst | internal/latency/sample.go:305-321 | in a worst-at-root heap nothing ranks behind the root |
| SampleHeap.SiftDownWorst | internal/latency/sample.go:305-321 | sifting the root down restores the heap in place and only rearranges the array |
| SampleHeap.SiftUp | internal/latency/sample.go:197-205 | bubbling an appended point up restores the heap and only rearranges the array |
| SampleSets.SampleSet.AddPoint | internal/latency/sample.go:72-82 | a point is stored under its event; the same event with other values is refused |
| SampleSets.SampleSet.Add | internal/latency/sample.go:36-52 | one event: refused exactly when malformed or contradicting, else of the old points and the new one those K remain that have the smallest priorities, and of equal ones the smallest event IDs |
| SampleSets.SampleSet.Merge | internal/latency/sample.go:55-70 | succeeds exactly when no point conflicts, and then keeps the K points of both sets with the smallest priorities, then the smallest event IDs |
| SampleSets.SampleSet.Trim | internal/latency/sample.go:281-303 | whatever order the map is walked in, exactly the K points with the smallest priorities, then the smallest event IDs, are left |
| SampleSets.MergedUnique | internal/latency/sample.go:55-70 | two merges of one row into one set end in the same map |
| SampleSets.RankingUnique | internal/latency/sample.go:104-117 | a set has one ranking, so its encoding does not depend on map order |
| SampleSets.SelectBest | internal/latency/sample.go:281-303 | the selection over an arbitrary enumeration ends with the K best in the map and their worst at the root |
| SampleSets.SampleSet.Points | internal/latency/sample.go:104-117 | the points come out each once, by rising priority and, at one priority, rising event ID |
| SampleSets.SampleSet.MarshalBinary | internal/latency/sample.go:119-137 | the encoding decodes to exactly the set, and a set over the limit is refused |
| SampleSets.UnmarshalSampleSet | internal/latency/sample.go:139-151 | accepts exactly the bytes the strict decoder accepts and yields their points, untrimmed |
| SampleCodec.WalkSampleSet | internal/latency/sample.go:232-279 | the offset loop accepts and yields exactly what the decoding function does |
| SampleCodec.DecodeSorted | internal/latency/sample.go:232-279 | accepted bytes hold at most 2500 well-formed points by rising priority and, at one priority, rising event ID, hence no event twice |
| SampleCodec.RoundTrip | internal/latency/sample.go:119-148 | decoding an encoded set of points returns the points |
| SampleCodec.OwnBytesAreMinimal | internal/latency/sample.go:232-279 | accepted bytes are the encoder's own exactly if no number among them is padded |
| QuerySamples.BehindWorstIsNew | internal/latency/sample.go:176-196 | a point strictly behind the worst retained one carries no retained event, so skipping its conflict check misses none |
| QuerySamples.CandidatesSuffice | internal/latency/sample.go:165-218 | points that were no candidates change nothing about the K best |
| QuerySamples.QuerySampleMerger.Visit | internal/latency/sample.go:170-196 | the first pass reports a conflict exactly when the row contradicts the set, collects sufficient candidates, and changes nothing |
| QuerySamples.QuerySampleMerger.PushCandidate | internal/latency/sample.go:197-216 | append, replace the worst, or skip: the heap stays a worst-at-root heap of exactly the map's points, the K best so far |
| QuerySamples.QuerySampleMerger.MergeRow | internal/latency/sample.go:165-218 | a row is merged whole or, on conflict, not at all |
| QuerySamples.QuerySampleMerger.MergeBinary | internal/latency/sample.go:165-218 | succeeds exactly when decoding and `SampleSet.Merge` would, retains the same set, and on failure changes nothing |
| QuerySamples.QuerySampleMerger.TakeSamples | internal/latency/sample.go:221-229 | the set handed over holds, of all rows ever merged, the K points with the smallest priorities, then the smallest event IDs; every later merge fails |
| Varint.UvarintRoundTrip | internal/latency/sketch.go:219-233 | a number appended in base 128 is read back and reading stops at the next byte |
| Varint.ReadUvarintFits | internal/latency/sketch.go:219-233 | whatever is read fits an unsigned 64-bit word, and ten bytes are never exceeded |
| Varint.ZigZagRoundTrip | internal/latency/sketch.go:212-218 | the arithmetic of the mapping: decoding undoes encoding, and encoding undoes decoding |
| ZigZag.EncodeIsZigZag | internal/latency/sketch.go:212-214 | the shifts and the exclusive or on a 64-bit word compute that arithmetic for the number the word stands for |
| ZigZag.DecodeIsZigZag | internal/latency/sketch.go:216-218 | so do those of decoding, back to two's complement |
| ZigZag.ShiftRoundTrip | internal/latency/sketch.go:212-218 | shifting back and forth returns every 64-bit word, either way round |
| LogBuckets.KeyOrder | internal/latency/sketch.go:46-46 | each value has one bucket, and buckets follow the order of the values |
| LogBuckets.KeySmall | internal/latency/sketch.go:46-46 | every 64-bit value lies in one of the buckets 0 to 2520 |
| LogBuckets.RepresentativeAccuracy | internal/latency/sketch.go:199-210 | a bucket's representative is within 1% of every value in it |
| LatencySketch.P95Accurate | internal/latency/sketch.go:98-115 | the value of the bucket found is within 1% of the nearest-rank 95th percentile of the values added, before rounding |
| LatencySketch.P95RoundedAccurate | internal/latency/sketch.go:199-210 | rounding to a whole number adds at most one half to that error |
| LatencySketch.P95RightUpToTheWrap | internal/latency/sketch.go:98-115 | count*95+99 below 2^64 is exactly the condition under which every sketch of that size is served right |
| LatencySketch.NearestRankMeans | internal/latency/sketch.go:98-115 | the nearest rank is the smallest with 95 of 100 values at or below it |
| LatencySketch.WrappedRankInRange | internal/latency/sketch.go:98-115 | the rank never exceeds the count, wrapped around or not |
| LatencySketch.RankBucketHoldsValue | internal/latency/sketch.go:98-115 | the bucket found for a rank is the bucket of the value with that rank |
| LatencySketch.BinsOfMerge | internal/latency/sketch.go:57-75 | adding bins key by key gives the sketch of both lists of values |
| Sketches.Sketch.Add | internal/latency/sketch.go:35-54 | one more value in its bucket; refused exactly when not positive or the count is full |
| Sketches.Sketch.Merge | internal/latency/sketch.go:57-75 | fails exactly when the counts together pass 64 bits, and then before anything has changed |
| Sketches.NoBinOverflows | internal/latency/sketch.go:62-72 | with count equal to the bin sum no single bin can overflow half-way through a merge |
| Sketches.Sketch.P95 | internal/latency/sketch.go:98-115 | zero for an empty sketch, otherwise the rounded representative of the bucket of the wrapped rank |
| Sketches.AlwaysReached | internal/latency/sketch.go:98-115 | the scan always returns before the line behind its loop |
| Sketches.Sketch.MarshalBinary | internal/latency/sketch.go:118-134 | the bytes decode to the same bins |
| SketchCodec.RoundTrip | internal/latency/sketch.go:118-184 | decoding encoded bins returns them |
| SketchCodec.OwnBytesAreMinimal | internal/latency/sketch.go:149-184 | accepted bytes are the encoder's own exactly if no number among them is padded |
| CodecMeaning.NumberBytes | internal/latency/sample.go:119-137 | a stored number is its groups of seven bits, lowest first, each byte but the last marked, without leading zeros |
| CodecMeaning.PointBytes | internal/latency/sample.go:119-137 | the bytes of a one-point sample with small numbers: version 1, count, event, priority, time to first token, latency |
| CodecMeaning.BinBytes | internal/latency/sketch.go:118-134 | the bytes of a one-bin sketch with small numbers: version 1, count, key with its sign in the lowest bit, how many values |
| SketchCodec.DecodeLegal | internal/latency/sketch.go:149-184 | decoded bins have rising keys, positive counts and a total that fits 64 bits |
| Sketches.UnmarshalSketch | internal/latency/sketch.go:137-147 | accepts exactly what the decoder accepts and yields a sketch whose count is the sum of its bins |
| Sketches.QuerySketchMerger.MergeBinary | internal/latency/query_sketch.go:19-51 | accepts exactly what decoding followed by `Sketch.Merge` accepts, with the same sketch; any failure closes the merger |
| Sketches.QuerySketchMerger.TakeSketch | internal/latency/query_sketch.go:54-61 | hands the accumulated sketch over and closes the merger |
| LatencyRows.RowBuilder.Add | internal/latency/aggregate.go:136-155 | count, maxima, both sketches and the sample stay those of exactly the events added; refused exactly when malformed, contradicting a retained event, or full |
| LatencyRows.RowUnique | internal/latency/aggregate.go:57-96 | a group of events has one row, however its sample was trimmed |
| LatencyRows.MergedIsRow | internal/latency/aggregate.go:57-96 | merging the rows of two pages (sums, maxima, sketch sums, K best) gives the row of all their events |
| LatencyRows.PartsInAnyOrder | internal/latency/aggregate.go:57-96 | the merged row is that of the events in either order |
| LatencyPages.AddPlaced | internal/latency/aggregate.go:87-94 | a point goes to the builder of its key, new if there was none, and disturbs no other row |
| LatencyPages.AddEvent | internal/latency/aggregate.go:68-95 | a sample goes to its hour row and its day row as far as they are retained; anything else to none |
| LatencyPages.BuildRows | internal/latency/aggregate.go:57-132 | stored rows in key order, one for each key that occurs, decoding to the row of exactly its events; the page fails exactly when the time is missing or some row refuses an event |
| LatencyPages.DifferentAccepted | internal/latency/aggregate.go:57-96 | a page of events with different positive IDs is never refused |
| LatencyPages.PagesMerge | internal/latency/aggregate.go:57-96 | for one `now`, the rows of two pages merged key by key are the rows of all their events, whichever page came first |
| LatencyPages.StoredUnique | internal/latency/aggregate.go:98-118 | the encodings of a stored row determine the row |
| LatencyMeaning.RowHoldsItsEvents | internal/latency/aggregate.go:38-96 | a row is made of exactly the successful generations with both times measured, of its group and its hour or day, that began within three days or 365 days; in their order, with their ID, priority and times |
| LatencyMeaning.RowMeans | internal/latency/aggregate.go:136-155 | a row counts its points; its first column holds the maximum of the times to first token and how many lie in which bucket, its second the same of the latencies |
| RowSums.CollectConcat | internal/activity/aggregate.go:50-104 | rows of two lists of contributions together are the key-wise sums of the rows of each |
| RowSums.RowMeaning | internal/activity/aggregate.go:75-103 | a row exists exactly for a key that occurs and holds the tally of its contributions |
| RowSums.TotalIsTally | internal/overview/aggregate.go:26-79 | the rows together hold every contribution exactly once |
| UsageRows.BuildOverviewRows | internal/overview/aggregate.go:26-97 | one pass builds the hourly rows, the daily rows and the highest event ID |
| UsageRows.OverviewPagesMerge | internal/overview/aggregate.go:26-97 | rows of A followed by B are the key-wise merge of the rows of A and of B, in any order |
| UsageRows.HourlyAndDailyAgree | internal/overview/aggregate.go:26-97 | hourly totals and daily totals both equal the totals over the events |
| UsageRows.BuildActivityRows | internal/activity/aggregate.go:50-104 | rows are collected from one contribution per event and retained grain, under the bucket that contains the event |
| UsageRows.ActivityUnique | internal/activity/aggregate.go:50-104 | for one `now` those contributions are determined by the events, because an instant lies in one bucket only |
| UsageRows.ActivityPagesMerge | internal/activity/aggregate.go:50-104 | for one `now`, rows of A followed by B are the key-wise merge of the rows of A and of B, in any order |
| RowMeaning.RowCountsEvents | internal/overview/aggregate.go:111-141 | the row of a key: one request for each of its events, each a success or a failure, and the sums of each kind of token |
| RowMeaning.HourOf | internal/overview/aggregate.go:26-79 | an event's hourly row starts at the whole hour the event lies in |
| RowMeaning.DayOf | internal/overview/aggregate.go:26-79 | its daily row starts at the local midnight before it |
| RowMeaning.DimensionsOf | internal/overview/aggregate.go:26-110 | both rows carry its dimensions without surrounding blanks, and `unknown` for a missing group or model |
| RowMeaning.KeptFor | internal/activity/aggregate.go:12-19 | the activity grains keep an event for 3, 8 and 31 days and, daily, for ever |
| RowMeaning.MaxIDIsHighest | internal/overview/aggregate.go:26-97 | the ID a page ends with is the largest of its event IDs |
| RollupStore.PageIsInterval | internal/repository/usage_aggregation_page.go:35-64 | a page is exactly the events between its cursor and its own last ID, within the target |
| RollupStore.ApplyKeeps | internal/repository/usage_aggregation_checkpoint.go:65-106 | an apply from the matching cursor keeps every rollup at each event up to its cursor exactly once |
| RollupStore.ApplyProgress | internal/repository/usage_aggregation_checkpoint.go:65-106 | an applied page lowers what is left before the target by its length |
| RollupStore.CommitKeeps | internal/repository/usage_aggregation_page.go:35-64 | committing more events changes nothing behind the cursors |
| RunnerSafety.RunInv | internal/poller/usage_aggregation_runner.go:62-92 | the full invariant of runner, database and turn holds after every run of the protocol |
| RunnerSafety.EveryEventOnce | internal/poller/usage_aggregation_runner.go:430-587 | over every interleaving each rollup holds every event up to its own cursor exactly once and nothing else |
| RunnerSafety.QuietMeansCovered | internal/poller/usage_aggregation_runner.go:281-324 | with no active round and no pending target every event notified or found at startup is in all three rollups, once |
| RunnerSafety.QuietMeansScanned | internal/poller/usage_aggregation_runner.go:326-428 | with no identity work pending every identity known at the last notification has been aggregated after it |
| RunnerSafety.TurnsAlternate | internal/poller/usage_aggregation_runner.go:334-428 | while both kinds have work the next turn is of the other kind than the last one that was not given up |
| RunnerSafety.TurnsProgress | internal/poller/usage_aggregation_runner.go:447-587 | a rollup turn that ends well, undeferred, has lowered the number of events left before its target unless none were left |
| RunnerProtocol.PageOfThousand | internal/poller/usage_aggregation_runner.go:447-560 | a turn reads the next thousand events behind a cursor, or all that are left before its target |
| RunnerLiveness.ReachedRoundEnds | internal/poller/usage_aggregation_runner.go:597-610 | when a turn ends with the goal of the active round reached, no round is active, and a target is pending only if it lies above the goal |
| RunnerLiveness.ComesToRest | internal/poller/usage_aggregation_runner.go:281-610 | from every reachable world between turns, some run of undisturbed successful turns ends with no active round and no pending target, without another event |
| RunnerLiveness.ComesToFullRest | internal/poller/usage_aggregation_runner.go:281-610 | and some such run goes on until there is no identity work either |
| RunnerLiveness.RestMeansCovered | internal/poller/usage_aggregation_runner.go:281-610 | there, every event notified before is in all three rollups once, and every identity known at the last notice has been aggregated since |
| UsageRunner.Database.ApplyPage | internal/repository/usage_aggregation_checkpoint.go:65-106 | one transaction: rows and cursor together, only from the expected cursor |
| UsageRunner.UsageAggregationRunner.NotifyUsageEventsCommitted | internal/poller/usage_aggregation_runner.go:118-140 | the pending target rises to the largest positive ID committed, in the IDs themselves, and never falls |
| UsageRunner.UsageAggregationRunner.NotifyUsageIdentitiesChanged | internal/poller/usage_aggregation_runner.go:143-152 | a new identity generation is wanted |
| UsageRunner.UsageAggregationRunner.EnsureStartupTarget | internal/poller/usage_aggregation_runner.go:281-306 | the startup target is stored once, whoever comes first |
| UsageRunner.UsageAggregationRunner.FreezePendingTarget | internal/poller/usage_aggregation_runner.go:308-324 | the pending target becomes the round's target or is covered by it |
| UsageRunner.UsageAggregationRunner.NextRunnableKind | internal/poller/usage_aggregation_runner.go:415-428 | the kind whose turn it is if it has work, else the other |
| UsageRunner.UsageAggregationRunner.CompleteRollupRoundIfReady | internal/poller/usage_aggregation_runner.go:597-610 | the round ends exactly when its target has been reached, and only a target above it stays pending (`RunnerLiveness.ReachedRoundEnds`) |
| UsageRunner.UsageAggregationRunner.AdvanceAfterFailedTurn | internal/poller/usage_aggregation_runner.go:612-624 | a failed turn passes the turn to the other kind |
| UsageRunner.UsageAggregationRunner.RunSharedRollupsPage | internal/poller/usage_aggregation_runner.go:447-504 | one page is applied to each of the three rollups, as the protocol prescribes, whatever fails |
| UsageRunner.UsageAggregationRunner.RunFallbackRollupsPages | internal/poller/usage_aggregation_runner.go:506-587 | lagging rollups are brought forward one page each, as the protocol prescribes, whatever fails |
| UsageRunner.UsageAggregationRunner.RunRollupsTurn | internal/poller/usage_aggregation_runner.go:430-445 | a rollup turn is shared when the cursors agree and falls back otherwise |
| UsageRunner.UsageAggregationRunner.RunPreparedOnce | internal/poller/usage_aggregation_runner.go:334-413 | one scheduled turn leaves fields and database as a turn of the protocol does |
| UsageRunner.DriveIsRun | internal/poller/usage_aggregation_runner.go:430-587 | a turn driven without interference is a run of the protocol, so all run properties hold of it |
| UsageRunner.TurnIsRun | internal/poller/usage_aggregation_runner.go:334-413 | so is every undisturbed turn of the runner object: rollups with or without the cursors, an identity page, or a turn given up to or failed over the inbox |
| HistoryTrack.CountsConserved | internal/quota/codex_quota_history_scheduler.go:238-457 | the counts in a window's entries and stable tail grow by exactly the counts accepted |
| HistoryTrack.DecideForward | internal/quota/codex_quota_history_scheduler.go:274-380 | an accepted observation is never older than the last one, and a rise inside a cycle is accepted only on authority |
| HistoryTrack.StepCoherent | internal/quota/codex_quota_history_scheduler.go:238-457 | one single-moment observation keeps a window's entries time-ordered, meeting only at endpoints, rising inside a cycle only on an authoritative entry |
| HistoryTrack.RunCoherent | internal/quota/codex_quota_history_scheduler.go:116-143 | so does any list of them, in any order |
| HistoryTrack.RunAbove | internal/quota/codex_quota_history_scheduler.go:238-457 | no entry of a batch reaches back behind what the window had accepted before |
| HistoryMeaning.ReceiveMeans | internal/quota/codex_quota_history_scheduler.go:238-457 | for any observation whatever: known percentage, time, reset and source, the entries, the waiting tail and the cycle afterwards, said in percentages, times and resets |
| HistoryMeaning.UnchangedExactly | internal/quota/codex_quota_history_scheduler.go:274-380 | a well-formed observation leaves known state, entries and tail unchanged exactly when it is older, of a cycle that would reset earlier, an untrusted rise, or of the last moment with no new reset |
| HistoryMeaning.RunMeans | internal/quota/codex_quota_history_scheduler.go:238-457 | for ordinary observations of one cycle at rising times: the known percentage is the lowest of the start and all observed, and the new entries are exactly the new lows, behind a tail that waited |
| HistoryMeaning.LowestIsMinimum | internal/quota/codex_quota_history_scheduler.go:274-380 | the lowest percentage is one of them and no larger than any |
| HistoryScheduler.HistoryRunner.AppendDeferred | internal/quota/codex_quota_history_scheduler.go:419-426 | the stable tail is written out before a change, in its window only |
| HistoryScheduler.HistoryRunner.AppendChange | internal/quota/codex_quota_history_scheduler.go:384-397 | a new entry is appended and the window's index points at it |
| HistoryScheduler.HistoryRunner.MergeDeferred | internal/quota/codex_quota_history_scheduler.go:400-416 | the stable tail absorbs the observation, in its window only |
| HistoryScheduler.HistoryRunner.Restore | internal/quota/codex_quota_history_scheduler.go:257-276 | a window is restored once per batch; a failed restore is not repeated and blocks that window only |
| HistoryScheduler.HistoryRunner.MergeCalibration | internal/quota/codex_quota_history_scheduler.go:321-343 | a same-moment reset calibration goes into the growing entry, or into one of its own |
| HistoryScheduler.HistoryRunner.MergeExtension | internal/quota/codex_quota_history_scheduler.go:349-373 | a repeated percentage goes into the growing entry, or into the stable tail; it is reported as written exactly if it reached an entry |
| HistoryScheduler.HistoryRunner.MergeObservation | internal/quota/codex_quota_history_scheduler.go:238-381 | the maps and the pending list take exactly the one step of that window's track; a live index points at the window's own last entry and excludes a stable tail; the observation is reported as written exactly if it reached an entry |
| HistoryScheduler.StepReaches | internal/quota/codex_quota_history_scheduler.go:238-381 | what reaches an entry: every change and calibration, and an extension while the last entry can grow |
| HistoryBatch.MergeAll | internal/quota/codex_quota_history_scheduler.go:116-131 | windows do not disturb each other: a batch does to each what its own candidates alone would do; the cohorts are exactly those of candidates that reached an entry |
| HistoryBatch.SplitPreferred | internal/quota/codex_quota_history_runner.go:127-156 | trusted candidates, and the headers no trusted candidate of the same window replaces |
| HistoryBatch.PreferredWindow | internal/quota/codex_quota_history_runner.go:127-156 | a window is judged by its trusted candidates alone if it has any, otherwise by all its headers |
| HistoryBatch.MarkCohorts | internal/quota/codex_quota_history_scheduler.go:132-138 | exactly the tails of the given cohorts are marked immediate; observations stay |
| HistoryBatch.AppendDue | internal/quota/codex_quota_history_scheduler.go:429-457 | exactly the due tails and the tails of their cohorts are collected, one entry for each window |
| HistoryBatch.SortKeepsWindow | internal/quota/codex_quota_history_scheduler.go:474-490 | the stable sort before writing leaves each window's entries in their order |
| HistoryBatch.Flush | internal/quota/codex_quota_history_scheduler.go:474-528 | success removes the due tails, clears every index and stamps the windows written; failure forgets exactly the windows in the list |
| HistoryRuns.MergeAndMark | internal/quota/codex_quota_history_scheduler.go:116-138 | after the merge the tails due are exactly those marked, of a cohort written to, or an interval old, and the others of their cohorts |
| HistoryRuns.ProcessBatch | internal/quota/codex_quota_history_scheduler.go:116-143 | for every window: the writer's entries are its track plus its tail if due, time-ordered and trusted in their rises, and counts are conserved; exactly the tails due are written; afterwards no index is live |
| HistoryRuns.ShutdownWritesAll | internal/quota/codex_quota_history_scheduler.go:429-457 | shutting down leaves no tail out of the written list |
| HistoryRuns.BatchesChain | internal/quota/codex_quota_history_scheduler.go:116-143 | entries of two successive written batches still follow each other and meet only at endpoints |
| BatchMeaning.JudgedInOrder | internal/quota/codex_quota_history_scheduler.go:155-171 | the observations of a window are judged by the time of observation, those of one moment in the order they came in |
| BatchMeaning.ListedInOrder | internal/quota/codex_quota_history_scheduler.go:474-490 | the writer's list goes by provider, account and role, and by time within a window |
| BatchMeaning.WrittenOutMeans | internal/quota/codex_quota_history_scheduler.go:116-143 | a tail is written exactly when it, or the other tail of the same account and moment, was marked, has an entry of its answer written in this batch, or was last written an interval ago or never; or when all are |
| EfficiencyPeriods.BuildCyclePeriods | internal/repository/codex_quota_efficiency.go:346-384 | the backward scan gives each cycle the period from its start to its effective end; only the current cycle can be marked |
| EfficiencyPeriods.LatestCycleId | internal/repository/codex_quota_efficiency.go:336-344 | the cycle observed last, ties by ID, or zero for none |
| EfficiencyPeriods.EndIsEarliest | internal/repository/codex_quota_efficiency.go:356-371 | unless a start at the zero time does harm, a period ends at the earliest of its reset and all later-observed starts |
| EfficiencyPeriods.EndsExactlyWhenHarmless | internal/repository/codex_quota_efficiency.go:356-371 | all periods end before every later-observed start exactly when no zero start does harm: each cycle before one has its reset by then or is cut further back |
| EfficiencyPeriods.PeriodsDisjoint | internal/repository/codex_quota_efficiency.go:346-384 | no instant lies in the periods of two cycles, exactly when no instant is open in two cycles with a zero start observed in between and no start before the zero time to cut the first one off |
| EfficiencyPeriods.HarmlessDisjoint | internal/repository/codex_quota_efficiency.go:346-384 | where no zero start does harm the periods are disjoint |
| EfficiencyPeriods.PeriodsCover | internal/repository/codex_quota_efficiency.go:346-384 | an instant of a cycle that no later cycle claims stays in its period |
| EfficiencyPeriods.ZeroStartOverlaps | internal/repository/codex_quota_efficiency.go:356-371 | a cycle starting at the zero time defeats the scan: two periods overlap |
| EfficiencyPeriods.BuildTransitions | internal/repository/codex_quota_efficiency.go:386-410 | one transition for each step down between neighbouring segments |
| EfficiencyPeriods.TransitionsChain | internal/repository/codex_quota_efficiency.go:386-410 | transitions of ordered segments follow each other and each is a real drop |
| EfficiencyPeriods.PointsConserved | internal/repository/codex_quota_efficiency.go:386-410 | the drops add up to first minus last percentage exactly when the percentage never rises, and to more otherwise |
| AnswerMeaning.DropsAreSteps | internal/repository/codex_quota_efficiency.go:386-410 | the transitions are exactly the segments below the one before them, from the first observation of the one to that of the other |
| EfficiencyWorks.BuildWorks | internal/repository/codex_quota_efficiency.go:151-190 | one work for each shown cycle, read up to now if current and to the period's end otherwise |
| EfficiencyWorks.WorksChain | internal/repository/codex_quota_efficiency.go:412-425 | periods being disjoint, the works sorted by start each end before or where the next one starts |
| EfficiencyUsage.GuardExact | internal/repository/codex_quota_efficiency.go:489-503 | the check after an event passes exactly when all events of the cycle so far are additive and no total it looks at has left 64 bits |
| EfficiencyUsage.GoodTotals | internal/repository/codex_quota_efficiency.go:555-593 | until then the wrapped totals are the exact ones |
| EfficiencyUsage.SameUsage | internal/repository/codex_quota_efficiency.go:555-593 | usage totals do not depend on the columns read |
| EfficiencyMeaning.UsageCountsEvents | internal/repository/codex_quota_efficiency.go:555-593 | usage totals: one request for each event, failed or successful, and the sum of each kind of token, as 64-bit numbers |
| EfficiencyMeaning.GroupCountsEvents | internal/repository/codex_quota_efficiency.go:555-593 | a pricing group holds the token sums of exactly the events whose columns are read as its own |
| EfficiencyMeaning.AdditiveMeans | internal/repository/codex_quota_efficiency.go:546-549 | additive: no count is negative and the two cache counts together are within the input |
| EfficiencyCost.ProjectionKeepsPrice | internal/repository/codex_quota_efficiency.go:532-544 | one usage has the same cost and availability with all columns and with the active ones |
| EfficiencyCost.CompiledIsWellFormed | internal/pricing/snapshot.go:83-96 | every catalogue that compiles looks only at active fields and has no nameless model |
| EfficiencyCost.Finalize | internal/repository/codex_quota_efficiency.go:595-614 | pricing the groups in any order gives their total and whether every one is available |
| EfficiencyCost.GroupsCostEvents | internal/repository/codex_quota_efficiency.go:595-614 | grouped pricing equals pricing event by event |
| EfficiencyCost.ProjectionKeepsCost | internal/repository/codex_quota_efficiency.go:532-544 | grouping by active columns, by all columns, and event by event give the same total and the same availability |
| EfficiencyMeaning.QuotePriced | internal/repository/codex_quota_efficiency.go:595-614 | the quote of additive counts with a price: input past the cache, cache reads, cache writes and output, each at its own price, times the multipliers |
| EfficiencyMeaning.QuoteUnpriced | internal/repository/codex_quota_efficiency.go:595-614 | without a price a group costs nothing and is complete exactly if nothing was used, totals included |
| EfficiencyMeaning.SubjectOf | internal/repository/codex_quota_efficiency.go:595-614 | a group is priced by its columns and the account without surrounding blanks, a missing group or model as `unknown` |
| EfficiencyStream.AdvanceWork | internal/repository/codex_quota_efficiency.go:476-482 | the work pointer skips exactly the works that ended |
| EfficiencyStream.AdvanceDrop | internal/repository/codex_quota_efficiency.go:506-510 | the drop pointer skips exactly the drops that ended before the event |
| EfficiencyStream.EventInside | internal/repository/codex_quota_efficiency.go:476-489 | an event in the pointer's work belongs to no other work |
| EfficiencyStream.DropTakes | internal/repository/codex_quota_efficiency.go:505-517 | an event is added to the pointer's drop exactly when in its left-open interval, and to no other |
| EfficiencyStream.Pass | internal/repository/codex_quota_efficiency.go:412-519 | one pass gives every cycle and every drop what the naive interval join gives; it gives up exactly when the guard objects to some prefix |
| EfficiencyHistory.RowsSuffice | internal/repository/codex_quota_efficiency.go:426-450 | reading only from the first start to the last end loses no event of any work |
| EfficiencyHistory.StreamUsage | internal/repository/codex_quota_efficiency.go:412-530 | with the restart on all columns, the records equal the naive join under full grouping for any events whatever |
| EfficiencyHistory.BuildHistory | internal/repository/codex_quota_efficiency.go:130-212 | every shown cycle gets one record, equal to the naive join of its effective period with all events, for all cycles with disjoint periods |
| EfficiencyHistory.EventCountedOnce | internal/repository/codex_quota_efficiency.go:412-530 | an event is counted in one cycle and one drop at most |
| AnswerMeaning.AnswerMeans | internal/repository/codex_quota_efficiency.go:85-212 | where no zero start does harm: a cycle has a record exactly if its period, up to the earliest of its reset and the later-observed starts, is not empty, reaches into the range, and is over or current; the record joins the events of that period and of its drops |
| UsageCost.CostAdds | internal/helper/usage_cost.go:27-50 | additive counts cost the same priced together or apart, on top of what `PricingMeaning.UsagePriced` says each costs |
| UsageCost.UncachedInputExact | internal/helper/usage_cost.go:37-41 | for clamped counts the wrapped subtractions are right exactly as long as the result is a signed 64-bit number; beyond that input appears out of none |
| PricingMeaning.UsagePriced | internal/pricing/resolver.go:41-91 | for 64-bit counts and a matched model: each segment is its own count at its own price per million, times the model's multiplier and those of all rules that match; the total is the sum of the four |
| PricingMeaning.UsageUnpriced | internal/pricing/resolver.go:41-64 | a usage no model is named for costs nothing and is complete exactly if no count is positive |
| PricingMeaning.MillionOfOneKind | internal/helper/usage_cost.go:27-50 | a million tokens of one kind alone cost that kind's price times the multipliers |
| TextMeaning.TrimMeans | internal/pricing/fields.go:120-139 | canonical strings: the blanks at both ends are gone, and nothing else |
| TextMeaning.LowerMeans | internal/pricing/fields.go:38-47 | rule keys are compared in lower case, letter by letter |
| TextMeaning.CompareMeans | internal/quota/codex_quota_history_scheduler.go:155-171 | names are ordered character by character, a beginning before the whole |
| PricingRules.CanonicalByField | internal/pricing/fields.go:120-131 | a canonical dimension depends on that dimension only |
| PricingRules.MatchingRuleMultiplier | internal/pricing/resolver.go:79-91 | the loop returns the product of the matching multipliers, ending at a zero |
| PricingRules.SafeMultiplyFits | internal/pricing/snapshot.go:206-215 | it multiplies exactly when the product is finite |
| PricingSafety.CombineRules | internal/pricing/snapshot.go:163-181 | the field maxima are multiplied, refused exactly when the whole product is not finite |
| PricingSafety.TotalsFit | internal/pricing/snapshot.go:187-203 | both running price totals are finite exactly when the final ones are |
| PricingSafety.ValidateWorstCaseCost | internal/pricing/snapshot.go:150-204 | accepts exactly when the largest possible cost is finite |
| PricingSafety.PartialProductBounded | internal/pricing/snapshot.go:160-172 | since one rule per field can match, every partial product stays below the product of the field maxima |
| PricingSafety.MultiplierIsProduct | internal/pricing/resolver.go:79-91 | the multiplier used is the full product of the matching rules |
| PricingSafety.FittingStaysFinite | internal/pricing/snapshot.go:150-204 | for a fitting model and 64-bit tokens every partial product, segment and total stays finite |
| PricingCatalogue.CompileModelConfig | internal/pricing/snapshot.go:68-105 | accepts exactly the models with a name, valid numbers, valid distinct rules and a finite worst case; keeps the rules that matter and their fields |
| PricingCatalogue.CompileSnapshot | internal/pricing/snapshot.go:44-66 | accepts exactly when every model is accepted and no name repeats; the snapshot holds those models and the union of their fields |
| PricingCatalogue.KeptRulesPriceAll | internal/pricing/snapshot.go:91-96 | leaving out rules with multiplier one changes no price |
| PricingCatalogue.AcceptedNeverOverflows | internal/pricing/snapshot.go:44-105 | no 64-bit usage can push any number of its pricing under an accepted catalogue past the largest finite one |
| CatalogueMeaning.RuleAccepted | internal/pricing/snapshot.go:112-126 | a rule is accepted if its trimmed lower-case key is one of the nine names, its value is not blank and its multiplier finite and not negative; it then applies where that dimension has the trimmed value |
| CatalogueMeaning.AcceptedExactly | internal/pricing/snapshot.go:68-105 | an entry is accepted exactly if it has a name, finite prices and multiplier that are not negative, rules in order with no two for one value of one dimension, and a finite worst case |
| CatalogueMeaning.WorstCaseMeans | internal/pricing/snapshot.go:150-204 | the worst case: 2^63-1 tokens at the sum of the four prices, times the model's multiplier and the largest multiplier of each of the nine dimensions; it must be finite, with and without the multipliers |
| CatalogueMeaning.MaxIsLargest | internal/pricing/snapshot.go:150-172 | the largest multiplier of a dimension is one or that of one of its rules, and no smaller than any |
| CatalogueMeaning.CataloguePrices | internal/pricing/resolver.go:41-91 | a usage is priced by the entry of its model name, or else of its alias, with that entry's own prices, multiplier and all its rules that apply; by none exactly if neither is named |
| HeaderMerge.MergeAdditional | internal/quota/header_cache_worker.go:398-435 | the nested loops compute the component-wise merge of the additional limits |
| HeaderMerge.OfferAllShows | internal/quota/header_cache_worker.go:398-435 | each additional limit is the later of the two observations of it |
| HeaderMerge.MergedComponents | internal/quota/header_cache_worker.go:182-274 | for snapshots at any times: main windows, limit-reached mark and every additional limit of a merge are each the later of the two observations, and one without a time takes on that of the merged snapshot |
| HeaderMerge.MergedWindows | internal/quota/header_cache_worker.go:295-329 | the two Claude windows of a merge are each the later of the two observations |
| HeaderMerge.MergeTakes | internal/quota/header_cache_worker.go:182-274 | which snapshot a merge takes the plan, the main windows and the identity from: of two at one time the second; a blank plan gives way |
| HeaderMerge.NewerWhole | internal/quota/header_cache_worker.go:182-274 | snapshots that cannot be compared by part: the newer one whole, at one time the second |
| HeaderMerge.OfferAllPlaces | internal/quota/header_cache_worker.go:398-435 | limits keep their places, new ones follow in their own order |
| HeaderOrder.LiftFoldExact | internal/quota/header_cache_worker.go:221-235 | a component that takes on the time of the whole has one value in all orders exactly when its latest carriers agree and no disagreeing carrier without a time stands beside a later snapshot without the component |
| HeaderOrder.LaterFoldExact | internal/quota/header_cache_worker.go:398-435 | a component that keeps its own time has one value in all orders exactly when its latest carriers agree |
| HeaderOrder.WholeFoldExact | internal/quota/header_cache_worker.go:199-219 | a component taken from the newer snapshot has one value in all orders exactly when the newest carriers agree, or all carriers where none of the newest snapshots carries it |
| HeaderFold.CodexOrderExact | internal/quota/header_cache_worker.go:182-274 | for snapshots at any times, zero and equal ones included: exactly when main windows, limit-reached mark, each additional limit and the plan come out the same in every order |
| HeaderFold.ClaudeOrderExact | internal/quota/header_cache_worker.go:295-329 | each Claude window comes out the same in every order exactly when its latest carriers agree |
| HeaderFold.CodexOrderIrrelevant | internal/quota/header_cache_worker.go:182-274 | so at different real times main windows, mark, additional limits and time never depend on the order, and each comes from the latest snapshot carrying it |
| HeaderFold.ClaudeOrderIrrelevant | internal/quota/header_cache_worker.go:295-329 | nor do the Claude windows at different times |
| HeaderPending.Oldest | internal/quota/header_cache_worker.go:438-452 | an entry older than or as old as every other |
| HeaderPending.PendingSnapshots.MergeOne | internal/quota/header_cache_worker.go:133-171 | merge, add, replace the oldest, or turn away; below the limit the snapshot has its entry and those of all other identities stay as they were; nothing lost is newer than anything kept, and a full map's oldest time never goes back |
| HeaderPending.PendingSnapshots.MergeAll | internal/quota/header_cache_worker.go:133-179 | for any number of snapshots the limit holds, a full map's oldest time never decreases, and with room for all every identity has its entry |
| HeaderPending.KeysAndIdentities | internal/quota/header_cache_worker.go:143-155 | for strings without a NUL two snapshots share an entry exactly if they are of one identity, or one without an account is of provider claude and its authentication type reads like the account of the other's claude entry |
| HeaderPending.EntriesApart | internal/quota/header_cache_worker.go:133-171 | so two entries of the map are of different identities |
| HeaderPending.AccountLikeEntry | internal/quota/header_cache_worker.go:143-155 | an input for that exception: a claude snapshot without an account whose authentication type equals another's account |
| RefreshSafety.RunInv | internal/quota/refresh.go:320-432 | ownership, token and record invariants hold after every interleaving |
| RefreshSafety.TokensBounded | internal/quota/refresh.go:355-390 | tokens out equal live workers plus dispatchers about to start one, and live workers never exceed the limit |
| RefreshSafety.SettledOnce | internal/quota/refresh.go:487-556 | a record is completed or failed at most once |
| RefreshSafety.WorkerWritesOwn | internal/quota/refresh.go:382-424 | a worker changes no record but its own, and settles it only while running and still current |
| RefreshSafety.OutcomeWritten | internal/quota/refresh.go:382-556 | what a worker or dispatcher leaves in the record in hand: running, completed with the result, failed with the expiry, or removed; each only while the map still holds that record |
| RefreshSafety.ActiveDisplaced | internal/quota/header_cache_worker.go:847-897 | an active task leaves the map unsettled only to a header of another type or by its own worker |
| RefreshSafety.NothingStuck | internal/quota/refresh.go:355-380 | with no dispatcher and no worker left, no task is left queued or running |
| RefreshTasks.TaskMap.EnsureTask | internal/quota/refresh.go:320-353 | a new queued record, with nothing set, unless one is queued or running |
| RefreshTasks.TaskMap.MarkTaskRunning | internal/quota/refresh.go:465-485 | only the current, still queued record starts running |
| RefreshTasks.TaskMap.MarkTaskCompleted | internal/quota/refresh.go:487-509 | only the current record is completed: with the result, the time, one more settling, and nothing else changed |
| RefreshTasks.TaskMap.MarkTaskFailed | internal/quota/refresh.go:519-556 | only the current record is failed: with the time and its expiry, the result it had, and nothing else changed |
| RefreshTasks.TaskMap.DeleteTask | internal/quota/refresh.go:426-432 | only the current record is removed |
| RefreshTasks.TaskMap.CleanupExpired | internal/quota/refresh.go:564-573 | exactly the entries whose expiry is set and reached leave the map |
| RefreshTasks.TaskMap.TaskForRead | internal/quota/refresh.go:582-590 | an expired entry is never shown and leaves the map |
| RefreshTasks.TaskMap.ClearSettledTasks | internal/quota/inspection.go:209-218 | exactly the entries that are not active leave the map |
| RefreshTasks.TaskMap.MergeHeaderCache | internal/quota/header_cache_worker.go:847-906 | written exactly when neither an active task of the type nor a cache no older stands in the way |
| ActivityGrain.FloorDivIsFloor | internal/activity/grain.go:223-232 | the corrected truncating division is the mathematical floor for both signs |
| ActivityGrain.FixedBucketIndex | internal/activity/grain.go:191-204 | the index is that of the bucket containing the instant, at most one step from the estimate |
| ActivityGrain.ShortBucketIndex | internal/activity/grain.go:144-159 | likewise inside a local day of any length, with an index from 0 to 363 |
| ActivityGrain.BucketForTimestamp | internal/activity/grain.go:43-68 | every instant lies in the storage bucket returned; only unsupported grains are refused |
| ActivityGrain.BucketUnique | internal/activity/grain.go:178-221 | no instant lies in two storage buckets of a grain |
| ActivityGrain.ShortNext | internal/activity/grain.go:178-189 | the last block of a local day ends where the first of the next begins |
| ActivityGrain.FixedSpan | internal/activity/grain.go:216-221 | 364 fixed buckets span one window exactly |
| ActivityGrain.BoundaryAt | internal/activity/grain.go:178-221 | boundary i lies at the second below i 364ths of a week, of thirty days, or of its local day |
| ActivityGrain.ShortWindowEndingAt | internal/activity/grain.go:161-176 | walking back yields 364 consecutive storage buckets, across midnights |
| ActivityGrain.WindowEndingAt | internal/activity/grain.go:71-127 | 364 consecutive storage buckets, the last ending at the first boundary not before the reference |
| ActivityGrain.WindowContiguous | internal/activity/grain.go:71-127 | the window has no gap and contains or ends at the reference |
| Resp.Writer.WriteCommand | internal/cpa/redis_queue_client.go:172-182 | appends the encoding of the command |
| Resp.Reader.ReadLine | internal/cpa/redis_queue_client.go:305-325 | a line within the limit ending in CR LF, or an error |
| Resp.Reader.ReadBulk | internal/cpa/redis_queue_client.go:247-277 | a bulk string, charged to the budget, or an error |
| Resp.Reader.ReadArray | internal/cpa/redis_queue_client.go:279-303 | an array read item by item, or an error |
| Resp.Reader.ReadValue | internal/cpa/redis_queue_client.go:223-245 | one value as the parsing function defines it, and so by the grammar of `RespMeaning.AcceptsGrammar`; the recursion ends |
| Resp.Reader.ReadWithLimits | internal/cpa/redis_queue_client.go:215-221 | array limits outside 1 to 10000 mean 10000, and the bulk budget starts at 16 MiB |
| Resp.ValueBounded | internal/cpa/redis_queue_client.go:223-303 | accepted values keep the depth, array and bulk limits, and the budget is charged exactly the bulk bytes read |
| Resp.AcceptedTotal | internal/cpa/redis_queue_client.go:215-221 | the bulk bytes of an accepted value never exceed 16 MiB |
| Resp.CommandRoundTrip | internal/cpa/redis_queue_client.go:172-303 | a written command is read back as its parts for any bytes, what follows is left unread, and it is refused exactly when a limit is broken |
| RespMeaning.AcceptsGrammar | internal/cpa/redis_queue_client.go:223-325 | a value is accepted exactly when it stands there by the grammar: a line behind `+` or `-`, bytes behind their length and `$`, items behind their number and `*`, nothing behind a negative one; within depth 4, 4 MiB a string, 4096 bytes a line and the budget |
| RespMeaning.SignedNumbers | internal/cpa/redis_queue_client.go:247-290 | a length or number is read with a sign or none, and refused past 64 bits |
| Sessions.SessionManager.Create | internal/auth/session.go:328-356 | the session is in cache and store alike, under a fresh token; expired rows are gone |
| Sessions.SessionManager.Get | internal/auth/session.go:433-449 | found exactly when its row exists and has not expired, with that row's role, source, alias and expiry |
| Sessions.SessionManager.GetPersisted | internal/auth/session.go:536-568 | the row is answered and cached, or deleted when expired |
| Sessions.SessionManager.Touch | internal/auth/session.go:359-400 | activity is noted exactly for a live session seen from another known address, or last noted a minute ago; in the cache and as pending update; others stay; one writer at most is running |
| Sessions.SessionManager.WriterTakes | internal/auth/session.go:403-422 | takes one update, or leaves exactly when nothing is pending |
| Sessions.SessionManager.WriterPersists | internal/auth/session.go:422-425 | updates the row of the update in hand if it still exists |
| Sessions.SessionManager.UpdateAdminAlias | internal/auth/session.go:503-534 | the alias changes in cache and row together, exactly for a live admin session |
| Sessions.SessionManager.Delete | internal/auth/session.go:624-636 | the session leaves cache and store |
| Sessions.SessionManager.DeleteByTokenHash | internal/auth/session.go:570-597 | the session with the hash leaves cache and store; the count says whether it was live |
| Sessions.SessionManager.DeleteByRole | internal/auth/session.go:599-622 | all sessions of the role leave; the count is the number of live rows of the role |
| Sessions.SessionManager.List | internal/auth/session.go:451-500 | exactly the live rows, cached ones with their latest activity |
| Sessions.SessionManager.CleanupExpired | internal/auth/session.go:638-656 | exactly the expired sessions leave cache and store |
| Sessions.QuietMeansPersisted | internal/auth/session.go:403-426 | once no writer is running, cached sessions and rows agree in everything, last activity included |
| MetadataSync.NothingLost | internal/app/metadata_sync.go:59-147 | an unserved request always has a token, a running or fired timer, a requester about to send, or the loop acting on one |
| MetadataSync.NeverStuck | internal/app/metadata_sync.go:59-147 | the loop can move on by itself unless it waits for a requester or a timer due within the debounce period |
| MetadataSync.NoSyncBeforeConnection | internal/app/metadata_sync.go:88-116 | no sync begins before ingest has connected once |
| MetadataSync.QuietBeforeSync | internal/app/metadata_sync.go:126-143 | a debounced sync begins only after the quiet period following the last request it saw |
| MetadataLiveness.SyncBegins | internal/app/metadata_sync.go:59-147 | from every reachable world with an unserved request, the loop left alone begins a sync no later than a debounce period from then |
| MetadataSync.Runner.RecordRefreshRequest | internal/app/metadata_sync.go:283-298 | mode, activation and request time change as in the protocol; a token follows exactly when activated |
| MetadataSync.Runner.RefreshDebounceDelay | internal/app/metadata_sync.go:320-338 | the rest of the quiet period, never negative |
| MetadataSync.Runner.OnRefresh | internal/app/metadata_sync.go:117-125 | a token arms the timer or starts it over |
| MetadataSync.Runner.DrainRefreshRequests | internal/app/metadata_sync.go:307-318 | the channel is empty afterwards and nothing else has changed |
| MetadataSync.Runner.OnDebounce | internal/app/metadata_sync.go:126-143 | the timer is re-armed for the rest of the quiet period, or the sync is decided on |

## Left out

- HTTP handlers, response mapping, sockets, TLS, logging, configuration and the browser interface.
- SQL: a page load is a sorted bounded read, an apply is an atomic compare-and-advance, and the event query is a filter and a sort; identity checks of history and header candidates are taken as done.
- Floating-point rounding, NaN and infinities: costs are exact reals.
- SplitMix64 and SHA-256: the priority is any function of the event ID, and the token hash any injective function.
- Provider payload decoding, subscription labels, reset grants and the merging of quota rows for display.
- UsageRunner.UsageAggregationRunner.RunPreparedOnce: the retry timer, wake channel and shutdown around a turn are not modelled, nor the report it returns beyond what becomes of fields and database.
- HistoryRuns.ProcessBatch: covers observations that are single moments, as they are built; candidates arrive verified, and plan types are not carried.
- HistoryRuns.BatchesChain: speaks of two batches in a row between which the window's state is retained, not of what the database restores after a failed write.
- Deleting a cycle from the history runner, its two bounded input queues and its one-minute window.
- The choice of a window role and the display fields of an efficiency record, and dividing its totals by percentage points.
- HeaderFold.CodexOrderExact: requires different names of additional limits within one snapshot, and snapshots nothing has been merged into yet.
- HeaderPending.PendingSnapshots.MergeOne: missing snapshots are taken as skipped; identities are told apart for strings without a NUL.
- RefreshSafety.TokensBounded: a token is also held by a dispatcher between taking it and starting the worker, so tokens equal workers plus such dispatchers.
- Refresh request validation, inspection rounds and provider calls; an outcome of a call is a parameter.
- ActivityGrain.BucketForTimestamp: local midnights are a strictly rising sequence with at least one second for each of the 364 blocks, and 64-bit overflow of index times window is not modelled.
- Resp.Reader.ReadLine: an error says nothing about how far the connection was read.
- UsageRows.BuildOverviewRows: sums are unbounded integers, and the fixed write order of the rows is not modelled.
- UsageRows.BuildActivityRows: a row is known by the start of its bucket, and the fixed write order is not modelled.
- LatencyPages.BuildRows: where local hours and days begin are parameters; the 64-bit wrap-around of the sample count lies beyond any page.
- Sessions.SessionManager.Get: its two critical sections are one step, and a manager without a store is not modelled; store failures, which panic, are not either.
- Sessions.SessionManager.List: returns the records as a map by hash, without their order.
- AnswerMeaning.AnswerMeans: requires that no start at the zero time does harm; for the rest `EfficiencyHistory.BuildHistory` holds with the scan's own ends.
- MetadataSync.Runner.OnDebounce: the select statement around the branches exists in the state machine only.
