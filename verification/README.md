# MinIODB in Dafny

MinIODB buffers rows in memory behind a write-ahead log, flushes them to object storage as parquet files, compacts
those files in size tiers, prunes them at query time, caches query results, and merges answers from several nodes.
This project models the parts of it that hold state, loops and arithmetic, and proves what they keep: over every run,
every crash, every interleaving, every division of rows among nodes.

| file | component | modelled source |
|---|---|---|
| Wal.dfy | log file format, log object | internal/wal/wal.go |
| Durable.dfy | point buffer behind the log, with crashes | internal/buffer/durable_manager.go |
| BufferReplay.dfy, BufferRuns.dfy, BufferProgress.dfy, BufferDurability.dfy, BufferLosses.dfy, ConcurrentBuffer.dfy | buckets, flush tasks, tombstones, replay, crashes | internal/buffer/concurrent_buffer.go |
| FieldMapping.dfy | field names to parquet columns | internal/buffer/concurrent_buffer.go |
| TopN.dfy, Aggregates.dfy, GroupBy.dfy | distributed reduce | internal/coordinator/aggregation_strategy.go |
| Compaction.dfy | tiered compaction | internal/compaction/manager.go |
| Pruning.dfy | file and partition pruning | internal/query/file_pruning.go |
| Normalize.dfy, SqlText.dfy, Lru.dfy, QueryCache.dfy | query cache | internal/query/query_cache.go |
| CountMin.dfy, Hll.dfy, SketchEngine.dfy | sketches | internal/query/approximation.go |
| Pool.dfy | DuckDB connection pool | internal/query/query.go |
| Registry.dfy | cluster node states | internal/discovery/service_registry.go |
| Prelude.dfy | shared definitions | |

Objects that the program updates in place are classes; loops are methods with invariants; protocols (the buffers, the
query cache, the pool, the registry) also have a pure step function, and each class method is proved equal to its step,
so that the theorems about runs of steps are theorems about the objects. Calls into the file system, object storage,
Redis, DuckDB, the clock and the random order of Go's maps are parameters or arbitrary choices; every theorem holds
whatever they do, except where a hypothesis is named.

## Where the code falls short of its comments

Each of these is a theorem: the input that shows it, and the exact condition under which the promise does hold.

- A row added again after its removal is buffered, but replay drops it (`BufferReplay.ReAddedRowIsDropped`,
  `BufferRuns.CrashRebuildsBufferIff`).
- After recovery the pending counter is too high for as long as the process lives if the log held a row and, later, its
  tombstone (`BufferRuns.TombstonedRowIsStillCounted`, `BufferRuns.PendingCounterIsExactIff`).
- A flushed bucket truncates the log it shares with other buckets: a row of another bucket whose record lies in a
  closed file can be lost in a crash (`BufferLosses.TruncationCanLoseAnotherBucket`,
  `BufferDurability.TruncationKeepsLogIff`).
- After a recovery the old log files are removed as soon as the buffer and the queue are empty, although batches may
  still wait, be with a worker or sleep before a retry (`BufferLosses.RecoveryTruncationCanLoseARetry`,
  `BufferDurability.RecoveryTruncationKeepsLogIff`).
- A removal does not wait for its tombstone to reach the disk (`BufferLosses.LostTombstoneBringsRowBack`,
  `BufferRuns.CrashRebuildsBufferIff`).
- With sync on write switched off, accepted points and rows can be lost in a crash, and only those whose records were
  never synced (`Durable.UnsyncedPointCanBeLost`, `Durable.DroppedWereUnsynced`, `Durable.AcceptedPointsSurvive`,
  `BufferDurability.AcceptedRowsSurvive`).
- `DurableManager.Flush` truncates at the current number, not at the one saved before the flush
  (`Durable.AddDuringFlushCanBeLost`, `Durable.TruncationKeepsBufferedIff`,
  `Durable.TruncatingAtSavedNumberIsHarmless`).
- Fields `A`, `a` and `a_2` are given two columns (`FieldMapping.SuffixClash`, `FieldMapping.InjectiveIffCollisionFree`).
- A null in a column of numbers breaks the sort order (`TopN.NullBreaksTheOrder`, `TopN.StrictWeakIff`).
- Group values with a `|` merge groups (`GroupBy.BarsMergeGroups`, `Prelude.JoinedAloneIff`,
  `GroupBy.RowCarriesTextsIff`).
- MIN and MAX are summed like SUM (`GroupBy.MinimaAreSummed`, `GroupBy.ReducedExtremeIff`), AVG is the average of the
  nodes' averages (`GroupBy.AveragesAreAveraged`, `GroupBy.ReducedAverageIff`, `Aggregates.TwoAveragesAgreeIff`), and
  the last aggregate of a query decides for all its columns, so that a COUNT next to an AVG is divided by the number of
  nodes (`GroupBy.CountNextToAverageIsDivided`, `GroupBy.ReducedTotalIff`).
- Compaction deletes its input although an output could not be stat'ed (`Compaction.FailedStatLosesRecords`,
  `Compaction.MergeIsExactIff`).
- Column ranges of another numeric kind than the predicate's value are compared as text
  (`Pruning.MixedKindsPruneWrongly`, `Pruning.MixedRangeIsSkippedIff`); partitions are written by local day and pruned
  by universal day (`Pruning.LocalDayIsSkipped`, `Pruning.LocalDaysAreScannedIff`).
- A pending access refresh brings an invalidated cache entry back (`QueryCache.EntryComesBack`,
  `QueryCache.InvalidationHoldsIff`), in no index, so that no later invalidation finds it
  (`QueryCache.UnlistedIsNeverInvalidated`), or an older result over a newer one (`QueryCache.OldResultComesBack`,
  `QueryCache.NewResultStaysIff`); a refill can exceed the cache's capacity (`QueryCache.RefillOverflows`,
  `QueryCache.RefillFitsIff`), names with commas or bars share a key (`QueryCache.CommasMergeKeys`,
  `QueryCache.BarsMergeKeys`, `QueryCache.KeysAgreeIff`), and white space inside string literals is
  collapsed (`Normalize.LiteralSpacesCollide`, `SqlText.KeysAgreeOnTokens`).
- Count-Min counters wrap at 32 bits (`CountMin.OverflowUndercounts`, `CountMin.CountMinSketch.RowSumsToTotalIff`), and
  table names with a colon share sketches (`SketchEngine.ColonsShareSketches`, `SketchEngine.SketchesAreApart`).
- The time range extracted from an equality with a bare date ends one second early, which pruning by whole days does
  not notice (`Pruning.DateRangeIsExactUpTo`, `Pruning.MeetingDayIsScanned`).

## Model

| member | source | states |
|---|---|---|
| WalCodec.BigEndianRoundTrip | internal/wal/wal.go:256-309 | a number that fits its width is read back from its big-endian bytes |
| WalCodec.FourBytes | internal/wal/wal.go:256-309 | the value of four bytes, the first the most significant |
| WalCodec.MoreBytes | internal/wal/wal.go:256-309 | a longer number starts with its more significant bytes |
| WalCodec.RecordLayout | internal/wal/wal.go:256-309 | where length, kind, number, checksum, time and data of a written record stand, as numbers; the checksum is that of all other bytes |
| WalCodec.FileHeaderLayout | internal/wal/wal.go:184-212 | the six bytes a file begins with |
| WalCodec.ReadBack | internal/wal/wal.go:256-309 | a written record is read back unchanged, whatever bytes follow it |
| WalCodec.ReadsIff | internal/wal/wal.go:441-516 | a record is read iff it is whole, no larger than 64 MB and its checksum is that of the other bytes, or in the old format of the data; and what it is read as |
| WalCodec.TornRecordStops | internal/wal/wal.go:441-516 | a record cut anywhere is never misread: the scan stops |
| WalCodec.TornScan | internal/wal/wal.go:441-516 | a cut record area yields exactly the complete records |
| WalCodec.ReplayFile | internal/wal/wal.go:339-395 | the reading loop, with header detection and old and new checksums, computes `ReplayOf` |
| WalCodec.TornFileReplaysCompleteRecords | internal/wal/wal.go:339-516 | a log file cut at any byte replays exactly the records written completely before the cut |
| Wal.Wal.constructor | internal/wal/wal.go:157-182 | opening after a crash: the files found are closed, what is in them counts as synced, and numbering resumes at the largest number found |
| Wal.Wal.Append | internal/wal/wal.go:214-254 | the whole new set of files, including the rotation of a full one, and the number returned; a refused write gives its number back; an unsynced one stays in the log, and reports an error exactly if every write has to be synced |
| Wal.WrittenRecords | internal/wal/wal.go:214-254 | a taken write adds exactly one record, under the next number, at the end of the log, makes no other record unsynced, is itself not unsynced if the device stored it, and leaves files already closed as they are |
| Wal.RotatesIff | internal/wal/wal.go:214-254 | the open file is closed iff the append returns its number, the file has reached its maximum with this record, and a new one can be made |
| Wal.Wal.Truncate | internal/wal/wal.go:521-561 | exactly the closed files whose numbers are all at most the argument go, unless the file system refuses |
| Wal.TruncatedRecords | internal/wal/wal.go:521-561 | truncation takes the records of those files and nothing else; none is numbered above the argument, none is of the open file, and order is kept |
| Wal.TruncationKeepsIff | internal/wal/wal.go:521-561 | a record in a closed file survives iff the file system keeps the file or it holds a number above the argument |
| Wal.EndangeredIff | internal/wal/wal.go:521-561 | some record of a set goes iff a closed file that goes holds one |
| Wal.LeftRecords | internal/wal/wal.go:157-254 | a crash loses only records that were never synced, of closed files too |
| Durable.Manager.constructor | internal/buffer/durable_manager.go:38-102 | a new manager is the recovered state of its log |
| Durable.Manager.Recover | internal/buffer/durable_manager.go:63-102 | the replay loop collects its table's points in order, and their largest number |
| Durable.RecoversExactly | internal/buffer/durable_manager.go:63-102 | an entry is recovered iff some data record that parses and names this table or none holds it |
| Durable.HighestMeans | internal/buffer/durable_manager.go:63-102 | the number recovery resumes from is the largest recovered, or zero |
| Durable.RecoveredPoints | internal/buffer/durable_manager.go:63-102 | a point is in memory under a number after a restart iff such a record of the files found holds it |
| Durable.RecoveredOrder | internal/buffer/durable_manager.go:63-102 | in log order, and the number to resume from is that of the last point |
| Durable.Manager.Add | internal/buffer/durable_manager.go:104-145 | logs first, buffers the point behind the others only if the log returned a number; refuses a full buffer |
| Durable.Manager.BeginFlush | internal/buffer/durable_manager.go:147-160 | takes the whole buffer and the number of that moment |
| Durable.Manager.FinishFlush | internal/buffer/durable_manager.go:161-174 | puts a failed batch back in front with the saved number and leaves the log alone, or truncates the log at the current number |
| Durable.Manager.Clear | internal/buffer/durable_manager.go:188-192 | empties the buffer and leaves the log alone |
| Durable.FailedFlushUndone | internal/buffer/durable_manager.go:147-174 | beginning a flush and failing it is no change at all; a point added meanwhile stands behind the batch |
| Durable.EverythingCanBeFlushed | internal/buffer/durable_manager.go:147-174 | from any state, giving up a pending flush and flushing once stores every point in memory, once each |
| Durable.AcceptedPointsSurvive | internal/buffer/durable_manager.go:63-174 | at least once, with a crash at any step, from any log: along every run without an add between swap and truncation, every point was flushed, cleared, dropped by a crash or is in the log, together at least as often as it was accepted; what is in memory is in the log in order; with sync on write its records are synced and nothing was dropped |
| Durable.DroppedWereUnsynced | internal/wal/wal.go:239-253 | a crash drops a point in memory only if its record was never synced |
| Durable.UnsyncedPointCanBeLost | internal/wal/wal.go:239-253 | without sync on write, a concrete run that drops an accepted point |
| Durable.QuietIsHarmless | internal/buffer/durable_manager.go:147-174 | along such a run no truncation takes a file with a buffered record |
| Durable.HarmlessRunsKeepPoints | internal/buffer/durable_manager.go:63-174 | the same along every run whose truncations take no file with a buffered record |
| Durable.TruncationKeepsBufferedIff | internal/buffer/durable_manager.go:161-174 | the end of a flush keeps what is in memory logged iff no buffered record lies in a removable closed file whose numbers are all at most the current one |
| Durable.OpenFileIsSafe | internal/buffer/durable_manager.go:161-174 | buffered records in the open file are never in danger |
| Durable.TruncatingAtSavedNumberIsHarmless | internal/buffer/durable_manager.go:153-170 | truncating at the saved number would always keep them |
| Durable.AddDuringFlushCanBeLost | internal/buffer/durable_manager.go:147-174 | with files of the default size, a concrete run that loses an accepted point |
| Durable.BufferIsReplaySuffix | internal/buffer/durable_manager.go:63-174 | along every tidy run the buffer is a suffix of what replay would return |
| BufferKeys.PrefixIsOwnTable | internal/buffer/concurrent_buffer.go:1472-1500 | a bucket key has the prefix of its own table and of no other properly named table |
| BufferKeys.SameBucketIff | internal/buffer/concurrent_buffer.go:1014-1042 | rows share a bucket iff they share table, identifier and day, with the default table and the placeholder identifier |
| BufferReplay.PurgeBuckets | internal/buffer/concurrent_buffer.go:1472-1538 | removing an identifier from a table's buckets, in any map order, drops exactly its rows and the buckets left empty, and counts them |
| BufferReplay.Replay | internal/buffer/concurrent_buffer.go:258-359 | the recovery loop computes `ReplayLog` |
| BufferReplay.ReplayKeepsSurvivors | internal/buffer/concurrent_buffer.go:258-359 | for every log: each bucket holds, in order, exactly the rows no earlier tombstone names and no later one covers; no bucket is empty |
| BufferReplay.ReplayNumbers | internal/buffer/concurrent_buffer.go:258-359 | what recovery counts: the rows not dropped on sight, the tombstones, the largest number per bucket among those rows, and the largest of all |
| BufferReplay.ReplayDropsExactlyTheTombstoned | internal/buffer/concurrent_buffer.go:258-359 | with proper names, exactly the rows without any tombstone in the log are left |
| BufferReplay.LiveBufferIsUntouched | internal/buffer/concurrent_buffer.go:1014-1132 | after any adds and removes the live buffer holds exactly the rows no later removal covers |
| BufferReplay.ReplayRebuildsIffNoReAdd | internal/buffer/concurrent_buffer.go:258-359 | replay rebuilds the live buffer if and only if no buffered row was re-added after a removal of its identifier |
| BufferReplay.ReAddedRowIsDropped | internal/buffer/concurrent_buffer.go:284-287 | a concrete run after which replay does not rebuild the buffer |
| BufferRuns.RollBackRestores | internal/buffer/concurrent_buffer.go:1098-1111 | rolling back a failed add restores the buffer |
| BufferRuns.RowsAreConserved | internal/buffer/concurrent_buffer.go:411-478 | in every run from every log, each row was accepted or recovered as often as it is buffered, in a batch (waiting, queued, with a worker, retrying, stored, lost) or removed |
| BufferRuns.AttemptsAreBounded | internal/buffer/concurrent_buffer.go:411-478 | in every run: the failure counter counts the lost batches; no batch is tried more than the allowed retries plus one; a waiting one never was, a stored one was; and a lost one was never tried, or had rows and used up every attempt |
| BufferRuns.FailedBatchIsRetriedIff | internal/buffer/concurrent_buffer.go:411-478 | in every run, a batch with rows whose attempt fails sleeps for a retry, with its count raised, iff it has been tried at most as often as retries are allowed; otherwise it is lost |
| BufferRuns.RecoveredCount | internal/buffer/concurrent_buffer.go:258-359 | recovery counts at least the rows it leaves, and exactly those iff no counted row was buried later |
| BufferRuns.PendingCounterIsExactIff | internal/buffer/concurrent_buffer.go:345-359 | in every run, at every moment, the pending counter is the number of buffered rows iff recovery's count was exact |
| BufferRuns.TombstonedRowIsStillCounted | internal/buffer/concurrent_buffer.go:345-359 | a concrete log after which the counter is wrong in every run |
| BufferRuns.PlainRunIsCalls | internal/buffer/concurrent_buffer.go:1014-1132 | a run of synced adds and removes that fills no bucket has the buffer and the log of the bare calls |
| BufferRuns.CrashRebuildsBufferIff | internal/buffer/concurrent_buffer.go:258-359 | after every such run, a crash, whatever it loses, and replay rebuild the buffer iff no buffered row was re-added after a removal |
| BufferProgress.StepKeepsQueue | internal/buffer/concurrent_buffer.go:376-478 | no step lets the queue or the workers exceed their limits, or reorders the queue: batches join at its end and leave from its head |
| BufferProgress.QueueIsBounded | internal/buffer/concurrent_buffer.go:376-478 | the limits, in every run |
| BufferProgress.FlushSubmits | internal/buffer/concurrent_buffer.go:1135-1209 | a flush turns a bucket, row by row, into one untried batch at the end of the queue if that has room, else of those waiting |
| BufferProgress.FullBucketsAreFlushed | internal/buffer/concurrent_buffer.go:1014-1132 | in every run from a log whose buckets are not full, every bucket has fewer rows than the buffer size |
| BufferProgress.EverythingCanBeStored | internal/buffer/concurrent_buffer.go:376-478 | with a worker and a queue, from every reachable state: some further steps leave no bucket and no batch under way, lose nothing more, and store every row that was buffered or under way, as often as it was there |
| BufferProgress.BatchNumbersCover | internal/buffer/concurrent_buffer.go:1135-1209 | in every run, the number a batch truncates at is at least that of every record of its rows |
| BufferProgress.FailsAreStreak | internal/buffer/concurrent_buffer.go:1079-1122 | the failure count is the number of failed writes since the last good one |
| BufferProgress.ThirdFailureRefuses | internal/buffer/concurrent_buffer.go:1079-1122 | in every run an add is refused, and then leaves the buffer as it was, iff it is at least the third in a row whose record got no number |
| BufferProgress.CountersAreRight | internal/buffer/concurrent_buffer.go:411-478 | in every run the counter of completed tasks is the number of attempts made, and the log is degraded iff the last three or more writes failed |
| BufferProgress.ClearedExactly | internal/buffer/concurrent_buffer.go:1434-1466 | clearing a table drops exactly the buckets, and the numbers of the buckets, whose key begins with its name and a slash |
| BufferProgress.RestartTruncatesTo | internal/buffer/concurrent_buffer.go:345-359 | a restart waits to truncate up to the largest number found iff any record could be read |
| BufferDurability.TruncationKeepsLogIff | internal/buffer/concurrent_buffer.go:461-470 | a truncation, after a stored batch or after recovery, keeps every row in memory logged iff none of their records lies in a removable closed file whose numbers are all at most the one truncated at |
| BufferDurability.RecoveryTruncationKeepsLogIff | internal/buffer/concurrent_buffer.go:1211-1240 | the truncation after recovery keeps every row in memory logged iff no waiting, worked-on or retrying batch has a record in a removable closed file whose numbers are at most one above the last one recovered |
| BufferDurability.DrainedIsHarmless | internal/buffer/concurrent_buffer.go:1211-1240 | it is harmless when no batch is under way |
| BufferDurability.OldestFirstIsHarmless | internal/buffer/concurrent_buffer.go:411-478 | truncations below all numbers still in memory, as when batches finish in log order, endanger no row |
| BufferDurability.StepSafe | internal/buffer/concurrent_buffer.go:411-478 | every harmless step, of any kind, keeps the rows in memory logged |
| BufferDurability.LiveLogIs | internal/buffer/concurrent_buffer.go:258-359 | after recovery the rows in memory are exactly the records no earlier tombstone names and no later one covers |
| BufferDurability.ForgottenIff | internal/buffer/concurrent_buffer.go:284-287 | replay leaves a logged row out iff a tombstone names it before or covers it after |
| BufferDurability.AcceptedRowsSurvive | internal/buffer/concurrent_buffer.go:258-478 | at least once, with crashes anywhere, from any log: along every life whose truncations are harmless, every row accepted with a log number was stored, lost with its batch, removed or left out for a tombstone, or was taken by a crash before its record was synced, or is in the log; with sync on write those records are synced and no crash takes a row |
| BufferLosses.TruncationCanLoseAnotherBucket | internal/buffer/concurrent_buffer.go:461-470 | with files of the default size, a concrete life that loses an accepted row of another bucket |
| BufferLosses.RecoveryTruncationCanLoseARetry | internal/buffer/concurrent_buffer.go:1211-1240 | a concrete life that loses a recovered row whose batch sleeps before its retry |
| BufferLosses.LostTombstoneBringsRowBack | internal/buffer/concurrent_buffer.go:1472-1538 | a concrete run after which a crash brings a removed row back |
| Concurrent.ConcurrentBuffer.constructor | internal/buffer/concurrent_buffer.go:191-255 | opening recovers the state of the log |
| Concurrent.ConcurrentBuffer.LogRow | internal/buffer/concurrent_buffer.go:1079-1122 | counts log failures; the third in a row degrades the log and fails the add |
| Concurrent.ConcurrentBuffer.Add | internal/buffer/concurrent_buffer.go:1014-1132 | the whole new state: insertion, logging, rollback, flush of a full bucket |
| Concurrent.ConcurrentBuffer.Insert | internal/buffer/concurrent_buffer.go:1060-1122 | the row is inserted and logged, or the buffer is as before and the log degraded |
| Concurrent.ConcurrentBuffer.TriggerFlush | internal/buffer/concurrent_buffer.go:1135-1209 | a bucket becomes a batch, queued or waiting |
| Concurrent.ConcurrentBuffer.FlushAllBuffers | internal/buffer/concurrent_buffer.go:1260-1297 | every bucket is flushed, in some order, and none is left |
| Concurrent.ConcurrentBuffer.AdmitWaiting | internal/buffer/concurrent_buffer.go:1180-1209 | a blocked submission is queued last when there is room; every row stays in as many batches as before, and the attempts of every batch stay bounded |
| Concurrent.ConcurrentBuffer.DropWaiting | internal/buffer/concurrent_buffer.go:1180-1209 | a blocked submission that times out is lost with its rows, and the failure counter moves with the lost batches |
| Concurrent.ConcurrentBuffer.TakeFromQueue | internal/buffer/concurrent_buffer.go:376-409 | an idle worker takes the first batch; every row stays in as many batches as before, and the attempts of every batch stay bounded |
| Concurrent.ConcurrentBuffer.ProcessTask | internal/buffer/concurrent_buffer.go:411-478 | the end of any worker's attempt: stored and log truncated, or retried, or lost and counted |
| Concurrent.ConcurrentBuffer.TruncateRecoveryWal | internal/buffer/concurrent_buffer.go:1211-1240 | the old files are truncated once, when the buffer and the queue are empty, at one above the last number recovered |
| Concurrent.ConcurrentBuffer.RequeueRetry | internal/buffer/concurrent_buffer.go:411-478 | a retry goes to the end of the queue once there is room; every row stays in as many batches as before, and the attempts of every batch stay bounded |
| Concurrent.ConcurrentBuffer.Remove | internal/buffer/concurrent_buffer.go:1472-1538 | the whole new state, the tombstone, and the exact count of removed rows |
| Concurrent.ConcurrentBuffer.ClearTable | internal/buffer/concurrent_buffer.go:1434-1466 | the table's buckets and their numbers go, with the exact count |
| FieldMapping.SanitizeShape | internal/buffer/concurrent_buffer.go:564-573 | a sanitised name is a non-empty lower-case word not led by a digit, and sanitising it again changes nothing |
| FieldMapping.SanitizeMeans | internal/buffer/concurrent_buffer.go:564-573 | position by position: small letters, digits and underscores stay, capitals become small, everything else an underscore; a leading digit gets an underscore in front |
| FieldMapping.DecimalMeans | internal/buffer/concurrent_buffer.go:625-655 | the suffix reads back as its number |
| FieldMapping.NumberedInOrder | internal/buffer/concurrent_buffer.go:625-655 | of fields with one sanitised name the first keeps it, or gets number 2 if it is a system column, and each next one gets one number more |
| FieldMapping.SuffixedInjective | internal/buffer/concurrent_buffer.go:625-655 | a numbered column determines its name and number |
| FieldMapping.NeverASystemColumn | internal/buffer/concurrent_buffer.go:625-655 | no field is stored under a system column |
| FieldMapping.ClassMatesDiffer | internal/buffer/concurrent_buffer.go:625-655 | fields with the same sanitised name get different columns |
| FieldMapping.InjectiveIffCollisionFree | internal/buffer/concurrent_buffer.go:625-655 | the mapping is one-to-one iff no sanitised name has the shape of a suffixed other |
| FieldMapping.SuffixClash | internal/buffer/concurrent_buffer.go:625-655 | three concrete fields whose mapping is not one-to-one |
| FieldMapping.BuildGlobalFieldMapping | internal/buffer/concurrent_buffer.go:625-655 | the numbering loop computes a mapping that depends on the set of names only, not on map order |
| FieldMapping.MarshalRow | internal/buffer/concurrent_buffer.go:698-713 | every field is written under its column, system columns last, in any map order |
| FieldMapping.BatchReadsBackIff | internal/buffer/concurrent_buffer.go:594-713 | every value of every row of a mixed batch can be read back under its column iff the names are collision free |
| TopN.StrictWeakIff | internal/coordinator/aggregation_strategy.go:397-423 | the comparator is a strict weak order iff the column holds one kind of value or there is nothing to order |
| TopN.NullBreaksTheOrder | internal/coordinator/aggregation_strategy.go:397-423 | two numbers and a null are not strictly weakly ordered |
| TopN.TiedHaveEqualKeys | internal/coordinator/aggregation_strategy.go:397-423 | rows that tie have the same order key, or both lack it |
| TopN.SortRows | internal/coordinator/aggregation_strategy.go:313-328 | a permutation, sorted whenever the comparator is a strict weak order |
| Prelude.CompareMeans | internal/coordinator/aggregation_strategy.go:397-423 | text comes first by its first differing character, or as a proper prefix |
| TopN.SortedMeans | internal/coordinator/aggregation_strategy.go:397-423 | sorted rows stand in the order of their keys, as numbers or texts, rows without the key last |
| TopN.DecodedAll | internal/coordinator/aggregation_strategy.go:297-312 | if every result decodes, the rows merged are those of all nodes |
| TopN.DecodedSkips | internal/coordinator/aggregation_strategy.go:297-312 | a result that does not decode is passed over |
| TopN.Reduce | internal/coordinator/aggregation_strategy.go:297-336 | a permutation of the decoded rows, sorted by the first key, cut to a positive limit: on a single-kind column what is returned, and what is cut off behind it, stand in the order of their keys |
| TopN.MergedTopIsGlobalTop | internal/coordinator/aggregation_strategy.go:297-336 | merging the nodes' sorted top n and cutting gives position by position the ties of the global top n, for any division and any tie-breaking |
| TopN.MergedTopHasGlobalKeys | internal/coordinator/aggregation_strategy.go:297-336 | the same sequence of order keys, on a single-kind column with missing values last |
| TopN.ReducedKeysAreGlobal | internal/coordinator/aggregation_strategy.go:297-336 | whatever the nodes' correct top rows are, what Reduce returns for them has the order keys of one global sort, cut at the limit |
| Prelude.SplitJoinIff | internal/coordinator/aggregation_strategy.go:279-289 | splitting a joined list gives the list back iff no text contains the separator |
| Prelude.JoinedAloneIff | internal/coordinator/aggregation_strategy.go:279-289 | a tuple of at least two texts shares its key with no other tuple of its length iff no text contains the separator |
| GroupBy.BarsMergeGroups | internal/coordinator/aggregation_strategy.go:279-289 | two different tuples with bars share a group key |
| GroupBy.AddShares | internal/coordinator/aggregation_strategy.go:224-241 | a row's numbers are added to its group's sums and counts, in any column order, group columns excepted |
| GroupBy.Reduce | internal/coordinator/aggregation_strategy.go:206-277 | one output row per group key, in any order, from sums and counts over all decoded rows |
| GroupBy.MergedPartials | internal/coordinator/aggregation_strategy.go:206-241 | the coordinator's sum and count of a group are the sum and number of the nodes' values, for any aggregate |
| GroupBy.MergedSumIsGlobalTotal | internal/coordinator/aggregation_strategy.go:206-277 | however base rows are divided, a group's merged SUM or COUNT is its total over all rows |
| GroupBy.ReducedRowIsGlobal | internal/coordinator/aggregation_strategy.go:206-277 | for the nodes' correct answers: a tuple has a group iff a base row has it, and its output row carries its texts |
| GroupBy.ReducedTotalIff | internal/coordinator/aggregation_strategy.go:206-277 | a merged SUM or COUNT is the global total iff the query's last aggregate is not AVG, or at most one node has a number in the group, or the total is zero |
| GroupBy.OneRowPerTuple | internal/coordinator/aggregation_strategy.go:244-277 | every tuple of the base rows has exactly one row in the merged answer |
| GroupBy.TupleOfRow | internal/coordinator/aggregation_strategy.go:244-277 | every row of the merged answer is that of a tuple of the base rows |
| GroupBy.RowCarriesTextsIff | internal/coordinator/aggregation_strategy.go:244-289 | whatever the answers, the output row of a tuple's key carries the tuple's texts iff they have no bar |
| GroupBy.RowShowsItsValues | internal/coordinator/aggregation_strategy.go:244-289 | the output row of a group shows, column by column, the printed group values of its rows |
| GroupBy.ReducedExtremeIff | internal/coordinator/aggregation_strategy.go:255-265 | for any number of nodes, a merged MIN (MAX) is the global one iff, after an AVG, all nodes have the same value, and otherwise the values other than one least (greatest) one sum to zero |
| GroupBy.MinimaAreSummed | internal/coordinator/aggregation_strategy.go:255-265 | a concrete two-node MIN that is merged wrongly |
| GroupBy.AveragesAreAveraged | internal/coordinator/aggregation_strategy.go:255-265 | a concrete two-node AVG that is merged wrongly |
| GroupBy.CountNextToAverageIsDivided | internal/coordinator/aggregation_strategy.go:255-265 | a concrete two-node COUNT next to an AVG that is merged wrongly |
| GroupBy.ReducedAverageIff | internal/coordinator/aggregation_strategy.go:255-265 | for any number of nodes, a merged AVG is the global average iff k times the weighted sum of their averages is the sum of the averages times the number of rows, k being the number of nodes if AVG is the last aggregate and one otherwise |
| Aggregates.TwoAveragesAgreeIff | internal/coordinator/aggregation_strategy.go:255-265 | with two nodes: iff they hold equally many numbers or agree on the average |
| Aggregates.BestOfParts | internal/coordinator/aggregation_strategy.go:206-277 | the least (greatest) of the parts' least (greatest) numbers is the least (greatest) of all |
| Aggregates.ValueMeans | internal/coordinator/aggregation_strategy.go:206-277 | MIN is at most and MAX at least every number, each one of them; AVG times their number is the sum |
| Compaction.FirstLevelThatFits | internal/compaction/manager.go:370-381 | a file belongs to the first level it fits into, else to the last |
| Compaction.LevelsPartitionFiles | internal/compaction/manager.go:353-381 | with distinct level names every listed file is in exactly one level, as often as it is listed |
| Compaction.ClassifyFilesByTier | internal/compaction/manager.go:353-367 | the loop gives every level its files in listing order |
| Compaction.SelectCandidates | internal/compaction/manager.go:385-416 | the smallest and oldest eligible files, cut to the maximum; nothing left out comes before a chosen one |
| Compaction.WriteFiles | internal/storage/parquet_writer.go:129-161 | the writer's rotation cuts the records into full files and a rest |
| Compaction.ChunksKeepRecords | internal/storage/parquet_writer.go:129-161 | the output files together are the records, in order |
| Compaction.OutputsAreFull | internal/storage/parquet_writer.go:129-161 | all files of a merge but the last hold exactly the configured number of records, a million if none is set, and the last fewer |
| Compaction.StageBounds | internal/compaction/manager.go:419-553 | at every upload and delete, whatever fails: no record is lost if outputs can be stat'ed, and none has more copies than before plus those merged |
| Compaction.MergeAccount | internal/compaction/manager.go:419-553 | with deletes working, records after plus records in passed-over outputs equal records before |
| Compaction.MergeIsExactIff | internal/compaction/manager.go:490-525 | such a merge keeps the records exactly iff every output whose stat failed was empty |
| Compaction.FailedStatLosesRecords | internal/compaction/manager.go:490-525 | a concrete merge that loses a record |
| Compaction.Manager.ReadAll | internal/compaction/manager.go:431-448 | all records of the files in order, or failure at the first unreadable one |
| Compaction.Manager.CompactTieredFiles | internal/compaction/manager.go:419-553 | every store on the way is a stage, one upload or deletion apart; success gives `Merged`; a merge that gave up has deleted nothing; and it succeeds whenever the files are there and reading, writing and uploading work |
| Compaction.Manager.CompactTableTiered | internal/compaction/manager.go:298-350 | over a whole pass and each store in between: nothing lost, no record more than doubled, and exactly the same records if nothing fails; and if reading and writing work too, of each level with enough files past their cooldown and small enough, as many as a merge takes are gone, the smallest and oldest, and of the others none |
| Pruning.RangeMatchesIff | internal/query/file_pruning.go:200-215 | within one kind, a range passes iff some value inside it meets the predicate |
| Pruning.HoldsMeans | internal/query/file_pruning.go:200-255 | the five operators mean the comparison of numbers, of instants, or of texts in dictionary order |
| Pruning.MixedRangeIsSkippedIff | internal/query/file_pruning.go:200-255 | between integers and floats, a range with a matching number is skipped iff its printed bounds order differently from the numbers, as spelled out for each operator |
| Pruning.MixedKindsPruneWrongly | internal/query/file_pruning.go:217-255 | a row with 100.0 is selected by a predicate on 9, and its file is skipped |
| Pruning.FileMatchesPredicates | internal/query/file_pruning.go:183-198 | the loop decides whether every predicate passes, columns without statistics passing |
| Pruning.PruneFiles | internal/query/file_pruning.go:159-181 | exactly the matching files, in order |
| Pruning.ScannedIff | internal/query/file_pruning.go:488-524 | a partition is scanned iff its day meets both bounds, and for a non-empty range iff it holds an instant in it |
| Pruning.DayOf | internal/query/file_pruning.go:517-525 | start and end of a day enclose exactly the instants with its number of days since the epoch |
| Pruning.MeetingDayIsScanned | internal/query/file_pruning.go:409-473 | the day of an instant meeting a column's conditions is scanned under the range extracted from them |
| Pruning.RangeIsExact | internal/query/file_pruning.go:409-473 | with one bound a side, or one full instant, the extracted range is exactly the conditions |
| Pruning.DateRangeIsExactUpTo | internal/query/file_pruning.go:409-473 | for a bare date, exactly the conditions up to the beginning of the day's last second |
| Pruning.FirstConditionalColumn | internal/query/file_pruning.go:375-406 | the time column that bounds the query is the first with any condition |
| Pruning.TimePartitionPruner.ExtractTimeConditions | internal/query/file_pruning.go:409-473 | the range after each present condition has overwritten its bound |
| Pruning.TimePartitionPruner.ExtractTimeRange | internal/query/file_pruning.go:375-406 | the range of the first time column with any bound |
| Pruning.TimePartitionPruner.PartitionDay | internal/query/file_pruning.go:570-594 | the first date among the path's parts |
| Pruning.TimePartitionPruner.PruneFilesByTimePartition | internal/query/file_pruning.go:528-562 | exactly the files without a date or with a scanned day, in order |
| Pruning.OptimizeQuery | internal/query/file_pruning.go:301-327 | the files both prunings keep; files skipped is the sum of the two counts |
| Pruning.ChosenIff | internal/query/file_pruning.go:301-327 | with statistics in the predicates' own kind, a file is chosen iff its path names no day or one with an instant in the range, and for each predicate some value between its bounds would meet it |
| Pruning.FirstDayMeans | internal/query/file_pruning.go:570-594 | the day a path names is its first part that is a date |
| Pruning.ChosenFilesGiveAllRows | internal/query/file_pruning.go:301-327 | the rows a conjunctive WHERE selects from the chosen files are those it selects from all files, in order, unless a mixed range is misread |
| Pruning.LocalDaysAreScannedIff | internal/buffer/concurrent_buffer.go:1014-1020 | with partitions named by local days, every instant's partition is scanned iff the zone offset is zero |
| Pruning.LocalDayIsSkipped | internal/buffer/concurrent_buffer.go:1014-1020 | for every other offset, an instant whose partition is skipped |
| Lru.LruCache.Get | internal/query/query_cache.go:97-114 | on the recency list: a good entry moves to the front, an expired one goes |
| Lru.LruCache.Put | internal/query/query_cache.go:117-137 | the entry is first, its former version gone |
| Lru.LruCache.Remove | internal/query/query_cache.go:140-150 | the key's entry goes, the others keep their order |
| Lru.LruCache.EvictOne | internal/query/query_cache.go:154-174 | the last entry goes |
| Lru.LruCache.EvictForSpace | internal/query/query_cache.go:178-202 | least recent entries go, oldest first, and their keys are reported in that order |
| Lru.EvictsShortestSuffix | internal/query/query_cache.go:178-202 | what goes is the shortest least-recent suffix totalling the space asked for, or everything |
| Lru.AtOnePlace | internal/query/query_cache.go:97-150 | an entry between others: a lookup before it expires brings it to the front, a later one drops it, a new version replaces it in front; the others keep their order |
| Lru.AtNoPlace | internal/query/query_cache.go:97-150 | a key that is not there: a lookup changes nothing, a new entry goes in front |
| Normalize.NormalizeQuery | internal/query/query_cache.go:412-462 | the byte loop with quote, escape and doubled-quote handling computes the scanner `NormalForm` |
| Normalize.FieldsOfSpaced | internal/query/query_cache.go:412-414 | splitting at white space undoes joining words with blanks |
| Normalize.CollapseMeans | internal/query/query_cache.go:412-414 | whatever white space stands before, between and after words, single spaces between the words are left |
| Normalize.NormalFormTwice | internal/query/query_cache.go:412-462 | normalizing is idempotent |
| Normalize.SameNormalFormIff | internal/query/query_cache.go:412-462 | two queries share a normal form iff, white space collapsed, the scanner is in the same mode at every position and they agree up to ASCII case outside literals |
| Normalize.LiteralSpacesCollide | internal/query/query_cache.go:412-414 | two different literals share a normal form |
| SqlText.EveryQueryIsText | internal/query/query_cache.go:412-462 | every string is written by a list of tokens: code characters, escaped characters, and literals of plain, escaped and doubled-quote pieces, with perhaps an unfinished one at the end |
| SqlText.TextIsUnique | internal/query/query_cache.go:412-462 | and by only one |
| SqlText.NormalFormMeans | internal/query/query_cache.go:412-462 | the normal form of a query is its tokens, white space collapsed, with A to Z as a to z where they are code and everything else, literals and escaped characters included, unchanged |
| SqlText.KeysAgreeOnTokens | internal/query/query_cache.go:400-462 | two queries share a cache key iff they name the same tables and have the same tokens up to the case of code |
| SqlText.LiteralIsKept | internal/query/query_cache.go:412-462 | around one plain literal: what surrounds it becomes lower case, the literal stays |
| SqlText.LiteralsKeepKeysApart | internal/query/query_cache.go:400-462 | two such queries whose literals differ have different keys |
| QueryCache.KeyTablesIff | internal/query/query_cache.go:400-409 | the tables are read back from a cache key iff no name has a comma or a bar and the list is not one empty name |
| QueryCache.KeysAgreeIff | internal/query/query_cache.go:400-409 | on such lists two queries share a key iff they share the normal form and the tables |
| QueryCache.CommasMergeKeys | internal/query/query_cache.go:400-409 | a comma in a name lets two table lists share a key |
| QueryCache.BarsMergeKeys | internal/query/query_cache.go:400-409 | a bar in a name lets two queries share a key |
| QueryCache.Cache.Get | internal/query/query_cache.go:265-314 | the answer and the whole new state, including refill and pending refresh |
| QueryCache.Cache.Set | internal/query/query_cache.go:317-361 | the whole new state: eviction from directory and store, the entry, the index |
| QueryCache.Cache.UpdateTableIndex | internal/query/query_cache.go:501-507 | the key is added to the index of each table |
| QueryCache.Cache.InvalidateByTables | internal/query/query_cache.go:364-397 | all keys listed for the tables leave store, index and directory |
| QueryCache.Cache.FinishRefresh | internal/query/query_cache.go:515-531 | a refresh writes the entry as it was read |
| QueryCache.SetMeans | internal/query/query_cache.go:317-361 | after storing, a Get answers the result; if there was no room, the shortest least recent part of the directory that frees enough is gone from the store, and every other key is as before |
| QueryCache.GetMeans | internal/query/query_cache.go:265-314 | a Get leaves store and index alone, and its key in front of the directory if the store has it, nowhere in it if not |
| QueryCache.InvalidateMeans | internal/query/query_cache.go:364-397 | exactly the keys listed for the tables leave store and directory, and exactly the tables leave the index |
| QueryCache.AnswersWereSet | internal/query/query_cache.go:265-397 | whatever a run answers for a key was set for it in that run, or was held before |
| QueryCache.LastResultOrNothing | internal/query/query_cache.go:265-397 | after a Set with no refresh of its key pending, a Get answers that result or misses until the next Set |
| QueryCache.NewResultStaysIff | internal/query/query_cache.go:515-531 | once all pending refreshes are written, the result stored before is still there iff the last pending refresh of its key, if any, carries it |
| QueryCache.OldResultComesBack | internal/query/query_cache.go:515-531 | a concrete run in which a pending refresh brings an older result back |
| QueryCache.RunKnown | internal/query/query_cache.go:265-409 | over every calm run every stored key is in the index of each of its tables |
| QueryCache.GetMissesAfterInvalidation | internal/query/query_cache.go:364-397 | in every calm run, after invalidation every query on an affected table misses |
| QueryCache.StaysOutUntilSet | internal/query/query_cache.go:265-397 | a key that is out stays out, through any run, until it is set again |
| QueryCache.InvalidationHoldsIff | internal/query/query_cache.go:515-531 | an affected entry comes back iff a refresh of it was pending |
| QueryCache.EntryComesBack | internal/query/query_cache.go:515-531 | a concrete run from the empty cache after which an invalidated entry is served again and is in no index |
| QueryCache.UnlistedIsNeverInvalidated | internal/query/query_cache.go:364-397 | an entry in no index survives every invalidation, after any run, until it is set again |
| QueryCache.SizeStaysBounded | internal/query/query_cache.go:317-361 | over every run without refills the size stays within the capacity or the largest entry |
| QueryCache.RefillFitsIff | internal/query/query_cache.go:303-306 | a refill keeps the bound iff the result still fits or nothing else is there |
| QueryCache.RefillOverflows | internal/query/query_cache.go:303-306 | a concrete run that exceeds the bound |
| CountMin.RowSumIsTotal | internal/query/approximation.go:246-258 | every row counts every addition once |
| CountMin.HashIsPolynomial | internal/query/approximation.go:215-244 | the hash is the start value and the characters read as one number in base 31, modulo 2^32 |
| CountMin.ColumnMeans | internal/query/approximation.go:215-244 | an item's column in each row, from that row's own start value |
| CountMin.CellBounds | internal/query/approximation.go:246-278 | an item's cell holds at least its frequency, no cell more than the total |
| CountMin.AloneIsExact | internal/query/approximation.go:246-278 | a cell that no other item of the stream shares holds exactly the frequency |
| CountMin.CellConcat | internal/query/approximation.go:280-296 | cells add up over concatenated streams |
| CountMin.CountMinSketch.constructor | internal/query/approximation.go:215-244 | a new matrix is the sketch of the empty stream |
| CountMin.CountMinSketch.Add | internal/query/approximation.go:246-258 | the matrix becomes the 32-bit sketch of the longer stream |
| CountMin.CountMinSketch.Count | internal/query/approximation.go:260-278 | the least cell of the item: at most the total; at least the frequency if the item's cells fit 32 bits, and then exactly it if in some row no other item shares the cell; below it whenever the frequency does not fit |
| CountMin.CountMinSketch.Merge | internal/query/approximation.go:280-296 | cells are added modulo 2^32; with equal seeds the result is the sketch of both streams; other shapes change nothing |
| CountMin.CountMinSketch.RowSumsToTotalIff | internal/query/approximation.go:246-258 | a row of the matrix sums to the total iff all its cells fit 32 bits |
| CountMin.OverflowUndercounts | internal/query/approximation.go:246-258 | two additions that wrap an item's cells to zero |
| Hll.HashSplits | internal/query/approximation.go:52-56 | register index and remaining bits are the low and the high part of the hash |
| Hll.RhoCountsZeros | internal/query/approximation.go:56-62 | rho is one more than the number of trailing zeros, unless the limit comes first |
| Hll.RoundsAreFnv1 | internal/query/approximation.go:149-158 | the rounds of the hash give the published values of 32-bit FNV-1 |
| Hll.RegisterIsUnique | internal/query/approximation.go:47-69 | a register depends only on the set of distinct non-empty items |
| Hll.RegisterOfUnion | internal/query/approximation.go:107-123 | the larger of two registers is the register of the union |
| Hll.HyperLogLog.constructor | internal/query/approximation.go:25-45 | precision outside 4 to 16 becomes 12; registers are those of no items |
| Hll.HyperLogLog.CopyOf | internal/query/approximation.go:125-138 | a fresh array with the same registers |
| Hll.HyperLogLog.Add | internal/query/approximation.go:47-69 | registers become those of the items with one more, the trailing-zero loop computing rho |
| Hll.HyperLogLog.Merge | internal/query/approximation.go:107-123 | registers become those of the union; another size changes nothing |
| Hll.SameItemsSameRegisters | internal/query/approximation.go:25-138 | sketches of the same items, however they came about, have equal registers, at most 32 minus precision |
| SketchEngine.ApproximateQueryEngine.AddDistinctValue | internal/query/approximation.go:326-377 | one key's items gain the value, created on demand, the others unchanged |
| SketchEngine.ApproximateQueryEngine.AddFrequency | internal/query/approximation.go:347-395 | one key's stream gains the addition, the others unchanged |
| SketchEngine.ApproximateQueryEngine.Merge | internal/query/approximation.go:414-446 | every key of either engine ends with the items and the additions of both; the other engine is unchanged |
| SketchEngine.SketchesAreApart | internal/query/approximation.go:322-324 | columns of tables without a colon in their name have sketches of their own |
| SketchEngine.ColonsShareSketches | internal/query/approximation.go:322-324 | two columns of different tables that share one |
| Pool.PoolIsSafe | internal/query/query.go:903-978 | in every interleaving: created is idle plus held and within the limit, no connection has two holders, and Put always finds room |
| Pool.GetIsServed | internal/query/query.go:938-978 | in every interleaving whoever asks is served: by the connection idle longest, else by a new one within the limit, else by the next that any holder puts back |
| Pool.DuckDBPool.constructor | internal/query/query.go:903-935 | a new pool holds one idle connection |
| Pool.DuckDBPool.TryReceive | internal/query/query.go:938-942 | the non-blocking receive is the step `TryGet` |
| Pool.DuckDBPool.OpenIfAllowed | internal/query/query.go:943-954 | the locked section is the step `Decide` |
| Pool.DuckDBPool.ReceiveOrTimeout | internal/query/query.go:956-964 | the wait is the step `Receive` or `Timeout` |
| Pool.DuckDBPool.TrySend | internal/query/query.go:969-978 | the send is the step `TryPut`, and in a reachable state the connection goes back |
| Pool.DuckDBPool.CountDown | internal/query/query.go:973-977 | the locked section after a close is the step `Decrement` |
| Registry.LogRetracesState | internal/discovery/service_registry.go:566-950 | in every run a registered node is online, suspicious, offline or decommissioning, folding its events since it joined gives that state, each event is rightly labelled, and no node is removed straight from online or suspicious |
| Registry.EventsAreChanges | internal/discovery/service_registry.go:566-950 | a step records one event, from the old state to the new, iff it changes the node's state, and else none |
| Registry.RecentEventsEndInState | internal/discovery/service_registry.go:807-816 | of the last hundred events, the newest ends in a registered node's state, and each but a joining one starts where the one before it ended |
| Registry.RecentMeans | internal/discovery/service_registry.go:807-816 | the stored list is the newest hundred events of the history, or all of fewer |
| Registry.ServiceRegistry.Record | internal/discovery/service_registry.go:807-816 | the stored list stays the last hundred events of the history |
| Registry.HealthyAgainIff | internal/discovery/service_registry.go:566-950 | a decommissioned node is healthy at some later point iff it was recommissioned, or was gone and seen again |
| Registry.ServiceRegistry.UpdateServiceList | internal/discovery/service_registry.go:566-663 | a refresh is, for every node, the step seen or missing: a node known before and not decommissioned is online iff its heartbeat is less than 30 seconds old, offline iff at least 60, suspicious in between, a new one online; an unreachable directory changes nothing |
| Registry.ServiceRegistry.CheckNode | internal/discovery/service_registry.go:596-640 | the decision for one node: its new state and its event |
| Registry.ServiceRegistry.DecommissionNode | internal/discovery/service_registry.go:820-860 | succeeds iff the node is online or suspicious, which is then decommissioning and no longer healthy; no other node changes |
| Registry.ServiceRegistry.RecommissionNode | internal/discovery/service_registry.go:863-904 | succeeds iff the node is offline or decommissioning, which then is online and healthy; no other node changes |
| Registry.ServiceRegistry.RemoveNode | internal/discovery/service_registry.go:907-950 | succeeds iff the node is offline or decommissioning, which then is gone; no other node changes |

## Left out

- Locks and goroutines: each public call, each start and end of a worker's attempt, and each retry, refresh, recovery truncation and crash is one step; only the pool is interleaved more finely. The index-based rollback of Add is exact for that reason.
- Shutdown of the buffer, and the time stamps of its log records; the emergency flush is a flush of all buckets.
- Durable.AcceptedPointsSurvive: one flush at a time; runs with an add between swap and truncation are covered by the exact condition instead.
- BufferDurability.AcceptedRowsSurvive: rows added without a log number, which the program accepts up to twice in a row, are not promised anything; rows are told apart by their values, so a row settled once counts as settled when an equal one is added later; that every row in memory has its own record holds regardless.
- Durable.BufferIsReplaySuffix: a run is tidy if no append fails after the record was taken, no add falls between swap and truncation, and nothing is cleared while a flush is under way.
- BufferRuns.RowsAreConserved: rows of a batch count as stored when the flush function succeeds; parquet, upload and metadata are one success or failure.
- Compaction.Manager.CompactTableTiered: object names with nanosecond time stamps are taken to be new, and nobody else writes the table during the pass; the order in which output files are uploaded and the statistics are not modelled.
- Pruning.ChosenIff: column statistics in another kind than the predicate's value are covered by the condition on mixed ranges instead, and an empty time range by the condition on scanned partitions.
- Pruning.ChosenFilesGiveAllRows: needs column statistics that bound the rows, in the predicate's own kind or not misread, and a path date that is the row's day in the bounding time column; how SQL text becomes predicates, how one path part is recognised as a date, and how values are printed are parameters.
- QueryCache.GetMissesAfterInvalidation: the SHA-256 key is taken to be injective, and there is no Redis failure or expiry in Redis; in a calm run no refresh of an affected key is pending at an invalidation and stored table names have no commas or bars.
- QueryCache.Cache.Set: the serialised size is a parameter, and metadata and hit statistics are not modelled.
- Hll.HyperLogLog.Add: the hash is computed on 32-bit words, and its low and high bits are taken by arithmetic on its value.
- CountMin.CountMinSketch.Merge: merging a sketch into itself, which blocks forever, is excluded.
- Registry.LogRetracesState: about the full history; what is left of it in the stored list is stated apart.
- Registry.ServiceRegistry.Record: Redis takes every event and every trim; the program only warns when it does not.
- Registry.ServiceRegistry.UpdateServiceList: start times, labels and the services' own data are not modelled; found services have distinct node identifiers.
- Regular expressions over SQL (predicate, time-range, table and column extraction), the row-group hints and the row estimate.
- HyperLogLog cardinality and error estimates: floating point and logarithms.
- Floating point: numbers are real, so NaN and rounding are absent.
- The heap-based top-N merge, the simple, AVG-decomposing and union strategies, the statement cache, the file cache, untiered compaction, backup, discovery of services in Redis, gRPC, HTTP, configuration, metrics, dashboard, authentication and encryption: plumbing, or members that would add nothing harder.
