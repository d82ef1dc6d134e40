# Verified models of RocksDB's compaction and caches, and of the partitioner

This project models, in Dafny, six parts of a key-value store built on RocksDB 5.18.3, and proves what
they promise. Each part is imperative where the code is: classes with fields, loops over arrays and
linked nodes, and, for the two lock-free protocols, atomic steps of any number of threads.

**Compaction keeps reads** (`Records`, `DeeperLevels`, `CompactionSteps`, `WriteConflicts`,
`CompactionIterators`, `Subcompactions`). The compaction iterator rewrites a sorted stream of Put, Delete and
SingleDelete records with one record of lookahead. For every key, at every listed snapshot and at the tip, the
emitted stream over the deeper levels reads like the input over them. It is strictly sorted after sequence
zeroing, holds no tombstone older than every snapshot over nothing and, outside SingleDelete keys, no two
versions that every reader sees together, and may be split at user keys into subcompactions. Assumed of the
input, as the code does: it is sorted, newest first within a key; snapshots are sorted and positive; the
write-conflict snapshot is not below the earliest snapshot; the deeper levels hold older records and none for a
key that a scan of their files reports absent; on keys with SingleDelete there is no Delete and no Put directly
over a Put. Two SingleDeletes in a row are allowed.

The iterator also has to leave a trace of every write that a transaction may still check for conflicts, a record
newer than a write-conflict snapshot. For SingleDelete keys it always does. For other keys the code forgets
exactly one kind of write: on the bottommost level, a Deletion that is the newest version of its key, with all
other versions in its stripe, goes even if it is newer than a write-conflict snapshot. `DeletionForgotten` is
such an input, and `Compact` states the exact condition (`Forgotten`) for all inputs.

**SuperVersion protocol** (`SuperVersions`, `SuperVersionProofs`). Readers take and return a cached,
reference-counted SuperVersion with Swap and CompareAndSwap while an installer publishes a new one, scrapes
every thread's slot and drops the old one. A run is any interleaving of atomic steps of unboundedly many
threads. Every assertion of the code, and every use of a cleaned-up SuperVersion, is a `Fails` outcome; no run
reaches one.

**CLOCK cache shard** (`ClockCache`, `ClockCacheProofs`, `ClockEviction`). Handles pack an in-cache bit, a
usage bit and a reference count into one atomic word; Lookup is lock-free. Steps interleave under sequential
consistency. The sweep alone is a loop over the circular list.

**LRU cache** (`LruHandles`, `LruTable`, `LruList`, `LruShard`, `ShardedCaches`). Entries are heap objects on
two linked structures at once, hash chains and a circular list with a priority boundary. The table refines a
map, the list a sequence, the three running totals are exact sums, and every entry is freed exactly once,
never while a client holds it. With the strict limit on from construction, no operation takes a shard over its
capacity, nor the cache over its own plus less than one unit a shard.

**Compaction input selection** (`CompactionFiles`, `CleanCuts`, `SanitizeInputs`, `Completions`,
`RunningCompactions`, `PickerDemands`, `FileRequests`, `RequestSafety`, `CompactionPickers`). File sets are closed
under overlap, and completed by the least such set; user keys are not torn apart; compactions that run at one time
share no file and, for the same non-zero output level, no key range. What the version storage answers is given by
specification functions for its documented contracts; priorities, scores and lists of marked files are parameters
(`Demand`). `Install` stands for flushes, ingestion and the results of compactions. A compaction is released some
time after its result is installed, since a group of manifest writes lets other threads have the mutex in between;
until then its inputs may be gone or have moved down, but not up. What is refused is refused exactly for what runs
already: `Blocked` says so from the levels, the marks and the running compactions alone.

One promise of the picker does not hold as the code stands. `CompactFiles` asserts that its inputs' key range meets
no running compaction with the same output level, relying on the check made while completing the named files. That
check covers levels up to the output level only, so a named file deeper than the output level can stick out of it:
`DeeperFileEscapes` gives such a request. `CompactFiles` states when the assertion fails in a given state, and that
without assertions two compactions that write to the same keys then run at one time. `RangeCheckExact` says for
which requests it can fail at all, from the levels and the request alone, while all running compactions have their
inputs in place: exactly if two files outside the request, which may be the same, have a joint range that meets the
request's but not the checked one. With finished compactions still registered it can fail exactly if some key of
the request's range was not checked (`RangeCheckAnyState`).

**Partitioner** (`Partitioner`). The k-way merge of the instances' lists of hottest keys, and the assignment of
the first 5000 places to instances. Assumed: every list has at least k entries, with positive, non-increasing
counts among the first k.

Keys are numbers with their usual order; a cache key stands for the key bytes and the hash is carried beside
it. Sizes, charges and counters are unbounded, so wrap-around is not modelled. The high-priority pool's
capacity is an exact real number.

## Model

| member | source | states |
|---|---|---|
| `Subcompactions.Compact` | rocksdb-5.18.3/db/compaction_job.cc:425-431 | the outputs of all slices, one after the other, read like the unsplit input over the deeper levels at every snapshot and at the tip; they are strictly sorted, each record comes from an input record, no record is kept without need, the kept versions of a key (SingleDelete keys apart) differ for some reader, the result can be compacted again, and for every key a write after a write-conflict snapshot shows in the output iff it shows in the input and the key is not a forgotten one |
| `CompactionSteps.Finished` | rocksdb-5.18.3/db/compaction_iterator.cc:218-606 | at the end of the input, what was emitted reads like the input over the deeper levels for every key, at every snapshot and at the tip, and is again a legal input |
| `CompactionIterators.CompactionIterator.constructor` | rocksdb-5.18.3/db/compaction_iterator.cc:33-94 | a new iterator has emitted nothing and satisfies the iterator's invariant |
| `CompactionIterators.CompactionIterator.SeekToFirst` | rocksdb-5.18.3/db/compaction_iterator.cc:110-113 | the first record, if any, is appended to the emitted stream and the invariant of the resting iterator holds |
| `CompactionIterators.CompactionIterator.Next` | rocksdb-5.18.3/db/compaction_iterator.cc:115-158 | exactly one more record is emitted, or none at the end; the input position moves on; the resting invariant (same reads, order, lineage) is kept |
| `CompactionIterators.CompactionIterator.NextFromInput` | rocksdb-5.18.3/db/compaction_iterator.cc:218-606 | either a record is pending that satisfies the decision invariant, or the whole input is consumed; nothing already emitted changes |
| `CompactionIterators.CompactionIterator.ProcessRecord` | rocksdb-5.18.3/db/compaction_iterator.cc:222-601 | one record is decided: dropped or pending, with the invariant (reads, order, lineage, write conflicts) kept in either case; the input advances |
| `CompactionIterators.CompactionIterator.TrackKey` | rocksdb-5.18.3/db/compaction_iterator.cc:259-301 | the memory of the last key is kept or reset so that the invariant holds for the record looked at; an output flag set means the last output is of this key |
| `CompactionIterators.CompactionIterator.LoadRecord` | rocksdb-5.18.3/db/compaction_iterator.cc:259-323 | the stripe is that of the record looked at, with the snapshot before it; the last sequence number is not below the current one |
| `CompactionIterators.CompactionIterator.OutputCleared` | rocksdb-5.18.3/db/compaction_iterator.cc:327-336 | deciding the Put behind a kept SingleDelete keeps the invariant |
| `CompactionIterators.CompactionIterator.DropHiddenRecord` | rocksdb-5.18.3/db/compaction_iterator.cc:469-481 | deciding a record hidden in its stripe keeps the invariant |
| `CompactionIterators.CompactionIterator.CheckObsolete` | rocksdb-5.18.3/db/compaction_iterator.cc:482-489 | the answer is that of a fresh scan of the deeper levels |
| `CompactionIterators.CompactionIterator.DropObsoleteDeletion` | rocksdb-5.18.3/db/compaction_iterator.cc:482-513 | deciding an obsolete Deletion keeps the invariant, what it hid staying hidden |
| `CompactionIterators.CompactionIterator.OutputRecord` | rocksdb-5.18.3/db/compaction_iterator.cc:584-595 | deciding the first record of a stripe keeps the invariant, if no Deletion rule applies to it |
| `CompactionIterators.CompactionIterator.ProcessSingleDelete` | rocksdb-5.18.3/db/compaction_iterator.cc:337-468 | deciding a SingleDelete keeps the invariant, whichever record follows it |
| `CompactionIterators.CompactionIterator.SingleDeleteMeets` | rocksdb-5.18.3/db/compaction_iterator.cc:381-432 | the same if the next version is in its stripe: before another SingleDelete, with its Put, or when it is kept for write-conflict checks |
| `CompactionIterators.CompactionIterator.OutputStripeEnd` | rocksdb-5.18.3/db/compaction_iterator.cc:433-437 | the same if the next version is in another stripe |
| `CompactionIterators.CompactionIterator.SingleDeleteAlone` | rocksdb-5.18.3/db/compaction_iterator.cc:438-463 | the same for the last version of a key |
| `CompactionIterators.CompactionIterator.SkipStripe` | rocksdb-5.18.3/db/compaction_iterator.cc:520-531 | exactly the versions in the stripe of the Deletion are skipped, reads unchanged |
| `CompactionIterators.CompactionIterator.ProcessBottommostDeletion` | rocksdb-5.18.3/db/compaction_iterator.cc:514-538 | deciding a bottommost Deletion newer than the earliest snapshot keeps the invariant, whether it is output or goes |
| `CompactionIterators.CompactionIterator.PrepareOutput` | rocksdb-5.18.3/db/compaction_iterator.cc:608-632 | the pending record is appended and the resting invariant holds: zeroed exactly where allowed, only if a Put, in order, reads unchanged |
| `CompactionIterators.FindEarliestVisibleSnapshot` | rocksdb-5.18.3/db/compaction_iterator.cc:634-655 | the stripe is the least snapshot at or above the sequence number, or the maximum; the previous snapshot is the greatest one below, or 0 |
| `CompactionIterators.StripeOfRun` | rocksdb-5.18.3/db/compaction_iterator.cc:523-529 | comparing with the previous snapshot decides exactly whether an older version of the key is in the same stripe |
| `CompactionIterators.StripeTest` | rocksdb-5.18.3/db/compaction_iterator.cc:379-384 | the same test on the record after a SingleDelete decides whether it is in the SingleDelete's stripe |
| `CompactionSteps.HiddenDropped` | rocksdb-5.18.3/db/compaction_iterator.cc:469-481 | dropping a record whose stripe already has a newer one keeps the invariant |
| `CompactionSteps.ObsoleteDeletionDropped` | rocksdb-5.18.3/db/compaction_iterator.cc:482-513 | dropping a Deletion below the earliest snapshot with nothing deeper keeps the invariant; what it hid stays hidden |
| `CompactionSteps.Emitted` | rocksdb-5.18.3/db/compaction_iterator.cc:584-595 | emitting the first record of a stripe keeps the invariant |
| `CompactionSteps.ClearedEmitted` | rocksdb-5.18.3/db/compaction_iterator.cc:327-336 | a cleared Put is never read; it is a Put of the same stripe and newer than the earliest snapshot |
| `CompactionSteps.Zeroed` | rocksdb-5.18.3/db/compaction_iterator.cc:608-632 | zeroing the sequence number of the last emitted Put keeps reads, strict order and all else |
| `CompactionSteps.DoubleSingleDelete` | rocksdb-5.18.3/db/compaction_iterator.cc:385-394 | skipping the first of two SingleDeletes keeps reads |
| `CompactionSteps.PairDropped` | rocksdb-5.18.3/db/compaction_iterator.cc:395-418 | dropping a SingleDelete with its Put keeps reads and the usage rule of SingleDelete |
| `CompactionSteps.KeptWithPut` | rocksdb-5.18.3/db/compaction_iterator.cc:419-432 | keeping the SingleDelete and clearing the Put keeps reads |
| `CompactionSteps.KeptAtStripeEnd` | rocksdb-5.18.3/db/compaction_iterator.cc:433-437 | a SingleDelete at the end of its stripe is newer than the earliest snapshot, and keeping it keeps reads |
| `CompactionSteps.KeptLast` | rocksdb-5.18.3/db/compaction_iterator.cc:460-463 | keeping a lone SingleDelete keeps reads |
| `CompactionSteps.LastDropped` | rocksdb-5.18.3/db/compaction_iterator.cc:446-459 | dropping a lone SingleDelete with nothing deeper keeps reads |
| `CompactionSteps.RunSkipped` | rocksdb-5.18.3/db/compaction_iterator.cc:523-531 | skipping a version in the stripe of a bottommost Deletion keeps reads |
| `CompactionSteps.TailDeletionDropped` | rocksdb-5.18.3/db/compaction_iterator.cc:532-538 | a bottommost Deletion with no version left behind it can go |
| `WriteConflicts.ConflictsSettled` | rocksdb-5.18.3/db/compaction_iterator.cc:341-349 | at the end of a key, the output has a record newer than a write-conflict snapshot iff the input has and the key is not forgotten |
| `WriteConflicts.DeletionForgotten` | rocksdb-5.18.3/db/compaction_iterator.cc:514-538 | a legal input whose only record, a Deletion newer than a write-conflict snapshot, is forgotten |
| `WriteConflicts.PairKeeps` | rocksdb-5.18.3/db/compaction_iterator.cc:395-418 | dropping a SingleDelete with its Put loses no write conflict, under the code's two conditions (Rule 2) |
| `WriteConflicts.DoubleKeeps` | rocksdb-5.18.3/db/compaction_iterator.cc:385-394 | skipping the first of two SingleDeletes loses none |
| `WriteConflicts.EmitKeeps` | rocksdb-5.18.3/db/compaction_iterator.cc:584-595 | outputting a record with its sequence number loses none |
| `WriteConflicts.HiddenKeeps` | rocksdb-5.18.3/db/compaction_iterator.cc:469-481 | dropping a record hidden in its stripe loses none, since a newer one of the key was accounted for |
| `WriteConflicts.OldKeeps` | rocksdb-5.18.3/db/compaction_iterator.cc:482-513 | dropping a record that is not newer than the earliest write-conflict snapshot loses none |
| `WriteConflicts.RunForgotten` | rocksdb-5.18.3/db/compaction_iterator.cc:514-538 | dropping a bottommost Deletion with its run loses only a forgotten key |
| `WriteConflicts.RunNoticed` | rocksdb-5.18.3/db/compaction_iterator.cc:532-537 | keeping the Deletion in front of its run loses none |
| `WriteConflicts.ZeroKeeps` | rocksdb-5.18.3/db/compaction_iterator.cc:608-632 | zeroing a sequence number not above the earliest write-conflict snapshot loses none |
| `WriteConflicts.StartNotForgotten` | rocksdb-5.18.3/db/compaction_iterator.cc:584-595 | a key of which a record reaches the last branch is not forgotten |
| `DeeperLevels.KeyNotExistsBeyondOutputLevel` | rocksdb-5.18.3/db/compaction.cc:357-387 | true iff bottommost, or level style with a non-zero output level and no file below it covers the key; the cursors only advance |
| `DeeperLevels.QueryAll` | rocksdb-5.18.3/db/compaction.cc:357-387 | for any non-decreasing keys the shared cursors answer every query like a fresh scan |
| `Subcompactions.CollectBounds` | rocksdb-5.18.3/db/compaction_job.cc:460-495 | a key is a bound iff it is an end of a file of level 0, an end of a chosen level, or where a file of the output level begins |
| `Subcompactions.BoundsOfLevel` | rocksdb-5.18.3/db/compaction_job.cc:462-495 | the same for one level |
| `Subcompactions.SortUnique` | rocksdb-5.18.3/db/compaction_job.cc:497-509 | the result is strictly increasing with the same keys |
| `Subcompactions.CutRanges` | rocksdb-5.18.3/db/compaction_job.cc:552-571 | sizes has one element more than boundaries, sums to the total, every cut group reaches the mean, and there are fewer cuts than wanted groups |
| `Subcompactions.TargetCount` | rocksdb-5.18.3/db/compaction_job.cc:539-550 | at most the configured maximum and fewer than the number of bounds |
| `Subcompactions.GroupRanges` | rocksdb-5.18.3/db/compaction_job.cc:511-575 | boundaries are strictly increasing and strictly inside the bounds; sizes sum to the total and each but the last reaches the mean |
| `Subcompactions.GenSubcompactionBoundaries` | rocksdb-5.18.3/db/compaction_job.cc:452-576 | boundaries are strictly increasing file endpoints, at most as many as asked for; the bounds are exactly the collected ones in order; sizes has one more element and sums to the total, each size is the sum of the ranges it groups and all but the last reach the mean |
| `Subcompactions.BoundariesAreBounds` | rocksdb-5.18.3/db/compaction_job.cc:564-568 | every boundary is one of the sorted bounds |
| `Subcompactions.Seek` | rocksdb-5.18.3/db/compaction_job.cc:888-896 | exactly the records before the start key are skipped |
| `Subcompactions.CompactSlice` | rocksdb-5.18.3/db/compaction_job.cc:888-933 | a slice's output reads like the input for the keys of the slice, and holds no other key |
| `Subcompactions.ExactlyOneSlice` | rocksdb-5.18.3/db/compaction_job.cc:427-431 | every user key lies in exactly one slice |
| `Subcompactions.SlicesJoin` | rocksdb-5.18.3/db/compaction_job.cc:427-431 | two adjacent finished slices are one finished slice (reads, order, lineage, write conflicts) |
| `Subcompactions.WholeSlice` | rocksdb-5.18.3/db/compaction_job.cc:427-431 | a finished slice without bounds reads like the whole input |
| `SuperVersionProofs.CountsAreHolders` | rocksdb-5.18.3/db/column_family.cc:346-369 | after any interleaving: the reference count equals current pointer + slots + in-flight users + pins + installer; a SuperVersion is cleaned at most once, never while held, and an unheld one was cleaned or has exactly one cleaner; no assertion can fail next |
| `SuperVersionProofs.Freshness` | rocksdb-5.18.3/db/column_family.cc:1016-1077 | a reader's SuperVersion has a number no older than at the start of its Get; a slot holds the current SuperVersion or, until the install that published its successor has scraped the slot, the one before it |
| `SuperVersionProofs.TakenNotLast` | rocksdb-5.18.3/db/column_family.cc:1123-1139 | a reference dropped by the scrape is never the last one |
| `SuperVersionProofs.ExitNotLast` | rocksdb-5.18.3/db/column_family.cc:383-396 | a reference dropped by an exiting thread is never the last one |
| `SuperVersionProofs.Holding` | rocksdb-5.18.3/db/column_family.cc:346-356 | whoever holds a SuperVersion finds it alive with an exact count |
| `SuperVersionProofs.StepKeeps` | rocksdb-5.18.3/db/column_family.cc:1002-1139 | every step of every thread and of the installer keeps the invariant and fails no assertion |
| `SuperVersionProofs.RunKeeps` | rocksdb-5.18.3/db/column_family.cc:1002-1139 | the invariant holds after every interleaving |
| `SuperVersionProofs.KeepsSwap` | rocksdb-5.18.3/db/column_family.cc:1029-1035 | taking the slot never finds it in use: the invariant is kept and no assertion fails |
| `SuperVersionProofs.KeepsCheck` | rocksdb-5.18.3/db/column_family.cc:1036-1038 | the version check on an obsolete, stale or current slot: the invariant is kept and no assertion fails |
| `SuperVersionProofs.KeepsUnrefStale` | rocksdb-5.18.3/db/column_family.cc:1042-1042 | dropping a stale SuperVersion: the invariant is kept and no assertion fails |
| `SuperVersionProofs.KeepsLock` | rocksdb-5.18.3/db/column_family.cc:1044-1050 | taking the DB mutex: the invariant is kept and no assertion fails |
| `SuperVersionProofs.KeepsCleanupStale` | rocksdb-5.18.3/db/column_family.cc:1047-1048 | cleanup of a stale SuperVersion finds its count at zero: the invariant is kept and no assertion fails |
| `SuperVersionProofs.KeepsRefCurrent` | rocksdb-5.18.3/db/column_family.cc:1052-1052 | referring to the current SuperVersion under the mutex: the invariant is kept and no assertion fails |
| `SuperVersionProofs.KeepsUnlock` | rocksdb-5.18.3/db/column_family.cc:1053-1058 | releasing the mutex with a fresh reference: the invariant is kept and no assertion fails |
| `SuperVersionProofs.KeepsReturn` | rocksdb-5.18.3/db/column_family.cc:1061-1077 | putting the SuperVersion back; if the slot changed it is obsolete: the invariant is kept and no assertion fails |
| `SuperVersionProofs.KeepsPin` | rocksdb-5.18.3/db/column_family.cc:1005-1005 | the extra reference of GetReferencedSuperVersion: the invariant is kept and no assertion fails |
| `SuperVersionProofs.KeepsPinReturn` | rocksdb-5.18.3/db/column_family.cc:1006-1006 | returning the slot while pinned: the invariant is kept and no assertion fails |
| `SuperVersionProofs.KeepsPinUnref` | rocksdb-5.18.3/db/column_family.cc:1006-1012 | dropping the slot's reference while pinned, never the last one: the invariant is kept and no assertion fails |
| `SuperVersionProofs.KeepsUnpin` | rocksdb-5.18.3/db/db_impl.cc:2172-2183 | a client gives a pinned SuperVersion up: the invariant is kept and no assertion fails |
| `SuperVersionProofs.KeepsUnrefDropped` | rocksdb-5.18.3/db/db_impl.cc:2172-2190 | dropping a SuperVersion that could not be put back: the invariant is kept and no assertion fails |
| `SuperVersionProofs.KeepsCleanLock` | rocksdb-5.18.3/db/db_impl.cc:2176-2176 | the last holder takes the mutex to clean up: the invariant is kept and no assertion fails |
| `SuperVersionProofs.KeepsCleanup` | rocksdb-5.18.3/db/column_family.cc:358-369 | cleanup finds the count at zero and happens once: the invariant is kept and no assertion fails |
| `SuperVersionProofs.KeepsExitBegin` | rocksdb-5.18.3/db/column_family.cc:383-388 | a thread exits with its slot: the invariant is kept and no assertion fails |
| `SuperVersionProofs.KeepsExitUnref` | rocksdb-5.18.3/db/column_family.cc:389-395 | the exiting thread's reference is dropped: the invariant is kept and no assertion fails |
| `SuperVersionProofs.KeepsInstallStart` | rocksdb-5.18.3/db/column_family.cc:1085-1091 | a new SuperVersion starts with one reference: the invariant is kept and no assertion fails |
| `SuperVersionProofs.KeepsPublish` | rocksdb-5.18.3/db/column_family.cc:1092-1093 | the new SuperVersion becomes current: the invariant is kept and no assertion fails |
| `SuperVersionProofs.KeepsBump` | rocksdb-5.18.3/db/column_family.cc:1094-1094 | the version number is raised: the invariant is kept and no assertion fails |
| `SuperVersionProofs.KeepsStamp` | rocksdb-5.18.3/db/column_family.cc:1095-1095 | the current SuperVersion gets the number: the invariant is kept and no assertion fails |
| `SuperVersionProofs.KeepsScrapeOne` | rocksdb-5.18.3/db/column_family.cc:1125-1125 | one thread's slot is taken and marked obsolete: the invariant is kept and no assertion fails |
| `SuperVersionProofs.KeepsUnrefTaken` | rocksdb-5.18.3/db/column_family.cc:1126-1138 | a taken pointer is released: the invariant is kept and no assertion fails |
| `SuperVersionProofs.KeepsDropOld` | rocksdb-5.18.3/db/column_family.cc:1116-1116 | the installer drops the old SuperVersion: the invariant is kept and no assertion fails |
| `SuperVersionProofs.KeepsCleanupOld` | rocksdb-5.18.3/db/column_family.cc:1117-1118 | the old SuperVersion is cleaned up if the drop was the last: the invariant is kept and no assertion fails |
| `ClockCacheProofs.NoAssertionFails` | rocksdb-5.18.3/cache/clock_cache.cc:404-498 | in every interleaving no assertion fails next: only unreferenced handles out of the cache are recycled, an evicted key is in the table, a released reference was counted |
| `ClockCacheProofs.RecycledOncePerInsertion` | rocksdb-5.18.3/cache/clock_cache.cc:404-415 | each use of a handle is recycled at most once; the recycle bin has no duplicates and holds exactly the handles whose last use was recycled; the packed count is the number of references |
| `ClockCacheProofs.UnusedIsRecycled` | rocksdb-5.18.3/cache/clock_cache.cc:448-483 | a handle nobody is about to recycle or fill is unused iff it is in the recycle bin |
| `ClockCacheProofs.MutexFree` | rocksdb-5.18.3/cache/clock_cache.cc:541-585 | with the mutex free, usage is the charge of the unrecycled handles and the table holds exactly the handles with the in-cache bit |
| `ClockCacheProofs.HeldUntouched` | rocksdb-5.18.3/cache/clock_cache.cc:611-634 | a handle returned by Lookup or Insert stands for the requested key, is referenced and not in the recycle bin, and no step of anyone changes key, charge or use |
| `ClockCacheProofs.UnheldInsertFits` | rocksdb-5.18.3/cache/clock_cache.cc:541-585 | an insertion without a handle leaves the usage within the capacity |
| `ClockCacheProofs.StepKeeps` | rocksdb-5.18.3/cache/clock_cache.cc:404-676 | every atomic step keeps the invariant |
| `ClockCacheProofs.RunKeeps` | rocksdb-5.18.3/cache/clock_cache.cc:404-676 | the invariant holds after every interleaving |
| `ClockCacheProofs.AddRef` | rocksdb-5.18.3/cache/clock_cache.cc:435-436 | adding a reference changes the count by one and neither bit |
| `ClockCacheProofs.SubRef` | rocksdb-5.18.3/cache/clock_cache.cc:456-456 | dropping a reference changes the count by one and neither bit |
| `ClockCacheProofs.UsageBit` | rocksdb-5.18.3/cache/clock_cache.cc:451-451 | setting or clearing the usage bit touches nothing else |
| `ClockCacheProofs.InCacheBit` | rocksdb-5.18.3/cache/clock_cache.cc:476-477 | clearing the in-cache bit touches nothing else |
| `ClockCacheProofs.KeepsFind` | rocksdb-5.18.3/cache/clock_cache.cc:612-617 | lock-free table lookup: the invariant is kept and no assertion fails |
| `ClockCacheProofs.KeepsLoad` | rocksdb-5.18.3/cache/clock_cache.cc:431-432 | loading the word: the invariant is kept and no assertion fails |
| `ClockCacheProofs.KeepsSwap` | rocksdb-5.18.3/cache/clock_cache.cc:432-444 | compare-exchange, with retry: the invariant is kept and no assertion fails |
| `ClockCacheProofs.KeepsCompare` | rocksdb-5.18.3/cache/clock_cache.cc:623-633 | comparing the key after the reference was taken: the invariant is kept and no assertion fails |
| `ClockCacheProofs.KeepsDuplicate` | rocksdb-5.18.3/cache/clock_cache.cc:428-446 | Ref by a client that holds a reference: the invariant is kept and no assertion fails |
| `ClockCacheProofs.KeepsTouch` | rocksdb-5.18.3/cache/clock_cache.cc:450-452 | setting the usage bit: the invariant is kept and no assertion fails |
| `ClockCacheProofs.KeepsDrop` | rocksdb-5.18.3/cache/clock_cache.cc:456-462 | dropping a reference; the last one of an uncached handle owes its recycling: the invariant is kept and no assertion fails |
| `ClockCacheProofs.KeepsLock` | rocksdb-5.18.3/cache/clock_cache.cc:463-463 | taking the mutex: the invariant is kept and no assertion fails |
| `ClockCacheProofs.KeepsUnlock` | rocksdb-5.18.3/cache/clock_cache.cc:541-585 | releasing the mutex: the invariant is kept and no assertion fails |
| `ClockCacheProofs.KeepsRecycle` | rocksdb-5.18.3/cache/clock_cache.cc:404-415 | recycling an owned handle: the invariant is kept and no assertion fails |
| `ClockCacheProofs.KeepsEnterErase` | rocksdb-5.18.3/cache/clock_cache.cc:655-660 | removing a key from the table: the invariant is kept and no assertion fails |
| `ClockCacheProofs.KeepsEnterUnRef` | rocksdb-5.18.3/cache/clock_cache.cc:668-670 | clearing the table: the invariant is kept and no assertion fails |
| `ClockCacheProofs.KeepsEnterSweep` | rocksdb-5.18.3/cache/clock_cache.cc:500-507 | starting a sweep: the invariant is kept and no assertion fails |
| `ClockCacheProofs.KeepsSweep` | rocksdb-5.18.3/cache/clock_cache.cc:487-489 | one try to evict: the invariant is kept and no assertion fails |
| `ClockCacheProofs.KeepsEvict` | rocksdb-5.18.3/cache/clock_cache.cc:490-494 | removing the evicted key and recycling its handle: the invariant is kept and no assertion fails |
| `ClockCacheProofs.KeepsSpare` | rocksdb-5.18.3/cache/clock_cache.cc:496-497 | clearing the usage bit of a spared handle: the invariant is kept and no assertion fails |
| `ClockCacheProofs.KeepsPlace` | rocksdb-5.18.3/cache/clock_cache.cc:548-570 | taking a handle from the recycle bin or appending one, or refusing: the invariant is kept and no assertion fails |
| `ClockCacheProofs.KeepsStore` | rocksdb-5.18.3/cache/clock_cache.cc:571-572 | storing the new word: the invariant is kept and no assertion fails |
| `ClockCacheProofs.KeepsProbe` | rocksdb-5.18.3/cache/clock_cache.cc:573-576 | removing an entry that is replaced: the invariant is kept and no assertion fails |
| `ClockCacheProofs.KeepsUnset` | rocksdb-5.18.3/cache/clock_cache.cc:470-483 | clearing the in-cache bit of a replaced entry: the invariant is kept and no assertion fails |
| `ClockCacheProofs.KeepsPublish` | rocksdb-5.18.3/cache/clock_cache.cc:579-583 | entering the new handle and adding its charge: the invariant is kept and no assertion fails |
| `ClockCacheProofs.KeepsEraseUnset` | rocksdb-5.18.3/cache/clock_cache.cc:661-661 | clearing the in-cache bit of an erased entry: the invariant is kept and no assertion fails |
| `ClockCacheProofs.KeepsUnsetAt` | rocksdb-5.18.3/cache/clock_cache.cc:671-673 | clearing the in-cache bit of each handle in turn: the invariant is kept and no assertion fails |
| `ClockEviction.ClockShard.TryEvict` | rocksdb-5.18.3/cache/clock_cache.cc:485-498 | evicts iff the word is exactly the in-cache bit, else clears the usage bit; the shard stays consistent and no other handle changes |
| `ClockEviction.ClockShard.EvictFromCache` | rocksdb-5.18.3/cache/clock_cache.cc:500-524 | at most two rounds; true means the charge fits; false after a sweep means every cached handle is referenced, and the hand stays; handles keep all but the usage bit or are evicted unreferenced; a used handle goes only after all unused ones; nothing goes if it already fits |
| `ClockEviction.FirstRoundStep` | rocksdb-5.18.3/cache/clock_cache.cc:508-521 | one step of the first round: passed handles were evicted if unused and unreferenced, else kept without usage bit; at its end the second round begins |
| `ClockEviction.SecondRoundStep` | rocksdb-5.18.3/cache/clock_cache.cc:508-521 | one step of the second round leaves no cached, unreferenced handle behind it; at its end all cached handles are referenced |
| `ClockEviction.QuietIsConsistent` | rocksdb-5.18.3/cache/clock_cache.cc:326-328 | every interleaving with no operation in flight ends in a shard the sequential sweep accepts |
| `LruTable.LRUHandleTable.constructor` | rocksdb-5.18.3/cache/lru_cache.cc:25-27 | a new table is empty and valid |
| `LruTable.LRUHandleTable.FindPointer` | rocksdb-5.18.3/cache/lru_cache.cc:68-74 | the slot that holds the entry with that key and hash, or the end of its bucket; found iff the map has it |
| `LruTable.LRUHandleTable.Lookup` | rocksdb-5.18.3/cache/lru_cache.cc:38-40 | map lookup |
| `LruTable.LRUHandleTable.Insert` | rocksdb-5.18.3/cache/lru_cache.cc:42-56 | map update, returning the replaced entry; the element count is the map's size and at most the length |
| `LruTable.LRUHandleTable.Link` | rocksdb-5.18.3/cache/lru_cache.cc:44-46 | the pointer assignments put the entry in its place in the bucket |
| `LruTable.LRUHandleTable.Remove` | rocksdb-5.18.3/cache/lru_cache.cc:58-66 | map removal, returning the removed entry |
| `LruTable.LRUHandleTable.Unlink` | rocksdb-5.18.3/cache/lru_cache.cc:61-63 | unlinking the entry removes exactly it |
| `LruTable.LRUHandleTable.SetSlot` | rocksdb-5.18.3/cache/lru_cache.cc:46-46 | assigning a slot replaces the rest of that bucket and touches no other bucket |
| `LruTable.LRUHandleTable.NewLength` | rocksdb-5.18.3/cache/lru_cache.cc:77-80 | the least power of two from 16 with a load of at most two thirds |
| `LruTable.LRUHandleTable.MoveBucket` | rocksdb-5.18.3/cache/lru_cache.cc:84-95 | one bucket's entries move to the new array, the other old buckets stay intact |
| `LruTable.LRUHandleTable.MoveAll` | rocksdb-5.18.3/cache/lru_cache.cc:83-96 | all entries end up in the new array; the asserted count equals the number of elements |
| `LruTable.LRUHandleTable.Resize` | rocksdb-5.18.3/cache/lru_cache.cc:76-100 | the map is unchanged and the table valid, with room |
| `LruTable.MoveOne` | rocksdb-5.18.3/cache/lru_cache.cc:87-91 | pushing one entry on its new bucket is map update |
| `LruTable.MoveChain` | rocksdb-5.18.3/cache/lru_cache.cc:85-94 | the inner loop moves a whole bucket |
| `LruTable.MaskIsRemainder` | rocksdb-5.18.3/cache/lru_cache.cc:69-69 | for a power of two the mask is the remainder |
| `LruTable.PutRefines` | rocksdb-5.18.3/cache/lru_cache.cc:42-56 | replacing or appending in a bucket is map update |
| `LruTable.DropRefines` | rocksdb-5.18.3/cache/lru_cache.cc:58-66 | unlinking in a bucket is map removal |
| `LruTable.PushRefines` | rocksdb-5.18.3/cache/lru_cache.cc:89-91 | pushing at the front of a bucket is map update |
| `LruList.Unlink` | rocksdb-5.18.3/cache/lru_cache.cc:189-191 | the pointers form the ring without that entry |
| `LruList.Link` | rocksdb-5.18.3/cache/lru_cache.cc:204-207 | the pointers form the ring with the entry in that place |
| `LruShard.LRUCacheShard.constructor` | rocksdb-5.18.3/cache/lru_cache.cc:102-116 | an empty valid shard with the given capacity, for any pool ratio; under the strict limit usage stays within the capacity from here on |
| `LruShard.LRUCacheShard.LRU_Remove` | rocksdb-5.18.3/cache/lru_cache.cc:183-197 | takes exactly that entry off; pool boundary and all running totals stay exact |
| `LruShard.LRUCacheShard.LRU_Insert` | rocksdb-5.18.3/cache/lru_cache.cc:199-222 | puts the entry at the head of the list or of the low-priority pool; totals stay exact; after a high-priority insert the pool is within its capacity |
| `LruShard.LRUCacheShard.InsertHigh` | rocksdb-5.18.3/cache/lru_cache.cc:203-209 | the head of the list, counted in the pool |
| `LruShard.LRUCacheShard.InsertLow` | rocksdb-5.18.3/cache/lru_cache.cc:214-219 | the head of the low-priority pool, which it extends |
| `LruShard.LRUCacheShard.Overflow` | rocksdb-5.18.3/cache/lru_cache.cc:226-230 | the oldest pool entry becomes the newest low-priority one; the dummy head is never reached |
| `LruShard.LRUCacheShard.MaintainPoolSize` | rocksdb-5.18.3/cache/lru_cache.cc:224-232 | with a pool capacity of at least 0 the pool ends within it, moving no more than needed; below 0 the loop empties the pool and reaches the dummy head |
| `LruShard.LRUCacheShard.PoolEnd` | rocksdb-5.18.3/cache/lru_cache.cc:224-232 | the boundary is next to the dummy head iff the pool is empty, and then its usage is 0 |
| `LruShard.LRUCacheShard.Take` | rocksdb-5.18.3/cache/lru_cache.cc:274-276 | takes an idle entry off the list; the rest keeps its order |
| `LruShard.LRUCacheShard.Put` | rocksdb-5.18.3/cache/lru_cache.cc:325-327 | puts an entry only the table refers to in its place on the list |
| `LruShard.LRUCacheShard.Discard` | rocksdb-5.18.3/cache/lru_cache.cc:319-322 | the table gives up its last reference: the entry leaves table, usage and live set |
| `LruShard.LRUCacheShard.EvictOldest` | rocksdb-5.18.3/cache/lru_cache.cc:237-245 | the oldest entry leaves list, table and usage with no reference left |
| `LruShard.LRUCacheShard.EvictFromLRU` | rocksdb-5.18.3/cache/lru_cache.cc:234-247 | evicts a prefix of the list, oldest first, no more than needed, until the charge fits or the list is empty |
| `LruShard.LRUCacheShard.MakeRoom` | rocksdb-5.18.3/cache/lru_cache.cc:367-369 | eviction leaves what clients pin; without room only that is left |
| `LruShard.LRUCacheShard.Displace` | rocksdb-5.18.3/cache/lru_cache.cc:388-396 | a replaced or erased entry loses the table's reference and is gone iff no client holds it |
| `LruShard.LRUCacheShard.AddToTable` | rocksdb-5.18.3/cache/lru_cache.cc:386-387 | the new entry is in the table and in the usage; a replaced one is out of the table |
| `LruShard.LRUCacheShard.Replace` | rocksdb-5.18.3/cache/lru_cache.cc:386-397 | the new entry is in, the replaced one is gone iff unheld, the rest of the list keeps its order |
| `LruShard.LRUCacheShard.Place` | rocksdb-5.18.3/cache/lru_cache.cc:386-402 | after that the invariant holds with the new entry at the head of its pool's part of the list, or in the client's hands |
| `LruShard.LRUCacheShard.InsertLocked` | rocksdb-5.18.3/cache/lru_cache.cc:364-405 | inserted iff what clients pin plus the charge fits, or the caller holds it and the limit is not strict; what leaves is listed for freeing; usage stays within the capacity under the strict limit |
| `LruShard.LRUCacheShard.InsertEntry` | rocksdb-5.18.3/cache/lru_cache.cc:338-414 | on top of that: what left was freed, once, and nothing else was; surviving list entries keep their order |
| `LruShard.LRUCacheShard.Insert` | rocksdb-5.18.3/cache/lru_cache.cc:338-414 | status, handle, references, table, place on the list and freed entries as the code returns them; from construction with the strict limit on, usage never exceeds the capacity |
| `LruShard.LRUCacheShard.Free` | rocksdb-5.18.3/cache/lru_cache.h:108-114 | only an entry without references (or never entered) is freed, and only once |
| `LruShard.LRUCacheShard.IdleOrHeld` | rocksdb-5.18.3/cache/lru_cache.h:27-44 | an entry is on the list iff it is in the table with one reference; references are clients plus table membership |
| `LruShard.LRUCacheShard.FreeAll` | rocksdb-5.18.3/cache/lru_cache.cc:407-411 | frees exactly the listed entries |
| `LruShard.LRUCacheShard.SetCapacity` | rocksdb-5.18.3/cache/lru_cache.cc:249-262 | afterwards usage fits or the list is empty; what left was freed, the rest keeps its order and its place in the table |
| `LruShard.LRUCacheShard.Shrink` | rocksdb-5.18.3/cache/lru_cache.cc:252-262 | the same for the eviction alone |
| `LruShard.LRUCacheShard.SetStrictCapacityLimit` | rocksdb-5.18.3/cache/lru_cache.cc:264-267 | the invariant is kept |
| `LruShard.LRUCacheShard.Lookup` | rocksdb-5.18.3/cache/lru_cache.cc:269-281 | the entry of that key, if any, gets a client reference and a hit and leaves the list, the rest of which keeps its order |
| `LruShard.LRUCacheShard.Ref` | rocksdb-5.18.3/cache/lru_cache.cc:283-291 | one more client reference; an idle entry leaves the list |
| `LruShard.LRUCacheShard.SetHighPriorityPoolRatio` | rocksdb-5.18.3/cache/lru_cache.cc:293-298 | for a ratio of at least 0, or without capacity, the pool is within its new capacity; else it is emptied and the loop reaches the dummy head |
| `LruShard.LRUCacheShard.DropClient` | rocksdb-5.18.3/cache/lru_cache.cc:120-124 | a client reference is given back and counted off |
| `LruShard.LRUCacheShard.Settle` | rocksdb-5.18.3/cache/lru_cache.cc:308-328 | gone, discarded, put back on the list or still held, exactly as the counts say; the asserted emptiness of the list holds |
| `LruShard.LRUCacheShard.Release` | rocksdb-5.18.3/cache/lru_cache.cc:300-336 | freed iff no client is left and the entry is out of the table, or the cache is over capacity, or erasing is forced; else it goes back to its place on the list |
| `LruShard.LRUCacheShard.Erase` | rocksdb-5.18.3/cache/lru_cache.cc:416-439 | the key is gone from the table; its entry is freed iff unheld |
| `LruShard.LRUCacheShard.EraseUnRefEntries` | rocksdb-5.18.3/cache/lru_cache.cc:128-149 | exactly the idle entries are freed and leave the table; what is left is held; usage does not grow |
| `LruShard.LRUCacheShard.GetUsage` | rocksdb-5.18.3/cache/lru_cache.cc:441-444 | the charges of all live entries |
| `LruShard.LRUCacheShard.GetPinnedUsage` | rocksdb-5.18.3/cache/lru_cache.cc:446-450 | the charges of the live entries not on the list; the asserted order of the totals holds |
| `ShardedCaches.ShardInRange` | rocksdb-5.18.3/cache/sharded_cache.h:89-92 | every 32-bit hash has a shard |
| `ShardedCaches.ShardedCache.Home` | rocksdb-5.18.3/cache/sharded_cache.h:89-92 | the shard of a hash is one of the shards |
| `ShardedCaches.PerShard` | rocksdb-5.18.3/cache/sharded_cache.cc:33-33 | the parts cover the capacity and exceed it by less than one unit a shard |
| `ShardedCaches.ShardedCache.constructor` | rocksdb-5.18.3/cache/lru_cache.cc:463-476 | valid, separate, empty shards of equal capacity that together make up the cache |
| `ShardedCaches.ShardedCache.SetCapacity` | rocksdb-5.18.3/cache/sharded_cache.cc:31-39 | every shard is valid with its part of the capacity, keys stay in the shard of their hash, and shards stay separate |
| `ShardedCaches.ShardedCache.SetStrictCapacityLimit` | rocksdb-5.18.3/cache/sharded_cache.cc:41-48 | every shard gets the limit and keeps its capacity |
| `ShardedCaches.ShardedCache.GetUsage` | rocksdb-5.18.3/cache/sharded_cache.cc:92-100 | the sum over the shards; if the strict limit has been on since construction and the capacity was not changed, at most capacity + number of shards - 1, after any operations |
| `ShardedCaches.ShardedCache.Insert` | rocksdb-5.18.3/cache/sharded_cache.cc:50-56 | the entry goes to the shard of its hash iff what clients pin there plus the charge fits, or it is held and the limit is not strict; nothing is lost or freed twice; the cache stays valid, so under the strict limit within its bound |
| `ShardedCaches.ShardedCache.Lookup` | rocksdb-5.18.3/cache/sharded_cache.cc:58-61 | found iff any shard has the key, then the entry of the home shard, with a client reference and a hit |
| `ShardedCaches.ShardedCache.Ref` | rocksdb-5.18.3/cache/sharded_cache.cc:63-66 | one more client reference in the home shard |
| `ShardedCaches.ShardedCache.Release` | rocksdb-5.18.3/cache/sharded_cache.cc:68-71 | one client reference less in the home shard; true iff that freed the entry |
| `ShardedCaches.ShardedCache.Erase` | rocksdb-5.18.3/cache/sharded_cache.cc:73-76 | no shard has the key any more |
| `ShardedCaches.ShardedCache.EraseUnRefEntries` | rocksdb-5.18.3/cache/sharded_cache.cc:124-129 | no idle entry is left in any shard |
| `CompactionFiles.OverlappingExact` | rocksdb-5.18.3/db/version_set.cc:2199-2333 | below level 0 the contiguous run returned is exactly the files that meet the range |
| `CompactionFiles.L0Closed` | rocksdb-5.18.3/db/version_set.cc:2103-2157 | on level 0 every file that meets the chosen ones, or the range, is chosen |
| `CleanCuts.WithinContains` | rocksdb-5.18.3/db/version_set.cc:2335-2400 | the clean files within a range contain every clean cut inside it |
| `CleanCuts.GetRange` | rocksdb-5.18.3/db/compaction_picker.cc:146-173 | the least range around the files, by all of level 0 or by first and last file below |
| `CleanCuts.GetRangeOfTwo` | rocksdb-5.18.3/db/compaction_picker.cc:175-192 | the least range around both |
| `CleanCuts.GetRangeOfAll` | rocksdb-5.18.3/db/compaction_picker.cc:194-219 | the least range around all levels' files |
| `CleanCuts.GetBoundaryKeys` | rocksdb-5.18.3/db/compaction.cc:80-119 | the same range as GetRange computes |
| `CleanCuts.ExpandInputsToCleanCut` | rocksdb-5.18.3/db/compaction_picker.cc:221-261 | terminates at the least clean cut around its input; true iff none of its files is being compacted |
| `CleanCuts.ExpandOnce` | rocksdb-5.18.3/db/compaction_picker.cc:242-249 | one round grows the run within the same least clean cut, and stops growing only at a clean cut |
| `CleanCuts.LeastCut` | rocksdb-5.18.3/db/compaction_picker.cc:221-261 | every clean cut around the input contains that one |
| `CleanCuts.RangeOverlapWithCompaction` | rocksdb-5.18.3/db/compaction_picker.cc:263-277 | true iff a running compaction of that output level meets the range |
| `CleanCuts.FilesRangeOverlapWithCompaction` | rocksdb-5.18.3/db/compaction_picker.cc:279-297 | the same for the range of all input files; false without files |
| `CleanCuts.AreFilesInCompaction` | rocksdb-5.18.3/db/compaction_picker.cc:300-308 | true iff one file is marked |
| `CleanCuts.ChooseOutputs` | rocksdb-5.18.3/db/compaction_picker.cc:442-457 | the least clean cut around the output level's files that meet the range; refused iff one is marked |
| `CleanCuts.MeetingInputs` | rocksdb-5.18.3/db/compaction_picker.cc:477-483 | the start level's files that meet the joint range, with those that share a user key; clean iff none is marked |
| `CleanCuts.CutCovers` | rocksdb-5.18.3/db/compaction_picker.cc:442-457 | that cut holds every file that meets the range or the cut itself |
| `CleanCuts.SameCut` | rocksdb-5.18.3/db/compaction_picker.cc:487-500 | a wider range with as many output files has the same ones |
| `CleanCuts.ExpandByOverlap` | rocksdb-5.18.3/db/compaction_picker.cc:469-501 | taken iff there are more such files, all free, within the limit, and the output level has as many for them; then they contain the old inputs, the output files still cover them, and the asserted overlap with the output level holds |
| `CleanCuts.ExpandWithin` | rocksdb-5.18.3/db/compaction_picker.cc:502-512 | the same for the files strictly inside the joint range: taken iff they are more, all free and within the limit |
| `CleanCuts.SetupOtherInputs` | rocksdb-5.18.3/db/compaction_picker.cc:420-527 | fails iff a file of the least clean cut of the output level around what meets the inputs is marked; else that cut is the output files and the chosen inputs are exactly the first of the three candidates that fits: the files that meet the joint range, those inside it, the inputs themselves; they contain the inputs, are a clean cut, unmarked, and the output files cover them |
| `SanitizeInputs.HaveOverlappingKeyRanges` | rocksdb-5.18.3/db/compaction_picker.cc:749-770 | true iff the ranges share a key |
| `SanitizeInputs.FindIncluded` | rocksdb-5.18.3/db/compaction_picker.cc:798-814 | first and last named file of a level |
| `SanitizeInputs.ExpandTouching` | rocksdb-5.18.3/db/compaction_picker.cc:819-838 | the run grows to the least clean cut around it |
| `SanitizeInputs.IncludeRun` | rocksdb-5.18.3/db/compaction_picker.cc:843-851 | all of the run is added, or it is refused iff one is marked |
| `SanitizeInputs.Widen` | rocksdb-5.18.3/db/compaction_picker.cc:853-863 | the range becomes the least one around itself and the run |
| `SanitizeInputs.IncludeMeeting` | rocksdb-5.18.3/db/compaction_picker.cc:886-897 | exactly the files of a level that meet the range are added, or it is refused |
| `SanitizeInputs.IncludeBelow` | rocksdb-5.18.3/db/compaction_picker.cc:879-898 | the same for all levels down to the output level |
| `SanitizeInputs.DeeperLevelDone` | rocksdb-5.18.3/db/compaction_picker.cc:819-898 | a level >= 1 is closed: all included files are inside the range, and all files there or below that meet them are included |
| `SanitizeInputs.TopLevelDone` | rocksdb-5.18.3/db/compaction_picker.cc:839-898 | level 0 is closed: everything older than an included file is included, and everything below that meets them |
| `SanitizeInputs.SanitizeLevel` | rocksdb-5.18.3/db/compaction_picker.cc:796-899 | one round adds exactly the run of the level and the files below that meet the range so far, or is refused iff one of them is marked; it keeps all earlier levels closed |
| `SanitizeInputs.SanitizeForAllLevels` | rocksdb-5.18.3/db/compaction_picker.cc:773-906 | OK iff no file of the completion is marked and nothing that runs meets the range; then the result is exactly the completion, closed on every level up to the output level, and its range |
| `SanitizeInputs.SanitizeCompactionInputFiles` | rocksdb-5.18.3/db/compaction_picker.cc:908-971 | OK iff the arguments are valid, every named file exists unmarked, and the completion passes; each refusal has its own condition; files below the output level are looked at for their marks only |
| `Completions.CompletedClosed` | rocksdb-5.18.3/db/compaction_picker.cc:773-906 | no file up to the output level is left behind that lies between completed files of its own level or of levels above |
| `Completions.CompletedLeast` | rocksdb-5.18.3/db/compaction_picker.cc:773-906 | any set with the named files that leaves nothing behind contains the completion |
| `SanitizeInputs.FindFile` | rocksdb-5.18.3/db/compaction_picker.cc:947-962 | found iff some level has the file |
| `SanitizeInputs.GetCompactionInputsFromFileNumbers` | rocksdb-5.18.3/db/compaction_picker.cc:348-395 | the named files by level, from the first level with one to the last |
| `RunningCompactions.Joined` | rocksdb-5.18.3/db/compaction_picker.cc:974-986 | a new compaction with unmarked files and a clear range keeps the state of the picker consistent |
| `RunningCompactions.NotJoined` | rocksdb-5.18.3/db/compaction_picker.cc:974-986 | registered over one that runs with the same non-zero output level and meets it, it breaks that consistency |
| `RunningCompactions.Left` | rocksdb-5.18.3/db/compaction_picker.cc:988-997 | so does removing one, which clears exactly its files' marks |
| `RunningCompactions.Level0Free` | rocksdb-5.18.3/db/compaction_picker.cc:1046-1048 | with no compaction from level 0 registered, no file of level 0 is marked, also while the inputs of others are gone |
| `RunningCompactions.FreshMark` | rocksdb-5.18.3/db/compaction.cc:390-398 | inputs name no file twice |
| `CompactionPickers.CompactionPicker.MarkFiles` | rocksdb-5.18.3/db/compaction.cc:390-398 | exactly the inputs' marks change and the assertions hold |
| `CompactionPickers.CompactionPicker.Form` | rocksdb-5.18.3/db/compaction.cc:210-270 | the compaction is registered and marked, its range is that of its files, and with a clear range the invariant (no file in two compactions, same non-zero output level means disjoint ranges) is kept |
| `CompactionPickers.CompactionPicker.Install` | rocksdb-5.18.3/db/version_set.cc:3161-3208 | the levels change by a flush, an ingestion or a result, whose compaction stays registered; the invariant is kept if no input of a running compaction moves to a level above |
| `CompactionPickers.CompactionPicker.Register` | rocksdb-5.18.3/db/compaction_picker.cc:974-986 | registered without a check, it keeps the invariant iff its output level is 0 or nothing that runs there meets its range |
| `CompactionPickers.CompactionPicker.Release` | rocksdb-5.18.3/db/compaction_picker.cc:139-144 | the invariant is kept and exactly its marks are cleared, whether its result is installed or not |
| `CompactionPickers.CompactionPicker.InstallResult` | rocksdb-5.18.3/db/version_set.cc:3161-3208 | a compaction's result is installed and the compaction released with nothing between; the invariant is kept |
| `CompactionPickers.CompactionPicker.Unregister` | rocksdb-5.18.3/db/compaction_picker.cc:988-997 | exactly its entry and its marks are gone |
| `CompactionPickers.FitLimit` | rocksdb-5.18.3/db/compaction_picker.cc:648-660 | the first files, one at least, up to where their total size reaches the limit, and no further |
| `CompactionPickers.CompactionPicker.StartOfRange` | rocksdb-5.18.3/db/compaction_picker.cc:632-660 | exactly the files that meet the range, cut off where the limit is reached but never on level 0; whole iff nothing was cut off |
| `CompactionPickers.CompactionPicker.CleanAndFree` | rocksdb-5.18.3/db/compaction_picker.cc:663-672 | the least clean cut around the start, refused iff one of its files is marked |
| `CompactionPickers.CompactionPicker.Finish` | rocksdb-5.18.3/db/compaction_picker.cc:680-735 | a compaction is formed with exactly the inputs that follow from the start and the state, which tears no key and leaves no overlapping file behind; refused iff a file that has to go along on the output level is marked or something that runs with that output level writes to the range of the inputs; then nothing changes; the second look at the marks finds none |
| `CompactionPickers.CompactionPicker.CompactRange` | rocksdb-5.18.3/db/compaction_picker.cc:621-744 | the invariant is kept; it starts from the least clean cut around the files of the range up to the limit, on level 0 from all of them; nothing to do iff no file meets the range, else a conflict is reported iff level 0 is taken, a file of the cut is marked, or it is refused as above; a formed compaction has exactly the inputs that follow, is sound in that sense and holds every file of the range or, if an end is reported, every one that begins before it |
| `CompactionPickers.CompactionPicker.EndOf` | rocksdb-5.18.3/db/compaction_picker.cc:674-678 | none if the whole range is covered or the cut reaches the end of the level, else where the next file begins |
| `CompactionPickers.CompactionPicker.RangeTaken` | rocksdb-5.18.3/db/compaction_picker.cc:663-678 | the cut holds every file of the range that begins before the reported end, which lies past the first of them |
| `CompactionPickers.CompactionPicker.CanReach` | rocksdb-5.18.3/db/compaction_picker.cc:1488-1515 | true iff nothing running writes there and the output level's cut is free |
| `CompactionPickers.CompactionPicker.StartFrom` | rocksdb-5.18.3/db/compaction_picker.cc:1486-1496 | the least clean cut around a file, on level 0 the file alone; refused iff marked |
| `CompactionPickers.CompactionPicker.PickFileToCompact` | rocksdb-5.18.3/db/compaction_picker.cc:1452-1524 | the first file by priority, from the given index on, whose cut is free and whose output range and cut are clear; none iff there is no such file or level 0 is taken |
| `PickerDemands.FindSpan` | rocksdb-5.18.3/db/compaction_picker.cc:46-61 | the longest run of newest free files over which the work per deleted file does not rise |
| `CompactionPickers.CompactionPicker.PickIntraL0Compaction` | rocksdb-5.18.3/db/compaction_picker.cc:1526-1540 | that run if it has at least four files, none otherwise or if level 0 has too few or its newest is marked |
| `CompactionPickers.CompactionPicker.GetOverlappingL0Files` | rocksdb-5.18.3/db/compaction_picker.cc:1043-1069 | exactly the files of level 0 the start pulls in, all unmarked; refused iff a file of the output level that meets them is marked |
| `CompactionPickers.CompactionPicker.TryListed` | rocksdb-5.18.3/db/compaction_picker.cc:1006-1022 | taken iff its cut is free, level 0 is not taken and, for expired files, it is not on the last level in use; the start is its cut |
| `CompactionPickers.CompactionPicker.PickListed` | rocksdb-5.18.3/db/compaction_picker.cc:1034-1040 | the first such file of the list, none iff there is none |
| `CompactionPickers.CompactionPicker.PickBySize` | rocksdb-5.18.3/db/compaction_picker.cc:1207-1252 | the first eligible file of the first level by score that has one, or the newest files of level 0; none iff all due levels have none |
| `CompactionPickers.CompactionPicker.PickFromLists` | rocksdb-5.18.3/db/compaction_picker.cc:1254-1294 | else the marked file tried first, or the first usable one of the marked, the bottommost, the expired files; none iff there is none |
| `CompactionPickers.CompactionPicker.SetupInitialFiles` | rocksdb-5.18.3/db/compaction_picker.cc:1206-1295 | what is picked is the first in that order that can be, with nothing before it eligible or usable, and it is ready; nothing is picked iff nothing can be |
| `CompactionPickers.CompactionPicker.PickFrom` | rocksdb-5.18.3/db/compaction_picker.cc:1297-1340 | from ready files, with all of level 0 that goes along, to a sound compaction with exactly the inputs that follow; refused iff a file that has to go along on the output level is marked or something that runs with that output level writes to the range of the inputs, and never within level 0; then nothing changes |
| `CompactionPickers.CompactionPicker.PickCompaction` | rocksdb-5.18.3/db/compaction_picker.cc:1342-1396 | the invariant is kept; a compaction of what is first in that order, sound, with exactly the inputs that follow from it; none iff nothing can be picked or what is picked is refused as above |
| `CompactionPickers.CompactionPicker.CompactFiles` | rocksdb-5.18.3/db/compaction_picker.cc:310-346 | refused iff the request is not accepted; the asserted absence of overlap fails iff something that runs meets the range of the completed files, which needs a named file below the output level; a formed compaction holds exactly the completed files; without assertions the invariant then breaks in exactly those cases |
| `FileRequests.HullInside` | rocksdb-5.18.3/db/compaction_picker.cc:279-297 | the range of all inputs is inside the checked one iff no file below the output level sticks out |
| `RequestSafety.RangeCheckExact` | rocksdb-5.18.3/db/compaction_picker.cc:315-319 | the assertion holds in every consistent state of the picker that accepts a request, with no running compaction finished, iff no two files outside the completion (or one, twice) have a joint range that meets the completion's but not the checked one |
| `RequestSafety.SafeHolds` | rocksdb-5.18.3/db/compaction_picker.cc:315-319 | under that condition the assertion holds |
| `RequestSafety.PairClashes` | rocksdb-5.18.3/db/compaction_picker.cc:315-319 | for two files against it there is a consistent state that accepts the request and fails the assertion |
| `RequestSafety.OneFileNotEnough` | rocksdb-5.18.3/db/compaction_picker.cc:315-319 | levels where no single other file meets the range of the request, but a compaction of two does |
| `RequestSafety.RangeCheckAnyState` | rocksdb-5.18.3/db/compaction_picker.cc:315-319 | in all consistent states, also with finished compactions still registered, it holds iff the range of the completion lies within the checked one |
| `RequestSafety.GoneClashes` | rocksdb-5.18.3/db/compaction_picker.cc:315-319 | for a key outside the checked range, a finished compaction of it that is still registered fails the assertion |
| `RequestSafety.DeeperFileEscapes` | rocksdb-5.18.3/db/compaction_picker.cc:796-905 | a request for which the check passes and the assertion fails |
| `Partitioner.FindMax` | cc/partitioner.cc:88-95 | the lowest list with the highest next count, among those with entries left |
| `Partitioner.MergeOne` | cc/partitioner.cc:96-126 | one more entry keeps the merge a stable descending merge of the lists' prefixes |
| `Partitioner.Repartition` | cc/partitioner.cc:75-127 | k entries of every list in its order, hottest first, lower instance first among equals; no list is read past its k-th entry; the table is that of the first 5000 places |
| `Partitioner.MergedIsPermutation` | cc/partitioner.cc:80-127 | the merged list is a permutation of all k-prefixes |
| `Partitioner.FirstPlaceCounts` | cc/partitioner.cc:118-124 | a key is assigned iff its first place is below 5000, to that place's instance |
| `Partitioner.HotterNotHigher` | cc/partitioner.cc:118-123 | a key listed strictly hotter, in any place, than another assigned one in its first place is assigned and never gets a higher instance number |
| `Partitioner.DistinctHotterNotHigher` | cc/partitioner.cc:118-123 | with distinct keys this holds of all places |

## Left out

- Merge operands, compaction filters, range tombstones, blob indexes, corrupt keys, the snapshot checker and the statistics of the compaction iterator.
- Shutdown in the middle of a compaction, file cutting, compression, dictionary sampling and all input and output.
- Weak memory ordering: both lock-free protocols are modelled under sequential consistency.
- Progress of the two lock-free protocols (that a waiting thread gets the mutex, or that Lookup finds an entry).
- SuperVersion: the contents (memtables, version) and write-stall bookkeeping; only one installer runs at a time, as the DB mutex ensures.
- CLOCK cache: pinned usage and forced erasing, which touch a handle after its reference is dropped, the destructor, and deleters.
- LRU cache: values, deleters and the mutex; each operation is one step, and entries are freed at the end of it. Destructors and DisownData.
- Clean cuts compare user keys, so the range-tombstone sentinel in sstableKeyCompare is not modelled.
- A bound on the bytes of a compaction: the limit only decides between branches, since the code measures before the last expansion.
- The universal-style branches of CompactRange.
- The order in which level-0 files are returned by GetOverlappingInputs, and the index hints, which only speed up searches.
- Universal and FIFO pickers, path choice, compression choice, compaction scores and write stalls.
- Partitioner: the remote calls, printing, and the second overload of repartition.
