# MemSync cache engine: a Dafny model

MemSync keeps a fixed-capacity key-value cache in POSIX shared memory. A region holds a header (capacity, entry count,
telemetry counters, a process-shared reader-writer lock) and an array of slots that form a hash table with linear probing
and tombstones. Entries have a timestamp and an optional TTL. Any number of processes create or attach the region by name
and put, get, update and delete under the lock. This project models that engine, and the map-based socket server of the
benchmark, and proves what they promise.

How the pieces fit together:

- `CStrings`, `Buffers`: the fixed character buffers of an entry. `strncpy` and `strcmp` are loops over arrays;
  `EntryCell` is an entry in memory and `EntryArray` the array of them, each write of which is one change of the slot table.
  `ByteProbes` runs the probe loops on these bytes.
- `Hash`, `Layout`, `Arithmetic`: the wrapping 32-bit hash, the 32-bit slot offsets.
- `Table`: the slot array as a value, its invariant, and searches defined without early exit.
- `CacheSpec`: what each locked section does to slots and counters, as functions.
- `Engine`: class `SharedCache`, which updates the array and the counters in place; each of its methods is proved to
  do what the function of `CacheSpec` says, and to give the lock back on every path.
- `TtlMap`, `Refinement`: the sequential TTL map callers are promised, and the proof that the locked sections implement it.
- `History`, `LiveView`: laws of every legal sequence of atomic actions on the TTL map.
- `Processes`, `RwLock`: a transition system of any number of processes with explicit program counters, lock and clock.
  A get probes one slot per step; an exclusive section is the function its `Engine` method is proved against. `LockSafety`,
  `RunSafety`, `Linearizability`, `Traces`, `Telemetry`, `RunLaws`, `CounterLaws`, `Liveness` are its theorems, and
  `Scenarios` builds runs of it.
- `Sections`, `FineRuns`: the exclusive sections, too, one slot at a time, with other processes and the clock going on in
  between, and the proof that callers cannot tell.
- `Lifecycle`, `LifecycleSafety`, `OpenCalls`: creating, publishing, attaching and unlinking, with failure possible at every
  system call; safety of every interleaving, and what one open does by itself in every state it may find.
- `Socket`: the benchmark's server, its framing, and its equivalence with the table.

A stored map holds every occupied slot, expired or not; the live view at a time is what has not expired then. `delete`
reports presence in the stored map, as the code does; every other answer depends on the live view alone.

Assumptions. The clock does not go back (in the process model it is part of every step; the single-call lemmas ask for it
only where they need it). `pthread_rwlock_*` admits many readers or one writer; a lock call may also fail, and then the
engine leaves slots and counters alone. Steps are sequentially consistent, with the magic word stored last and loaded
first. `shm_open` with `O_CREAT | O_EXCL` is atomic, and nobody unlinks the name but failing creators. `char` is signed.

Two statements of the repository's documentation do not hold of the code as they stand; the model follows the code.

- Its README (line 102) says the collision counter counts each extra slot inspected by cache operations. Two searches go
  uncounted: the second one of a get that saw its entry expired, and that of a get which is refused the lock it needs to be
  counted. `CounterLaws.CollisionsExactIff` says of whole runs exactly when the statement holds nevertheless: every purge
  finds, in the table it meets, that its search ends at the first slot, and every get refused its second lock has no
  collisions to report. `CounterLaws.ExpiredGetUndercountsExample` is an instance with nothing interleaved in which it fails,
  `CounterLaws.InterleavedGetUndercountsExample` one in which the expired entry was at its start slot, and
  `Scenarios.UndercountingRun` a run to such a state.
- The same line says every valid get is counted as one hit or miss. A get that is refused a lock is not, be it the shared
  lock it reads under or the exclusive one it is counted under. `CounterLaws.GetsCountedExactIff` says of whole runs that the
  statement holds if and only if no get was refused a lock; `CounterLaws.RefusedGetExample` is an instance.

`valid_capacity` alone does not make slot offsets sound in a region beyond 4 GiB: `Layout.LayoutSoundIffOffsetsFit` gives
the exact condition, `Layout.OversizedRegionExample` an instance. The region the engine creates has 4 MiB.

## Model

| member | source | states |
|---|---|---|
| `Linearizability.EveryRunIsLinearizable` | src/cache_engine.cpp:407-622 | in every state of every run, the log of atomic actions is a legal history of the TTL map that replays to the stored records, contains every answered call exactly once with its operation and answer (a call that could not lock: never) and no call that was not made, and orders non-overlapping calls as in real time |
| `Linearizability.CallInvStep` | src/cache_engine.cpp:470-550 | every step keeps the link between calls, program counters and log: a call takes effect between invocation and return, once, and what it will answer is what it took effect with |
| `FineRuns.FineRunRefines` | src/cache_engine.cpp:82-163 | for every run in which exclusive sections take one slot or one change per step, while others call, return, fail to lock and the clock goes on, there is a run with one step per section that shows callers the same calls and answers and ends in the same state but for a section under way |
| `FineRuns.FineRunsAreLinearizable` | src/cache_engine.cpp:407-622 | a legal history of the TTL map explains everything callers see of such a run, and it ends in the stored records whenever no section is under way |
| `FineRuns.TurnsAreEnabled` | src/cache_engine.cpp:407-622 | in every state of such a run a process in its exclusive section can take its next turn, within bounds |
| `Traces.RunTraceExplained` | src/cache_engine.cpp:407-622 | of calls and returns alone: the log holds every answered call exactly once with its answer, no call that failed to lock or was not made, and in order whenever one call returned before the other was made |
| `Sections.WriteTurnSound` | src/cache_engine.cpp:418-464 | every turn of a put, update or delete under the lock keeps to what the section has done so far, and the last turn completes exactly what the section as a whole is specified to do |
| `Sections.PurgeTurnSound` | src/cache_engine.cpp:530-543 | the same of the second phase of an expired get |
| `Table.SeekEnds` | src/cache_engine.cpp:97-115 | where the put search stops, with the first tombstone it has met, is the reference slot, and its collisions are those of the reference search |
| `Sections.SeekTurnSound` | src/cache_engine.cpp:97-115 | each turn of the put search, first tombstone included, keeps its invariant or settles on the reference slot and collisions |
| `FineRuns.SectionsEnd` | src/cache_engine.cpp:418-622 | in any run with sections slot by slot, the turns a process takes while it stays in one exclusive section, a purge included, and those left to it never exceed those left at first, at most 5 * capacity + 8 |
| `FineRuns.FineNeverStuck` | src/cache_engine.cpp:49-69 | in any state of such a run, as long as a call is under way some process can take its next step or turn without being refused a lock |
| `Sections.TurnsDecrease` | src/cache_engine.cpp:418-464 | a turn of a put, update or delete that does not end the section lowers the number of turns left |
| `Sections.PurgeTurnsDecrease` | src/cache_engine.cpp:530-543 | the same of the second phase of an expired get |
| `Sections.ChosenSound` | src/cache_engine.cpp:435-441 | a put whose eviction loop has ended has a victim and goes on: the exit for a table without one is never taken |
| `Liveness.NeverStuck` | src/cache_engine.cpp:49-69 | no deadlock: in every reachable state in which a call is under way, some process can go on with its call even if no lock call fails |
| `Liveness.CallsComplete` | src/cache_engine.cpp:407-622 | from any state of a run, while no new calls are made, at most as many steps (ticks aside) are taken as were left, whatever the lock calls answer, and none is left exactly when every call made has returned |
| `LiveView.LiveViewDecides` | src/cache_engine.cpp:253-257 | stores with the same live view allow the same gets, puts (eviction victim included) and updates, and any call leaves their live views equal |
| `LiveView.PurgesDoNotShow` | src/cache_engine.cpp:525-545 | dropping all purges by expired gets from a legal history changes no later live view |
| `TtlMap.CallOnLiveView` | src/cache_engine.cpp:454-587 | on the live view each call acts as on a plain TTL map: put and update write at their second clock reading, update keeps the TTL, delete and eviction remove, get changes nothing |
| `TtlMap.PutEvictsOnlyWhenFullOfLive` | src/cache_engine.cpp:425-447 | a put loses a live record of another key if and only if capacity live records of other keys exist; every other live record survives unchanged |
| `RunSafety.RunIsSafe` | src/cache_engine.cpp:71-163 | in every reachable state occupied keys are distinct, the entry count is the number of occupied slots, no empty slot breaks a probe path, the lock word counts its holders, no probing reader has been overtaken, and the log replays to the table |
| `RunSafety.SafeStep` | src/cache_engine.cpp:71-163 | each step of each process keeps that joint invariant |
| `RunSafety.InspectDecides` | src/cache_engine.cpp:488-523 | a slot-by-slot probe under the shared lock decides what a scan of the whole table at that instant would, at the cost of its search |
| `RunSafety.WriteEffectRefines` | src/cache_engine.cpp:421-622 | each exclusive section implements one allowed action of the TTL map and keeps the table invariant |
| `LockSafety.LockInvStep` | src/cache_engine.cpp:49-69 | the lock word equals the number of reading and writing program counters, with never a writer beside another holder |
| `LockSafety.WriterIsAlone` | src/cache_engine.cpp:57-63 | while one process is between a granted write lock and its unlock, no other holds the lock |
| `LockSafety.LockAdmits` | src/cache_engine.cpp:49-63 | a get may start reading exactly when nobody is writing, everything else may take the lock exactly when nobody holds it, and any lock call may fail |
| `LockSafety.LockDiscipline` | src/cache_engine.cpp:394-622 | slots are read only under the lock, cache and counters change only under the exclusive lock, each unlock releases the one hold its own process has, of the kind the lock word shows, and no call returns holding the lock |
| `RunLaws.PurgeSparesLiveRecords` | src/cache_engine.cpp:525-545 | in any interleaving the purge removes no record that is live when it runs, and the entry count drops by one exactly when it removes an expired one |
| `History.PurgedOncePerPut` | src/cache_engine.cpp:530-541 | between two purges of a key it has been put again, however many gets saw it expired |
| `RunLaws.EntryCountIsExact` | src/cache_engine.cpp:71-80 | the entry count is the number of stored records in every reachable state, so the guard against underflow never decides |
| `RunLaws.StoredLengths` | src/cache_engine.cpp:41-47 | in every reachable state stored keys have 1 to 63 characters and stored values at most 255 |
| `RunLaws.RunsStart` | src/cache_engine.cpp:217-238 | an empty cache of any capacity from 1 to 2^31, any time and any number of processes start a run |
| `RunLaws.CallsAccepted` | src/cache_engine.cpp:407-413 | an idle process can make a call exactly with a key of 1 to 63 characters and a value of at most 255 |
| `RunLaws.RunReadsSeeLastWrite` | src/cache_engine.cpp:253-257 | in any run, until the key is written, deleted or evicted again, a get returns exactly the last written value and timestamp before t + TTL (always for TTL 0) and misses from then on |
| `History.ReadsSeeLastWriteUntilExpiry` | src/cache_engine.cpp:253-257 | the same of every legal history; an update counts as a write and keeps the TTL of the record it renews |
| `History.EvictionTakesLeastRecentlyWritten` | src/cache_engine.cpp:118-136 | over any history, the evicted key's last put or successful update is no later than that of any key left |
| `History.TimestampIsLastWrite` | include/cache_engine.h:45 | a stored timestamp is the time of the key's last put or successful update; reads do not refresh it |
| `LiveView.MustEvict` | src/cache_engine.cpp:435-447 | a put has to evict exactly when the live view is full and lacks the key |
| `RunLaws.UsedSlotsOnlyGrow` | src/cache_engine.cpp:71-80 | over any run a slot that is not EMPTY never becomes EMPTY again |
| `RunLaws.FullScanIffSaturated` | src/cache_engine.cpp:148-163 | a search inspects the whole table if and only if its key is absent and no slot is EMPTY |
| `RunLaws.SaturatedReadsScanAll` | src/cache_engine.cpp:488-523 | once no slot is EMPTY, every later read of an absent key logs capacity - 1 collisions |
| `RunLaws.PutIntoFullTableCost` | src/cache_engine.cpp:421-447 | a put of a new key into a fully occupied table adds 2 * (capacity - 1) collisions if something has expired and 3 * (capacity - 1) if it must evict |
| `RunLaws.PutCollisions` | src/cache_engine.cpp:418-447 | a put adds one search to the collisions if there is room for its key, and two or three searches of the whole table if it is full of other keys, according to expiry |
| `Table.CollisionsMeasureTheWay` | src/cache_engine.cpp:97-115 | a search counts the distance from its start to its key, or for an absent key to the nearest EMPTY slot |
| `RunLaws.SaturatedWritesScanAll` | src/cache_engine.cpp:562-620 | from then on every update or delete of an absent key adds capacity - 1 to the collision counter |
| `RunLaws.FullTablePutsCost` | src/cache_engine.cpp:418-447 | in any run a put of a new key that meets a fully occupied table adds 2 * (capacity - 1) to the collision counter if something has expired, 3 * (capacity - 1) if it must evict |
| `RunLaws.RunExplainedWithoutPurges` | src/cache_engine.cpp:525-545 | in any run every get, put and update answers (and evicts) as the history without any purge allows |
| `LiveView.ExplainedWithoutPurges` | src/cache_engine.cpp:525-545 | the same of every legal history: only deletes can tell whether expired records have been purged |
| `RunLaws.RunDeleteOfLiveSucceeds` | src/cache_engine.cpp:602-621 | in any run a delete of a key that is live in the history without any purge reports that it was there |
| `LiveView.DeleteOfLiveSucceeds` | src/cache_engine.cpp:602-621 | the same of every legal history |
| `CounterLaws.CollisionsExactIff` | README.md:102 | in any run, while no get is under way, the collision counter equals all extra slots inspected so far if and only if every purge met a table in which its search ended at its first slot and no get with collisions to report was refused its second lock |
| `CounterLaws.RunAccountsForCollisions` | src/cache_engine.cpp:165-181 | in every reachable state the extra slots inspected so far are those counted, those of purge searches and refused gets, and those that gets under way have yet to report |
| `CounterLaws.NoCollisionsIff` | src/cache_engine.cpp:148-163 | a search has no collisions if and only if there is one slot or the first slot inspected is EMPTY or holds the key |
| `CounterLaws.PurgeDropsItsSearch` | src/cache_engine.cpp:530-543 | a purge adds what its get read, and what its own search inspects is lost: nothing if and only if that search ends at its first slot in the table the purge meets |
| `CounterLaws.RefusedGetDropsItsSearch` | src/cache_engine.cpp:526-529 | a get refused its second lock loses what its read inspected: nothing if and only if that search ended at its first slot in the table it read |
| `CounterLaws.GetCountsAllIff` | src/cache_engine.cpp:470-550 | a get with nothing interleaved counts all it inspects if and only if it could not read, or was granted both locks without seeing its entry expired, or its search ends at the first slot |
| `CounterLaws.ExpiredGetCountsAllIffAtStart` | src/cache_engine.cpp:525-545 | with nothing interleaved, an expired get counts all extra slots it inspects if and only if its entry is in the slot the search starts from |
| `CounterLaws.ExpiredGetUndercountsExample` | src/cache_engine.cpp:530-543 | after two puts into an empty two-slot cache, an expired get inspects two extra slots and counts one |
| `CounterLaws.InterleavedGetUndercountsExample` | src/cache_engine.cpp:530-543 | after the same puts in the other order the expired entry is at its start slot, and a delete between the two phases makes the purge inspect a slot that is not counted |
| `Scenarios.UndercountingRun` | src/cache_engine.cpp:530-543 | a run of two puts, a tick of the clock and one expired get that ends, with all calls returned, in a state whose collision counter is less than the extra slots inspected |
| `Scenarios.GetRunAlone` | src/cache_engine.cpp:470-550 | from any reachable state with the lock free and for any outcome of its two lock calls, a get with nothing interleaved is a continuation of the run that answers from the live view, counts one hit or miss if both locks are granted, ends in what the get as a whole is specified to do, and loses collisions if it searches uncounted beyond the first slot |
| `Scenarios.WriteAlone` | src/cache_engine.cpp:407-622 | from any reachable state with the lock free, a put, update or delete with nothing interleaved is a continuation of the run that answers and changes the cache as its section does, or, refused the lock, answers false and changes nothing |
| `CounterLaws.GetsCountedExactIff` | README.md:102 | in any run in which all gets made so far have returned, hits plus misses equals the number of gets if and only if no get was refused a lock |
| `CounterLaws.RunAccountsForGets` | src/cache_engine.cpp:470-550 | in every reachable state every get ever made has been counted once, has been refused a lock, or is under way |
| `CounterLaws.GetCountedIffGranted` | src/cache_engine.cpp:480-550 | a get with nothing interleaved adds one to hits plus misses if and only if both its locks are granted, else nothing |
| `CounterLaws.GetMovesItsCounter` | src/cache_engine.cpp:165-181 | a get with nothing interleaved and both locks granted counts one hit if the key is live when it reads and one miss otherwise, with fewer locks neither; it brings back the live record's value and timestamp |
| `CounterLaws.RefusedGetExample` | src/cache_engine.cpp:481-483 | a run in which a get is refused its first lock and returns, and no counter has moved |
| `Telemetry.RunKeepsCounters` | src/cache_engine.cpp:165-181 | in every reachable state, hits, misses and collisions in the header, plus those of gets still to be counted, plus those whose lock call failed, equal those of all finished reads (and all searches of writes) |
| `Telemetry.LoggedReadCost` | src/cache_engine.cpp:485-491 | a read is charged the slots it inspected less one |
| `Telemetry.WriteEffectCounts` | src/cache_engine.cpp:421-442 | a put, update or delete adds exactly the cost of its searches to the collisions and leaves hits and misses alone |
| `Table.EarlyExitAgreesWithScan` | src/cache_engine.cpp:148-163 | in a sound table, where an early-exit search stops decides what a scan of the whole table for the key finds |
| `Table.EarlyExitFindsSlot` | src/cache_engine.cpp:82-116 | the slot a put's search ends up with, tombstone reuse included, is the key's slot if stored, else the first reusable slot in probe order, else none |
| `Table.SlotForFailsIffFull` | src/cache_engine.cpp:115 | the search answers -1 if and only if every slot is occupied by another key |
| `Table.SlotForIsFirstReusable` | src/cache_engine.cpp:102-107 | for an absent key no reusable slot precedes the chosen one in probe order |
| `Table.ProbeIsBijection` | src/cache_engine.cpp:99 | (start + i) % capacity in 32-bit arithmetic visits every slot exactly once |
| `Table.StorePreserves` | src/cache_engine.cpp:449-460 | storing a key in the slot its search chose, reused tombstone or not, keeps the table invariant |
| `Table.TombstonePreserves` | src/cache_engine.cpp:71-80 | removing an entry keeps the table invariant |
| `Table.VictimBelow` | src/cache_engine.cpp:118-131 | the running choice of the eviction loop is the (timestamp, index)-minimum of the occupied slots seen, and exists if any is occupied |
| `Refinement.PutEvictsMinimum` | src/cache_engine.cpp:118-136 | the entry a put evicts is the (timestamp, index)-minimum over the whole, fully occupied table |
| `Refinement.PutStores` | src/cache_engine.cpp:421-464 | a put always succeeds; afterwards the stored map is what there was room beside, with the key's new record |
| `Refinement.PutVictimRule` | src/cache_engine.cpp:425-441 | a put evicts, and then the oldest write, if and only if it finds neither a slot nor an expired record |
| `Refinement.PutRefines` | src/cache_engine.cpp:407-464 | the whole put is one allowed action of the TTL map, with its collisions |
| `Refinement.UpdateEffect` | src/cache_engine.cpp:562-590 | an update succeeds exactly for a live key, renewing value and timestamp and keeping the TTL; it removes an expired record |
| `Refinement.DeleteRemovesKey` | src/cache_engine.cpp:602-621 | a delete reports presence in the stored map, expired or not, and removes the key |
| `Refinement.ReadRefines` | src/cache_engine.cpp:484-523 | the read phase answers as the live view at its clock reading, and sees an expired entry exactly when one is stored |
| `Refinement.PurgeRefines` | src/cache_engine.cpp:530-543 | the second phase removes the key's record exactly if it has expired by then, counting one miss |
| `Refinement.RemoveRefines` | src/cache_engine.cpp:71-80 | removing an entry removes its key's record; the count is positive then, drops by one and stays exact |
| `Refinement.ReclaimRefines` | src/cache_engine.cpp:138-146 | reclaiming leaves exactly the live view and an exact entry count |
| `Refinement.CountIsViewSize` | include/cache_engine.h:28 | the number of occupied slots is the number of stored keys |
| `Engine.SharedCache.InitializeRegion` | src/cache_engine.cpp:217-238 | initialization succeeds exactly when the capacity is positive, the header and that many entries fit, and the lock can be initialized; whenever the slot offsets are then sound, as they are up to 4 GiB, that yields an empty, valid cache |
| `Engine.SharedCache.FindSlotInternal` | src/cache_engine.cpp:82-116 | the probe loop returns the slot and collision count of the reference search |
| `Engine.SharedCache.FindKeyLocked` | src/cache_engine.cpp:148-163 | the probe loop finds what a full scan finds, inspecting as many extra slots as a counted search would |
| `Engine.SharedCache.EvictOldestWrite` | src/cache_engine.cpp:118-136 | the loop removes the (timestamp, index)-minimum, or reports that nothing is occupied, also when all timestamps are UINT64_MAX |
| `Engine.SharedCache.ReclaimExpired` | src/cache_engine.cpp:138-146 | the loop turns exactly the expired entries into tombstones and counts each off |
| `Engine.SharedCache.FindSlot` | src/cache_engine.cpp:394-405 | the public search answers, for a key of 1 to 63 characters, under the shared lock, beside other readers, and gives it back |
| `Engine.SharedCache.PutTtl` | src/cache_engine.cpp:407-464 | the put succeeds exactly for valid arguments and a granted lock, changes the stored map as promised, and otherwise changes nothing |
| `Engine.SharedCache.Put` | src/cache_engine.cpp:466-468 | a put without a TTL |
| `Engine.SharedCache.ReadPhase` | src/cache_engine.cpp:481-524 | the read phase of get runs beside other readers, decides as the full scan does, and leaves the lock as it found it |
| `Engine.SharedCache.ReadWhileLocked` | src/cache_engine.cpp:484-523 | the shared-lock loop of get decides as the full scan does and counts its collisions |
| `Engine.SharedCache.Get` | src/cache_engine.cpp:470-550 | get hits exactly on what is live at its first clock reading, counts a hit or a miss accordingly if both its locks are granted, and purges as specified, whichever lock calls succeed |
| `Engine.SharedCache.PurgeExpired` | src/cache_engine.cpp:530-543 | the exclusive second phase of an expired get, recheck included |
| `Engine.SharedCache.AddGetMetrics` | src/cache_engine.cpp:165-181 | counts one hit or miss with its collisions, or nothing if the lock is refused |
| `Engine.SharedCache.Update` | src/cache_engine.cpp:552-591 | update succeeds exactly for a live key and changes the cache as specified; refused or invalid calls change nothing |
| `Engine.SharedCache.Delete` | src/cache_engine.cpp:593-622 | delete reports stored presence and removes the key; refused or invalid calls change nothing |
| `Engine.SharedCache.RemoveEntry` | src/cache_engine.cpp:71-80 | leaves a cleared tombstone and counts the entry off |
| `LifecycleSafety.OneCacheOneCreator` | src/cache_engine.cpp:263-356 | at most one object is ever ready, all successful opens map it, at most one reports having created it, and if any open succeeded its creator has reported or is about to |
| `LifecycleSafety.OnlyOwnObjectUnlinked` | src/cache_engine.cpp:17-21 | whenever the name is unlinked, a failing creator unlinks its own object, which is not ready |
| `LifecycleSafety.LockUsedOnlyWhenInitialized` | src/cache_engine.cpp:183-196 | whoever has seen the magic word finds version, capacity, offset and size accepted and the lock initialized |
| `LifecycleSafety.AttachingChangesNothing` | src/cache_engine.cpp:263-356 | a ready object keeps its name, header, slots and counters, except for operations of processes that have it mapped |
| `LifecycleSafety.AbandonedNeverAttached` | src/cache_engine.cpp:294-342 | an object whose creation failed is never attached, then or later |
| `LifecycleSafety.FailedCreatorUnlinks` | src/cache_engine.cpp:294-343 | over any run, a process that was creating an object and is done with it without having reported success has tried to unlink that object's name in between, and if that worked the name was free |
| `LifecycleSafety.UnlinkingMeansFailure` | src/cache_engine.cpp:294-343 | nobody unlinks unless one of its own calls failed while creating that object, or the layout is impossible |
| `LifecycleSafety.ReadyObjectIsAccepted` | src/cache_engine.cpp:301-350 | an attacher whose calls succeed is never turned away from a ready object |
| `OpenCalls.SuccessWasAskedFor` | src/cache_engine.cpp:279-295 | in any run an object appears, and an open reports success, only in an open all of whose system calls succeeded, and an object appears or is reported created only in an open with create_if_missing |
| `OpenCalls.OpenHasBegun` | src/cache_engine.cpp:263-356 | in any run every open under way has begun, has had no failed system call since, and creates only if it was asked to |
| `OpenCalls.MissingNameIsNotCreated` | src/cache_engine.cpp:279-295 | an attach-only open of a missing name fails and leaves names, objects and reports as they were |
| `OpenCalls.MissingNameIsCreatedIffItFits` | src/cache_engine.cpp:280-355 | with its system calls succeeding and nobody else moving, an open that may create a missing name ends mapped to a ready region of 4 MiB with 1000 EMPTY slots and reports having created it, if that many entries fit, and otherwise unlinks it and reports nothing |
| `OpenCalls.ExistingNameAttachesIff` | src/cache_engine.cpp:301-356 | with its system calls succeeding and nobody else moving, an open of an existing name attaches, whether it may create or not, if and only if size, magic word, version, offset and capacity are right and the count does not exceed the capacity, and changes nothing about the object |
| `OpenCalls.CreatedIsAttached` | src/cache_engine.cpp:263-370 | what a creator has made anybody can attach to, and so can the creator after closing it |
| `OpenCalls.MappedIsShared` | src/cache_engine.cpp:320-327 | what one process does to a mapped cache, all see who have mapped that object |
| `LifecycleSafety.LifecycleStep` | src/cache_engine.cpp:217-251 | every step of every creator, attacher and user keeps the lifecycle invariant |
| `Layout.ValidCapacityIffFits` | src/cache_engine.cpp:35-39 | a capacity is valid if and only if it is positive and the header and that many entries fit in the region |
| `Layout.DefaultRegionFits` | include/cache_engine.h:15-16 | 4 MiB hold 1000 entries, apart from each other, exactly for structure sizes with header + 1000 * entry <= 4194304, those of a 64-bit platform among them |
| `Layout.LayoutSoundIffOffsetsFit` | src/cache_engine.cpp:35-39 | given a valid capacity, all slots lie in the region, behind the header and apart if and only if the last offset fits in 32 bits; always so up to 4 GiB, and then indices fit int32_t |
| `Layout.OversizedRegionExample` | src/cache_engine.cpp:383-392 | an 8 GiB region with a valid capacity whose slots overlap |
| `Hash.HashKey` | src/cache_engine.cpp:374-381 | the wrapping loop computes (5381 * 33^n + sum of c_i * 33^(n-1-i)) mod 2^32, mod capacity, over signed characters |
| `Hash.HornerIsPolynomial` | src/cache_engine.cpp:377-379 | the loop's recurrence is that polynomial |
| `Hash.HashInstances` | src/cache_engine.cpp:374-381 | the hashes of "a" and of a two-character key with the high bits set, modulo 1000 |
| `Hash.ShiftAddIs33` | src/cache_engine.cpp:378 | shift and add, wrapping at each operation, is multiplication by 33 under wrap-around |
| `CStrings.ArgumentLengths` | src/cache_engine.cpp:41-47 | valid keys have 1 to 63 characters, valid values at most 255 |
| `Buffers.Strncpy` | src/cache_engine.cpp:455-458 | the copied characters, cut off or padded with NULs, and nothing beyond |
| `Buffers.CopyFits` | src/cache_engine.cpp:455-458 | a terminated copy holds the string if and only if it fits |
| `Buffers.SameString` | src/cache_engine.cpp:110 | strcmp on terminated buffers decides equality of the strings |
| `Buffers.EntryCell.Store` | src/cache_engine.cpp:454-460 | whatever the slot held, it then stands for exactly the entry put |
| `Buffers.EntryCell.Remove` | src/cache_engine.cpp:71-76 | clearing the first character of each buffer yields the tombstone |
| `Buffers.EntryCell.Rewrite` | src/cache_engine.cpp:581-583 | an update replaces value and timestamp and keeps key and TTL |
| `Buffers.EntryCell.Matches` | src/cache_engine.cpp:501-502 | the test of the probe loops decides whether the slot holds the key |
| `Buffers.EntryCell.ReadValue` | src/cache_engine.cpp:509-516 | the copy through the local buffer gives the caller the stored value |
| `Buffers.PutThenGet` | src/cache_engine.cpp:454-519 | the whole chain returns the value put, regardless of earlier contents |
| `Buffers.EntryArray.constructor` | src/cache_engine.cpp:222 | cleared memory stands for a table of EMPTY slots, entries apart from each other |
| `Buffers.EntryArray.MatchesAt` | src/cache_engine.cpp:109-110 | the test of the probe loops on bytes is the one on the slot table |
| `Buffers.EntryArray.StoreAt` | src/cache_engine.cpp:449-460 | writing one entry's bytes is one store in the slot table |
| `Buffers.EntryArray.RemoveAt` | src/cache_engine.cpp:71-76 | clearing one entry's bytes is one tombstone in the slot table |
| `Buffers.EntryArray.RewriteAt` | src/cache_engine.cpp:581-583 | updating one entry's bytes is one change of the slot table |
| `Buffers.EntryArray.ReadAt` | src/cache_engine.cpp:509-519 | copying out the bytes of an entry gives the value of the slot and changes no slot |
| `ByteProbes.HashBytes` | src/cache_engine.cpp:374-381 | the hash of a key buffer, up to its terminator, is that of its string |
| `ByteProbes.FindSlotInternal` | src/cache_engine.cpp:82-116 | the put search on bytes, with strcmp on each entry, returns the reference slot and collisions of the table the bytes stand for |
| `ByteProbes.FindKey` | src/cache_engine.cpp:148-163 | the search for a stored key on bytes finds what a scan of that table finds, at the cost of its search |
| `ByteProbes.Read` | src/cache_engine.cpp:484-523 | the read phase of get on bytes decides as the table's read does, copies out the value on a hit, and leaves the caller's buffer alone otherwise |
| `ByteProbes.Write` | src/cache_engine.cpp:449-460 | a put that finds room, search and copying on bytes, is one store in the slot the reference search chooses |
| `ByteProbes.PutThenRead` | src/cache_engine.cpp:407-550 | through search, copying in, search and copying out, any buffer that spells the key brings back the value put until its time to live is over, and finds it expired from then on |
| `Socket.CachesAgree` | bench/benchmark_socket.cpp:78-116 | for every sequence of valid get, put and update requests that has put at most capacity keys, table and server answer each request with the same status and value, whatever the clock |
| `Socket.CachesStaySame` | bench/benchmark_socket.cpp:88-106 | and keep the same values, no put ever evicting |
| `Socket.SocketServer.Answer` | bench/benchmark_socket.cpp:87-109 | one request on the server's map: status, value and the map afterwards |
| `Socket.ReceiveAll` | bench/benchmark_socket.cpp:18-34 | the read loop succeeds exactly if enough bytes move before a call fails or finds the end, and then the buffer holds the next bytes of the stream, however they are chunked |
| `Socket.DeliversIffEnoughMoves` | bench/benchmark_socket.cpp:21-33 | a transfer over interrupted, short and failing calls succeeds if and only if the bytes moved before the first failure suffice |

## Left out

- Null pointers passed to the engine: they take the exit of an invalid argument, before anything is touched.
- Wrap-around of the 64-bit counters and the clock: naturals; 32-bit arithmetic of hash, probe index and offsets is modelled.
- Composition of `Engine` with `Buffers`: the engine's array holds entry values. On bytes, `ByteProbes` has the searches, the read phase and a put that finds room; reclaiming, eviction and the header counters are on values, with each write and key test on bytes shown to be the one on values.
- Engine.SharedCache.InitializeRegion: where an accepted layout has offsets that wrap, it reports success and there is no cache object, since slots overlap (see the layout rows); the version, data offset and magic stores are modelled in `Lifecycle`.
- Engine.SharedCache.Get: its two phases with nothing in between; what can come between is modelled in `Processes`.
- FineRuns: a turn of a section inspects one slot or makes one change of a slot and the header; the bytes of an entry and the counters of a counted get are not interleaved further.
- Lifecycle: an operation on a mapped cache is any change that keeps the cache invariant, which `RunSafety` proves of the engine's operations.
- Fairness: that a given process gets the lock at last; `Liveness` shows that some process can always go on, and that calls end when no new ones are made.
- Death of a process holding the lock, unlinking by an operator, weak memory beyond the published magic word.
- Telemetry and error output, the command-line programs, the Streamlit screens, the benchmark's timing and reports, the legacy semaphore prototype.
- In the socket server: connections, threads, shutdown and the sending side of the framing, which is the same loop.
