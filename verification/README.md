# Verified model of the Soroban explorer indexer

This project models the hard parts of the Soroban indexer service (`indexer/src`) and of two related parts of its
API server (`src`) in Dafny, and proves what they keep, promise or lose. `dafny verify dfyconfig.toml` checks all of it.

Code that changes things step by step is a class or a method with loops, tied by its contract to a function of the
old state; protocols with several participants are state machines whose runs are all interleavings of the pieces between
two awaits, as far as "Left out" does not say otherwise. Where a natural claim is false of the code, the code is kept, a run that breaks the claim is given, and the
exact condition under which the claim holds is proved.

| file | what it models |
|---|---|
| `Lru.dfy`, `TwoTierCache.dfy` | the LRU map of each instance, the shared Redis tier, eviction messages between instances |
| `MirrorCache.dfy` | the process-local store of the API server and the expiry it copies from Redis |
| `Ledger.dfy`, `IndexLoop.dfy`, `Reorg.dfy`, `CatchUp.dfy` | the events table, the daemon's loop, re-org rollback, parallel back-fill |
| `LeaderElection.dfy`, `EventBus.dfy` | the lease over one Redis key, idempotent consumption beside replays |
| `Leb128.dfy`, `WasmSections.dfy`, `Producers.dfy` | WASM section parsing (WebAssembly Core Specification 1.0, sections 5.2.2, 5.5.2, 5.5.3) |
| `ScVal.dfy`, `TypedValues.dfy` | decoding of contract values, generic and directed by types |
| `FormatAmount.dfy`, `Csv.dfy`, `AuthTree.dfy` | printers and their inverses (CSV: section 2 of RFC 4180) |
| `StateDiff.dfy` | before/after diffs of contract storage |
| `Keyset.dfy`, `TokenLedger.dfy` | keyset pagination, token balances |
| `DeadLetter.dfy`, `MultiNode.dfy`, `ProviderPool.dfy` | retry with backoff, failover between RPC nodes |
| `Multisig.dfy` | the multi-signature sign-in flow |
| `Bits.dfy`, `Decimal.dfy`, `Division.dfy`, `Sets.dfy`, `Options.dfy` | JavaScript bit operations, decimal text, division, set sizes, optional values |

Redis and Postgres appear as what one command does: a key with an expiry time, a set, a list, a table. Clock readings,
random draws, responses of RPC nodes, failures of Redis and of the database, and signature checks are inputs, so every
theorem holds for all of them.

## Where the code and its documentation part

- `indexer/src/db.js:89-96` inserts events with `ON CONFLICT DO NOTHING`, which `indexer/src/catchup.js:76` counts on against
  duplicates; `indexer/migrations/002_core_schema.sql:3-27` gives `events` no unique key but its generated `seq`, so no
  conflict ever arises and a redone ledger is stored twice (`IndexLoop.RedonePassDuplicatesRows`). Both kinds of table are modelled.
- The cursor in `daemon_state` is written (`indexer/src/db.js:24-30`) but no restart reads it; a restart continues behind
  the highest stored ledger, which loses the rest of a ledger that was only partly inserted
  (`IndexLoop.CrashInsideLedgerLosesEvents`). On an empty table a restart without START_LEDGER begins 100 ledgers behind
  the tip, so that "no events are missed after a restart" (`indexer/src/index.js:235-236`) fails there as well
  (`IndexLoop.RestartOnEmptyTableLosesEvents`, `IndexLoop.FixedStartMissesNothing`).
- `indexer/src/reorgWorker.js:1-9` speaks of a rewind to the fork height. One turn goes back to the newest orphaned recorded
  ledger only, and orphaned events below the lowest recorded orphan stay (`Reorg.OneTurnReachesForkIff`, `Reorg.OrphansGoneIff`).
- `cacheInvalidate("*")` and patterns with a star inside, or with `?`, `[` or a backslash, evict other keys from L1 than
  from Redis (`Lru.PatternAgreesWithRedis`), and an instance that caches a key again during its own purge keeps the old value
  (`TwoTierCache.OriginRefillsDuringPurge`).
- `src/cache.ts:155-161` mirrors the Redis lifetime to keep stale data from living forever; a key that expires between
  the two reads, or is in its last millisecond, leaves a local copy without any expiry (`MirrorCache.MirroredExpiryIff`).
- `src/api/authMultisig.ts` hands out `expiresAt` but never looks at it (`Multisig.CompletableAfterExpiresAt`), and keeps
  its flows in `src/cache.ts`, where a process answers from its own copy though another has changed the flow: a completed
  flow can be completed again, even one request after the other (`Multisig.OldLocalCopyWins`).
- `indexer/src/leaderElection.js:93-98` clears the leader flag only when the answer to its DEL arrives, and a successor may
  have acquired the lease by then (`LeaderElection.ReleaseLeavesTwoFlags`).
- `indexer/src/kafkaEventBus.js:80-87` promises that each message id is handled exactly once; ids repeat between
  processes with one process id, and then the later message is dropped (`EventBus.RepeatedIdIsLost`).

## Model

| member | source | states |
|---|---|---|
| Lru.LRUCache.constructor | indexer/src/cacheLayer.js:43-47 | an empty cache of the given capacity |
| Lru.LRUCache.Get | indexer/src/cacheLayer.js:49-60 | answers an unexpired entry and moves it to the recent end; an expired one is removed and missed |
| Lru.LRUCache.Set | indexer/src/cacheLayer.js:62-69 | the key ends up most recent with the new expiry, and the oldest other key goes when the cache is full |
| Lru.LRUCache.Delete | indexer/src/cacheLayer.js:71-73 | removes the key and keeps the order of the rest |
| Lru.LRUCache.DeletePattern | indexer/src/cacheLayer.js:75-82 | deleting while walking the keys removes exactly the matching ones |
| Lru.AfterKeepsWellFormed | indexer/src/cacheLayer.js:49-82 | keys stay distinct and the size within the capacity |
| Lru.IncludedStep | indexer/src/cacheLayer.js:49-82 | one operation on two caches of capacities k <= K keeps the smaller included in the larger |
| Lru.RunIncluded | indexer/src/cacheLayer.js:42-82 | over every run the k-cache is a subsequence of the K-cache, with equal values, expiries and recency order, and at most K - k entries fewer |
| Lru.LargerCapacityKeepsHits | indexer/src/cacheLayer.js:42-82 | raising the capacity never loses a hit |
| Lru.RunByUse | indexer/src/cacheLayer.js:42-82 | in every run the slots stand in the order of the last call that read or wrote their key |
| Lru.SetEvictsLeastRecent | indexer/src/cacheLayer.js:62-69 | a new key costs nothing while there is room, and else exactly the key whose last use lies furthest back |
| Lru.GetNeverExtends | indexer/src/cacheLayer.js:49-60 | a recency bump changes no entry and no expiry |
| Lru.PatternAgreesWithRedis | indexer/src/cacheLayer.js:75-82 | L1 evicts the keys that a Redis glob (with `*`, `?`, bracket classes and escapes) matches, for all keys, if and only if the pattern is a non-empty prefix without special characters and one star |
| TwoTierCache.CacheNode.constructor | indexer/src/cacheLayer.js:100-105 | an instance with an empty L1, with or without Redis |
| TwoTierCache.CacheNode.CacheGet | indexer/src/cacheLayer.js:222-276 | L1 first, then Redis with a refill of L1 under the TTL of the stored type |
| TwoTierCache.CacheNode.CacheSet | indexer/src/cacheLayer.js:285-312 | writes each tier for which the TTL is positive |
| TwoTierCache.CacheNode.CacheInvalidate | indexer/src/cacheLayer.js:326-376 | drops the key or pattern from L1 and Redis and announces it |
| TwoTierCache.CacheNode.OnMessage | indexer/src/cacheLayer.js:148-171 | evicts what another instance announced and ignores its own messages |
| TwoTierCache.UninterruptedGet | indexer/src/cacheLayer.js:222-263 | a `cacheGet` without interruption is the read, begin-fill and end-fill steps of the protocol in a row |
| TwoTierCache.UninterruptedPurge | indexer/src/cacheLayer.js:326-376 | a `cacheInvalidate` of a key without interruption is its begin, drop and announcement in a row |
| TwoTierCache.UninterruptedSweep | indexer/src/cacheLayer.js:326-376 | a `cacheInvalidate` of a pattern without interruption is its begin, one round over all matching keys and its announcement in a row |
| TwoTierCache.ProvenanceKept | indexer/src/cacheLayer.js:148-171 | every step keeps: each cached value goes back to a write of its key and no copy outlives its bound |
| TwoTierCache.RunProvenance | indexer/src/cacheLayer.js:222-312 | the same over every run |
| TwoTierCache.ServedValuesAreRecent | indexer/src/cacheLayer.js:222-312 | a served value was written under that key at most n + 30 s ago if it was set with n seconds, and at most its type's own L2 plus L1 TTL ago (35 s, 70 s, 330 s, 960 s, 10 s, 360 s, else 90 s) if it was set with a type, plus the two waits for Redis |
| TwoTierCache.BoundIsMet | indexer/src/cacheLayer.js:240-291 | for every n a run in which a value set with n seconds is served n + 30 s later |
| TwoTierCache.LifetimeOfSet | indexer/src/cacheLayer.js:22-35 | how long exactly the setting instance gets its value back, for seconds and for every type |
| TwoTierCache.LifetimeOfRefill | indexer/src/cacheLayer.js:240-263 | how long exactly an instance keeps what it read from Redis: 30 s for a value set with seconds, else by its type; a "search" result not at all |
| TwoTierCache.InvalidateMeaning | indexer/src/cacheLayer.js:326-376 | an invalidation by a prefix and a star makes exactly the keys with that prefix miss, another one exactly its key |
| TwoTierCache.CoherentKept | indexer/src/cacheLayer.js:148-171 | every orderly step keeps the invalidation invariant of a key, whether keys or patterns are invalidated |
| TwoTierCache.RunCoherent | indexer/src/cacheLayer.js:326-376 | the same over every run with orderly invalidations, SCAN rounds interleaved with everything else |
| TwoTierCache.OutdatedOnlyWhilePending | indexer/src/cacheLayer.js:326-376 | only an instance that still has the eviction coming to it serves a value older than the invalidation |
| TwoTierCache.PurgeSafeIffOrderly | indexer/src/cacheLayer.js:326-376 | dropping the key from Redis keeps the invariant if and only if no call is filling or storing the key and the origin has not cached it again, unless another eviction is coming to it |
| TwoTierCache.SweepSafeIff | indexer/src/cacheLayer.js:337-350 | dropping a key in a SCAN round keeps the invariant if and only if the state is clear in that sense and L1 matches the key as well, or every instance that holds it has another eviction coming to it |
| TwoTierCache.PrefixSweepIsOrderlyIff | indexer/src/cacheLayer.js:326-350 | for a prefix followed by one star a clear state is all that is needed |
| TwoTierCache.OriginRefillsDuringPurge | indexer/src/cacheLayer.js:326-376 | a run from the start that ends at rest with the purging instance holding the outdated value |
| TwoTierCache.SlowFillOutlivesPurge | indexer/src/cacheLayer.js:240-263 | a run from the start in which a slow refill puts the outdated value back after the eviction |
| TwoTierCache.RejectedCallIsOver | indexer/src/cacheLayer.js:303-311 | a call that Redis rejects changes nothing further |
| TwoTierCache.GetAfterSet | indexer/src/cacheLayer.js:285-312 | when exactly what was set is got back: until both TTLs have run out for a type kept in L1; for another one just when L1 holds that value already, or nothing while Redis lasts |
| TwoTierCache.SetWithoutL1LeavesOldCopy | indexer/src/cacheLayer.js:285-312 | in every state, a set of type "search" (L1 TTL 0) does not replace an unexpired L1 copy cached under "default" |
| TwoTierCache.GetAfterInvalidate | indexer/src/cacheLayer.js:326-376 | after an uninterrupted invalidation the key misses both tiers |
| MirrorCache.MemoryStore.constructor | src/cache.ts:8-9 | a capacity of at least 1 |
| MirrorCache.MemoryStore.LruSet | src/cache.ts:31-44 | re-inserts a known key, else evicts the oldest one when full and counts it |
| MirrorCache.MemoryStore.LruGet | src/cache.ts:46-54 | moves a found entry to the recent end, expired or not |
| MirrorCache.MemoryStore.LocalGet | src/cache.ts:133-147 | an expired entry is deleted and missed |
| MirrorCache.StepRefines | src/cache.ts:31-54 | each operation does to the images of the entries what the indexer's LRU cache does |
| MirrorCache.RunRefines | src/cache.ts:31-54 | the same over every run from the empty store |
| MirrorCache.LargerStoreKeepsHits | src/cache.ts:8-9 | raising `CACHE_MAX_SIZE` never loses a local hit |
| MirrorCache.EntriesAccountedFor | src/cache.ts:23-44 | every entry ever inserted is held, was evicted and counted, or was dropped; none is evicted while there is room |
| MirrorCache.MirroredExpiryIff | src/cache.ts:153-164 | the local copy expires with the Redis key, up to the delay between asking and copying, if and only if a millisecond was left; otherwise it never expires |
| MirrorCache.OverwrittenBetweenReads | src/cache.ts:153-164 | a key overwritten between the two reads lends its lifetime to the old value, which outlives its own if and only if the new one lasts longer |
| Ledger.InsertAllMeaning | indexer/src/db.js:89-96 | a batch leaves each event once under a unique key, and one row more per event without one |
| IndexLoop.Daemon.constructor | indexer/src/index.js:237-239 | a start continues behind the highest stored ledger, or on an empty table at START_LEDGER, or without that 100 ledgers behind the latest, whatever cursor was saved |
| IndexLoop.Daemon.IndexLedger | indexer/src/index.js:90-209 | page by page, all events from the ledger on are inserted, or exactly those before the failure |
| IndexLoop.Daemon.Turn | indexer/src/index.js:243-255 | the cursor moves behind the reported ledger only when the whole pass succeeded, and has moved even if it then cannot be saved |
| IndexLoop.UninterruptedTurn | indexer/src/index.js:90-255 | a turn on a network that stands still, complete or broken off, is a row of steps of the loop with the same table and cursor |
| IndexLoop.RedoneTurn | indexer/src/index.js:243-255 | redoing a failed pass gives the table of one clean pass under a unique key, and its partial rows again without one |
| IndexLoop.InvKept | indexer/src/index.js:90-209 | every settled step keeps the loop invariant while the tip moves between pages |
| IndexLoop.RunInv | indexer/src/index.js:90-255 | the same over every run |
| IndexLoop.NothingMissed | indexer/src/index.js:90-255 | every network event from the first cursor up to the cursor is stored, nothing foreign is, and under a unique key each once, with failures anywhere |
| IndexLoop.RestartCompleteIff | indexer/src/index.js:237-239 | a restart leaves nothing missing, now or whatever ledgers close later, if and only if every event of the highest stored ledger is stored, or, on an empty table, the start does not lie ahead of the first cursor, or only of closed ledgers without events |
| IndexLoop.RestartOnEmptyTableLosesEvents | indexer/src/index.js:237-239 | runs without START_LEDGER in which a restart after failed inserts skips an event for good |
| IndexLoop.FixedStartMissesNothing | indexer/src/index.js:237-239 | with a fixed START_LEDGER restarts on an empty table skip nothing, as long as no rewind goes below it |
| IndexLoop.RewindCompleteIff | indexer/src/reorgWorker.js:100-110 | a rewind between passes leaves no gap if and only if the events it skips from the cursor to the fork are stored; always so when it does not pass the cursor or the highest stored ledger |
| IndexLoop.SavedCursorIsComplete | indexer/src/db.js:24-30 | what is saved is the cursor, and without restarts and rewinds it is never ahead of the table |
| IndexLoop.CrashInsideLedgerLosesEvents | indexer/src/index.js:237-239 | a run in which a crash inside a ledger loses its second event |
| IndexLoop.RedonePassDuplicatesRows | indexer/src/index.js:243-255 | a run that stores an event twice for want of a unique key |
| IndexLoop.RewindDuringPassIff | indexer/src/reorgWorker.js:100-110 | after a rewind during the last page of a pass, which the end of the pass undoes: nothing is missing if and only if all the network now has from the fork to the latest ledger of the pass was still to be inserted from the page; this stays so whatever closes if and only if also the network reaches that ledger; and the invariant of the loop holds if and only if also the page holds no orphan |
| IndexLoop.RewindOntoShorterChainLosesEvents | indexer/src/reorgWorker.js:100-110 | otherwise, whatever closes at or below that ledger is missed |
| IndexLoop.RewindDuringPassIsLost | indexer/src/reorgWorker.js:100-110 | a run of that kind in which the replacing event is never indexed |
| IndexLoop.RewindOverGapLosesEvents | indexer/src/index.js:194-201 | whenever a pass fails between two pages and the ledger whose hash was just recorded is found orphaned, the rewind skips the unread events |
| Reorg.Store.constructor | indexer/src/reorgWorker.js:16-25 | empty tables |
| Reorg.Store.RecordLedgerHash | indexer/src/reorgWorker.js:27-35 | a hash is recorded unless its ledger has one |
| Reorg.RecordMeaning | indexer/src/reorgWorker.js:27-35 | the table keeps its order and its rows and gains only an absent ledger |
| Reorg.Store.GetRecentLedgerHashes | indexer/src/reorgWorker.js:37-41 | the newest rows, newest first |
| Reorg.Store.CheckForReorg | indexer/src/reorgWorker.js:57-78 | the first mismatch in that order among ledgers whose network hash is known; none just when the newest 20 rows show none |
| Reorg.CheckNone | indexer/src/reorgWorker.js:57-78 | no report means no visible mismatch in the window |
| Reorg.CheckSome | indexer/src/reorgWorker.js:57-78 | a report is the newest visible mismatch |
| Reorg.Store.Rollback | indexer/src/reorgWorker.js:43-50 | rows and events at or above the ledger go, all others stay |
| Reorg.Store.Tick | indexer/src/reorgWorker.js:98-110 | one turn: check, roll back, rewind the cursor |
| Reorg.Store.TickUntilQuiet | indexer/src/reorgWorker.js:98-110 | repeated turns end after at most as many turns as there are rows, whatever hashes are unavailable |
| Reorg.TurnShrinks | indexer/src/reorgWorker.js:43-50 | every rollback removes a row |
| Reorg.ReportsAreOrphans | indexer/src/reorgWorker.js:57-78 | a reported height is a recorded ledger at or above the fork |
| Reorg.TurnsKeepFork | indexer/src/reorgWorker.js:43-78 | no turn ever removes a row below the fork |
| Reorg.FullTurn | indexer/src/reorgWorker.js:57-78 | with every hash available one turn takes off exactly the newest orphaned row |
| Reorg.Converges | indexer/src/reorgWorker.js:57-110 | after n turns exactly the n newest orphaned rows are gone, with the events and the cursor at the oldest of them |
| Reorg.ConvergedIsQuiet | indexer/src/reorgWorker.js:57-110 | then exactly the rows below the fork are left and another turn changes nothing |
| Reorg.OrphansGoneIff | indexer/src/reorgWorker.js:43-78 | all orphaned events are gone if and only if none lies between the fork and the lowest recorded orphan |
| CatchUp.Distribute | indexer/src/catchup.js:115-125 | dealing the range in batches gives the queues of the block-cyclic distribution |
| CatchUp.QueueMembers | indexer/src/catchup.js:115-125 | each ledger of the range is in exactly one queue |
| CatchUp.QueueAscending | indexer/src/catchup.js:115-125 | queues ascend strictly |
| CatchUp.QueueLength | indexer/src/catchup.js:115-125 | the exact length of every queue |
| CatchUp.QueuesBalanced | indexer/src/bulkLoader.js:134-141 | lengths differ by at most one batch |
| CatchUp.FetchLedger | indexer/src/catchup.js:53-83 | paging returns exactly the events of the ledger, each as often as the network has it and in its order |
| CatchUp.NothingLost | indexer/src/catchup.js:86-101 | inserted and still due events and those of failed ledgers add up to what was due, at every point of every interleaving |
| CatchUp.ParallelEqualsSequential | indexer/src/catchup.js:86-125 | every interleaving without failed ledgers ends in the table of one sequential pass: besides what was there, exactly the network's events of the range, once each under a unique key |
| CatchUp.OrderIrrelevant | indexer/src/catchup.js:53-83 | the table depends on which events were inserted, not on their order |
| CatchUp.OnlyDueIsStored | indexer/src/catchup.js:86-101 | with failed ledgers nothing foreign is stored and nothing stored is lost |
| CatchUp.OnlyRangeIsStored | indexer/src/catchup.js:53-125 | at every point, failures included, only network events of the range are added |
| CatchUp.BulkWorker.constructor | indexer/src/bulkLoader.js:95-98 | an empty buffer |
| CatchUp.BulkWorker.Flush | indexer/src/bulkLoader.js:66-93 | a flush inserts the whole buffer and empties it, or leaves both as they were |
| CatchUp.BulkWorker.Run | indexer/src/bulkLoader.js:95-125 | stored and buffered events are together exactly the network's events of the ledgers that could be fetched, failed flushes included |
| CatchUp.BulkNothingLost | indexer/src/bulkLoader.js:95-125 | with any number of buffering workers, and fetches and flushes failing anywhere, stored, outstanding and failed events add up to what was due, at every point of every interleaving |
| CatchUp.BulkEqualsSequential | indexer/src/bulkLoader.js:95-141 | when all workers are done exactly the network's events of the range have been inserted, each as often as the network has it, but for the ledgers that could not be fetched |
| LeaderElection.Elector.constructor | indexer/src/leaderElection.js:20-38 | an instance that is not the leader |
| LeaderElection.Elector.TryAcquireLock | indexer/src/leaderElection.js:54-65 | wins exactly when no lease runs |
| LeaderElection.Elector.RenewLock | indexer/src/leaderElection.js:72-83 | extends its own lease, or clears the flag |
| LeaderElection.Elector.ReleaseLock | indexer/src/leaderElection.js:89-99 | frees its own lease only |
| LeaderElection.UninterruptedCalls | indexer/src/leaderElection.js:54-99 | these calls are their commands and answers in a row |
| LeaderElection.FinishKeepsInv | indexer/src/leaderElection.js:72-99 | the second command of a renewal or release, run by Redis in time, keeps the invariant whenever its answer arrives |
| LeaderElection.RunInv | indexer/src/leaderElection.js:54-135 | the invariant over every run with timely second commands |
| LeaderElection.AtMostOneActive | indexer/src/leaderElection.js:54-135 | at most one flagged instance that has not deleted its own key is inside its lease; of two flagged instances inside a lease one has; a flagged one without the key has, or refreshed at least a TTL ago |
| LeaderElection.StaleFlagCleared | indexer/src/leaderElection.js:72-126 | in every run, a renewal that finds the lease gone ends with the flag cleared and the key untouched, whatever happens in between |
| LeaderElection.RenewalSafeIff | indexer/src/leaderElection.js:72-83 | a late EXPIRE keeps safety if and only if the instance still owns the key or has cleared its flag |
| LeaderElection.ReleaseSafeIff | indexer/src/leaderElection.js:89-99 | a late DEL is safe if and only if nobody else is active |
| LeaderElection.LateRenewalGivesTwoLeaders | indexer/src/leaderElection.js:72-83 | a run in which a late EXPIRE leads to two active leaders |
| LeaderElection.LateReleaseGivesTwoLeaders | indexer/src/leaderElection.js:89-99 | a run in which a late DEL leads to two active leaders |
| LeaderElection.ReleaseLeavesTwoFlags | indexer/src/leaderElection.js:89-99 | a timely run in which the successor leads while the releasing instance waits for the answer to its DEL, for good if that is lost |
| EventBus.Publisher.constructor | indexer/src/kafkaEventBus.js:30-31 | no message counted yet |
| EventBus.Publisher.NextMessageId | indexer/src/kafkaEventBus.js:33-37 | the next id of the topic, distinct from the earlier ones by its counter |
| EventBus.Publisher.Publish | indexer/src/kafkaEventBus.js:70-81 | appends one message to the topic's list and touches no other topic, or throws with the counter moved |
| EventBus.MessageIdsClashIff | indexer/src/kafkaEventBus.js:33-37 | ids of a topic are equal if and only if process id and counter are |
| EventBus.ProcessesClashIff | indexer/src/kafkaEventBus.js:33-37 | two publishing processes share an id if and only if they share a process id |
| EventBus.InvKept | indexer/src/kafkaEventBus.js:92-163 | every piece of a delivery or replay keeps the invariant |
| EventBus.RunInv | indexer/src/kafkaEventBus.js:92-163 | the same over every run |
| EventBus.ExactlyOnce | indexer/src/kafkaEventBus.js:99-120 | no id has two handlers in flight or two successes; without Redis faults the dedup set is exactly the ids in flight or succeeded |
| EventBus.StreamIsAppended | indexer/src/kafkaEventBus.js:70-81 | the replay list holds what was published since it last expired, oldest first |
| EventBus.ReplayCoversSnapshot | indexer/src/kafkaEventBus.js:138-163 | after a replay without failures every message of its list has succeeded or is in flight |
| EventBus.RepeatedIdIsLost | indexer/src/kafkaEventBus.js:99-163 | in every run, what is published under an id that succeeded before is never handled, neither when delivered nor by a replay |
| EventBus.RestartedPublisherIsLost | indexer/src/kafkaEventBus.js:33-37 | a run in which a process with the same pid starts its counter anew and its message is lost |
| EventBus.ReplayStream | indexer/src/kafkaEventBus.js:138-163 | the replay loop without interruption |
| EventBus.ReplayedMeaning | indexer/src/kafkaEventBus.js:138-163 | it hands over exactly the unclaimed ids, an id again only after its handler failed, and claims those that succeed |
| EventBus.UninterruptedReplay | indexer/src/kafkaEventBus.js:138-163 | it is the start of a replay and its turns in a row |
| Leb128.ReadLEB128 | indexer/src/wasmContractSpec.js:18-28 | the loop with signed 32-bit `or` and shifts, on any bytes |
| Leb128.DecodeEncode | indexer/src/wasmBuildMetadata.js:17-27 | decoding an encoded 32-bit integer gives its signed value and the position behind it |
| Leb128.DecodesExactlyBelow2To31 | indexer/src/wasmBuildMetadata.js:17-27 | the value comes back if and only if it is below 2^31; from there on it is negative |
| WasmSections.CustomSectionsLoop | indexer/src/wasmBuildMetadata.js:33-53 | the generator's loop yields the custom sections of the buffer |
| WasmSections.ExtractContractSpecSection | indexer/src/wasmContractSpec.js:38-66 | the extractor's loop, with its error cases |
| WasmSections.CustomSectionsInvertsPrinting | indexer/src/wasmBuildMetadata.js:33-53 | scanning a printed module gives exactly its custom sections in order |
| WasmSections.ExtractInvertsPrinting | indexer/src/wasmContractSpec.js:38-66 | the extractor returns the first contractspecv0 payload and throws exactly when there is none |
| WasmSections.ScannersAgreeIff | indexer/src/wasmContractSpec.js:38-66 | on every buffer without negative sizes both scanners agree on that payload if and only if no empty custom section ahead of it is followed by bytes that read as its name, or the payload is empty |
| WasmSections.EmptyCustomSectionSplitsScanners | indexer/src/wasmBuildMetadata.js:40-50 | a module with an empty custom section on which they disagree |
| WasmSections.ForeignBuffers | indexer/src/wasmContractSpec.js:38-43 | exactly the buffers that do not begin with the WASM magic are refused |
| Producers.ParseProducersSection | indexer/src/wasmBuildMetadata.js:80-112 | the nested loops over fields and pairs, truncated input included |
| Producers.ParseInvertsPrinting | indexer/src/wasmBuildMetadata.js:80-112 | parsing a printed producers section gives the joined values of every field |
| Producers.FlatMeaning | indexer/src/wasmBuildMetadata.js:80-112 | the object has exactly the field names, each with the joined values of its last field |
| Producers.FieldsReadBack | indexer/src/wasmBuildMetadata.js:80-112 | from a printed section every such field is read back with names and versions, if those have no separators inside |
| ScVals.BuildTypeIndex | indexer/src/scval.js:145-151 | the loop that fills the index |
| ScVals.IndexMeaning | indexer/src/scval.js:145-151 | a name maps to the last definition that carries it, nothing else is in the index |
| ScVals.DecodeMap | indexer/src/scval.js:235-242 | the loop that fills an object from map entries |
| ScVals.DecodeStructMap | indexer/src/scval.js:24-36 | the loop that fills a record from map entries by field type |
| ScVals.WideIntegersDecode | indexer/src/scval.js:193-221 | 128- and 256-bit integers come back exactly from their limbs, negative ones included |
| ScVals.ScalarsDecode | indexer/src/scval.js:166-191 | integers of up to 32 bits become numbers and wider ones BigInts, texts and flags what they are |
| ScVals.HexReadsBack | indexer/src/scval.js:223-224 | bytes are read back from their hexadecimal text |
| ScVals.MapMeaning | indexer/src/scval.js:235-242 | an object has the texts of the keys, and the last entry under a text wins |
| ScVals.KeyTexts | indexer/src/scval.js:235-242 | what the text of a key is |
| ScVals.LedgerKeysDecode | indexer/src/scval.js:256-268 | ledger keys and instances become objects that tell what they are |
| TypedValues.DecodeEncoding | indexer/src/scval.js:13-136 | the typed decoder inverts every encoding of every typed value, in any mixture of forms, for recursive types too |
| TypedValues.UnionShape | indexer/src/scval.js:72-109 | an encoding of a union case becomes an object that names type and case, with the decoded item or items as data just if the case has payload |
| TypedValues.VariantShape | indexer/src/scval.js:94-109 | the same for any number of items, each decoded by the type at its place |
| TypedValues.UnknownVariantShape | indexer/src/scval.js:77-90 | a tag that is no case is told with the items decoded untyped |
| TypedValues.EnumShape | indexer/src/scval.js:53-69 | an enum or error number becomes its type, its case or "Unknown(n)", and the number |
| TypedValues.StructShape | indexer/src/scval.js:24-50 | an encoding of a struct becomes an object with exactly its fields, each with its own value |
| TypedValues.OtherFormsFallBack | indexer/src/scval.js:13-136 | a value of no such form is decoded without the type |
| TypedValues.RenderInjective | indexer/src/scval.js:13-136 | the decoded value determines the typed value |
| TypedValues.DecodingSeparates | indexer/src/scval.js:13-136 | encodings of different values decode differently |
| TypedValues.EncodeEncodes | indexer/src/scval.js:13-136 | the reference encoder produces encodings, in map and in tuple form |
| TypedValues.RoundTrip | indexer/src/scval.js:13-136 | decoding what the encoder writes gives the value back |
| TypedValues.TupleFormAgreesIff | indexer/src/scval.js:24-50 | tuple and map form of a struct decode alike if and only if it has fields |
| FormatAmount.FormatReadsBack | indexer/src/formatAmount.js:15-29 | reading the text back and scaling gives the raw amount, for every amount and scale |
| FormatAmount.TextIsTruncated | indexer/src/formatAmount.js:17-17 | an amount given as text with decimals is formatted as the whole number next to it on the side of zero |
| FormatAmount.FormatCanonical | indexer/src/formatAmount.js:15-29 | no trailing fractional zero, no bare point, at most `decimals` digits behind it |
| FormatAmount.FormatInjective | indexer/src/formatAmount.js:15-29 | different amounts print differently |
| FormatAmount.VolumeDenotesIff | indexer/src/db.js:470-477 | the padded volume denotes the amount if and only if it is not negative or a whole number of tokens |
| FormatAmount.PrintersAgree | indexer/src/db.js:470-477 | on non-negative amounts both printers denote the same number |
| Csv.CsvReadsBack | indexer/src/api.js:1240-1250 | an RFC 4180 reader gets back the header and every value, whatever commas, quotes and newlines they hold |
| Csv.HeaderReadsBackIff | indexer/src/api.js:1248-1250 | the unescaped header reads back if and only if no column name needs escaping |
| AuthTree.WalkInvocation | indexer/src/authTreeParser.js:57-65 | the recursive walk that appends to a list gives the pre-order lines with depths |
| AuthTree.RebuildWalkAll | indexer/src/authTreeParser.js:57-65 | the tree can be rebuilt from its lines, at every starting depth |
| AuthTree.WalkInjective | indexer/src/authTreeParser.js:57-65 | different trees have different lists |
| AuthTree.ParseAuthTree | indexer/src/authTreeParser.js:80-88 | one layer for each entry, in order, from which signer and tree can be read back; the root at depth 0 and every child one deeper than its parent |
| StateDiff.Collect | indexer/src/stateDiffIndexer.js:67-130 | the two maps hold the last pre-image and the last write of every key, in the order of first writes |
| StateDiff.ExtractStateDiffs | indexer/src/stateDiffIndexer.js:59-155 | one diff for every written key, in that order; none without metadata |
| StateDiff.CompositeInjective | indexer/src/stateDiffIndexer.js:83-84 | the map key separates contract and label |
| StateDiff.OneDiffPerKey | indexer/src/stateDiffIndexer.js:132-148 | at most one diff for a key, and one exactly when some change writes or deletes it |
| StateDiff.DiffsCarryEvent | indexer/src/stateDiffIndexer.js:137-146 | every diff carries the ledger and the transaction of the event |
| StateDiff.TierIsTrueIff | indexer/src/stateDiffIndexer.js:37-47 | the tier of a written entry is told by durability and key; a deletion is always told as persistent, true just of persistent entries |
| StateDiff.SummaryReplays | indexer/src/stateDiffIndexer.js:59-155 | replaying the diffs equals replaying the changes, on contracts and key labels |
| StateDiff.FaithfulIffLabelsSeparate | indexer/src/stateDiffIndexer.js:17-30 | on the ledger entries themselves (contract, key value, durability), for all stores and streams over a set of them, if and only if no two share contract and label |
| StateDiff.PlacesCollideIff | indexer/src/stateDiffIndexer.js:17-30 | which entries share contract and label: equal bigints, equal JSON texts, unprintable keys of one type, and keys whose text is another's; durability and type do not separate |
| StateDiff.LabelsCollide | indexer/src/stateDiffIndexer.js:17-30 | entries that collide: of two durabilities, under a symbol and a string, under equal numbers of different types, under unprintable keys |
| StateDiff.KindIsNetIff | indexer/src/stateDiffIndexer.js:132-148 | on a faithful stream the reported kind is the net effect if and only if the entry existed before or was touched once |
| StateDiff.OldValueIsStart | indexer/src/stateDiffIndexer.js:136-146 | an entry written once shows its starting value as old value, a removed one only "(existed)" |
| StateDiff.OldValueIsStartIff | indexer/src/stateDiffIndexer.js:82-146 | in general, when exactly the old value is the starting one: by whether the entry was read again after its last write, and by what that write was |
| Keyset.GetEventsCursor | indexer/src/db.js:48-86 | the page and its cursor, and exactly which limits fail |
| Keyset.SelectMeaning | indexer/src/db.js:52-80 | the query lists exactly the matching rows in strictly descending seq |
| Keyset.OptionsMeaning | indexer/src/db.js:52-75 | each option narrows the listing by its own condition, and the two kinds share the rows out between them |
| Keyset.CursorCuts | indexer/src/db.js:69-72 | asking below the seq of row i gives exactly what comes after it |
| Keyset.PagesAreListing | indexer/src/db.js:48-86 | following the cursor ends, and the pages are the full listing cut into full pages, whatever is appended meanwhile |
| Keyset.NoRepeats | indexer/src/db.js:48-86 | exactly the matching rows are shown, none twice, in descending seq |
| TokenLedger.TokenHolders.constructor | indexer/migrations/004_vaults_and_tokens.sql:26-33 | no holders |
| TokenLedger.TokenHolders.Change | indexer/src/db.js:965-974 | one upsert |
| TokenLedger.TokenHolders.ApplyMint | indexer/src/db.js:965-974 | one upsert with the amount |
| TokenLedger.TokenHolders.ApplyTransfer | indexer/src/db.js:933-958 | a debit and a credit, or neither |
| TokenLedger.TokenHolders.ApplyBurn | indexer/src/db.js:980-988 | one upsert that debits |
| TokenLedger.UpsertMeaning | indexer/src/db.js:937-943 | an upsert changes one balance, by the change if the row exists and by the amount itself if not |
| TokenLedger.Conservation | indexer/src/db.js:933-988 | over every run the balances are minted less burned plus twice what was debited from unknown holders, transfers to self included |
| TokenLedger.ConservedIffDebitsKnown | indexer/src/db.js:933-988 | with non-negative amounts tokens are conserved if and only if every debited holder has a row |
| TokenLedger.HolderBalance | indexer/src/db.js:933-988 | a balance is credits less debits, off by twice the amount when its holder is first seen in a debit |
| DeadLetter.DeadLetterQueue.constructor | indexer/src/deadLetterQueue.js:39-61 | an empty queue |
| DeadLetter.DeadLetterQueue.Enqueue | indexer/src/deadLetterQueue.js:70-96 | a transient failure is due after one delay, another one never |
| DeadLetter.DeadLetterQueue.Resolve | indexer/src/deadLetterQueue.js:174-177 | sets the flag, or nothing for an unknown id |
| DeadLetter.DeadLetterQueue.Replay | indexer/src/deadLetterQueue.js:185-203 | resolves on success, else counts up and throws |
| DeadLetter.DeadLetterQueue.ProcessRetries | indexer/src/deadLetterQueue.js:104-144 | a pass, with others acting before and during every attempt, is a run of the step system, and retried = resolved + failed unless it throws |
| DeadLetter.InvKept | indexer/src/deadLetterQueue.js:104-144 | every step keeps the invariant of every entry |
| DeadLetter.RunInv | indexer/src/deadLetterQueue.js:70-203 | the same over every run |
| DeadLetter.ActEffects | indexer/src/deadLetterQueue.js:70-203 | what each act does to its entry and to the tally, and that it changes no other entry |
| DeadLetter.NoAttemptAfterResolve | indexer/src/deadLetterQueue.js:174-203 | after a resolve, or a replay that succeeds, outside a pass no attempt of the entry ever starts |
| DeadLetter.AllDueSelected | indexer/src/deadLetterQueue.js:104-116 | while at most 100 entries are due a pass selects all of them |
| DeadLetter.BackoffAdds | indexer/src/deadLetterQueue.js:32-34 | the delays add up to delay * (2^n - 1) |
| DeadLetter.BudgetAndBackoff | indexer/src/deadLetterQueue.js:70-144 | at most `max_retries` automatic attempts, none for non-transient entries, the k-th no earlier than the sum of k delays; each attempt that a database fault leaves unrecorded adds one |
| DeadLetter.GivesUpAfterExactly | indexer/src/deadLetterQueue.js:128-139 | left alone, an open entry is given up after exactly `max_retries` attempts |
| DeadLetter.TallyAddsUp | indexer/src/deadLetterQueue.js:117-144 | retried = resolved + failed, and every selected entry is tried once, unless the pass is broken off |
| DeadLetter.ResolvedStays | indexer/src/deadLetterQueue.js:104-203 | resolved never reverts, and outside a pass a resolved entry is never tried again |
| DeadLetter.UnrecordedIsDueAgain | indexer/src/deadLetterQueue.js:128-139 | an attempt that could not be recorded is due again at once |
| MultiNode.MultiNodeRpc.constructor | indexer/src/rpcMultiNode.js:25-32 | all nodes healthy, node 0 primary |
| MultiNode.MultiNodeRpc.NextHealthy | indexer/src/rpcMultiNode.js:34-44 | the nearest healthy node going round, or node 0 with all reset |
| MultiNode.MultiNodeRpc.Try | indexer/src/rpcMultiNode.js:61-91 | one pass of the attempt loop |
| MultiNode.MultiNodeRpc.CallWithFailover | indexer/src/rpcMultiNode.js:58-95 | the attempt loop, with nodes recovering meanwhile |
| MultiNode.NextMeaning | indexer/src/rpcMultiNode.js:34-44 | the next node is the nearest healthy one, or node 0 with all healthy again and their ledgers kept |
| MultiNode.AttemptHears | indexer/src/rpcMultiNode.js:61-91 | an attempt records exactly the ledgers that nodes name, and serves if and only if the node answers and no named ledger is further ahead than the threshold |
| MultiNode.PrimaryAfterAttempt | indexer/src/rpcMultiNode.js:66-91 | where the next call begins |
| MultiNode.ServedIsFresh | indexer/src/rpcMultiNode.js:66-86 | a result comes from a node within the threshold of the best known ledger, which is then the primary |
| MultiNode.ServedAnswersAreFresh | indexer/src/rpcMultiNode.js:58-95 | after any sequence of calls on a new client, a served answer names a ledger no more than the threshold behind the last one that any node has named |
| MultiNode.HealthyStartTriesEachOnce | indexer/src/rpcMultiNode.js:58-95 | from an all-healthy start no node is tried twice and a throw has tried every node |
| MultiNode.ThrownMeansNoneServed | indexer/src/rpcMultiNode.js:61-95 | every attempt of a call that throws failed or lagged when it answered |
| MultiNode.ThrowCoversIff | indexer/src/rpcMultiNode.js:34-95 | in general a throw has tried every node if and only if the nodes that were down, the primary aside, are the first ones of the list |
| ProviderPool.RpcProvider.constructor | indexer/src/rpcProviderPool.js:26-33 | a healthy provider with an empty window |
| ProviderPool.RpcProvider.RecordOutcome | indexer/src/rpcProviderPool.js:35-41 | the window is the last calls, never more than its size |
| ProviderPool.ScoreIsFraction | indexer/src/rpcProviderPool.js:44-69 | the health score is in [0, 1] for every window |
| ProviderPool.UptimeMeaning | indexer/src/rpcProviderPool.js:43-47 | the uptime is the share of successful calls, 1 before any |
| ProviderPool.AverageBetween | indexer/src/rpcProviderPool.js:49-53 | the average latency lies between the shortest and the longest |
| ProviderPool.BetterScoresHigher | indexer/src/rpcProviderPool.js:60-69 | fewer failures and shorter latencies never lower the score, fewer failures always raise it |
| ProviderPool.ScoreCorners | indexer/src/rpcProviderPool.js:60-69 | the shares of the score: 0.7 for uptime and 0.3 for latency |
| ProviderPool.HalfFailMeaning | indexer/src/rpcProviderPool.js:56-58 | an error rate of at least 0.5 means that half of the window or more failed |
| ProviderPool.Draw | indexer/src/rpcProviderPool.js:96-102 | the drawn candidate is the one whose interval the roll falls in, as long as its weight |
| ProviderPool.DrawnOnce | indexer/src/rpcProviderPool.js:96-102 | no roll draws two |
| ProviderPool.Pool.constructor | indexer/src/rpcProviderPool.js:84-84 | one healthy provider for each configured URL |
| ProviderPool.Pool.Settle | indexer/src/rpcProviderPool.js:143-160 | what the end of a call does to window, health and known ledger |
| ProviderPool.Pool.Probe | indexer/src/rpcProviderPool.js:184-198 | what a recovery probe does |
| ProviderPool.Pool.Candidates | indexer/src/rpcProviderPool.js:93-96 | the healthy providers in order, with positive weights |
| ProviderPool.Pool.SelectProvider | indexer/src/rpcProviderPool.js:92-104 | a healthy provider when there is one, drawn in proportion to its weight, else the first |
| ProviderPool.Pool.FirstUntried | indexer/src/rpcProviderPool.js:136-137 | an untried provider, or none only when every URL was tried |
| ProviderPool.Pool.Target | indexer/src/rpcProviderPool.js:130-139 | the drawn provider if it is untried, else the first untried one, none only when every URL was tried |
| ProviderPool.Pool.Call | indexer/src/rpcProviderPool.js:125-164 | no URL twice, the first answer ends the call, it throws only after every URL was tried and failed, for every draw and every health, and every attempt is recorded in windows, health and ledgers |
| Multisig.AuthFlows.CacheGet | src/cache.ts:133-175 | the process's own copy while it lives, else the one in Redis, which is then kept for as long as Redis keeps it |
| Multisig.AuthFlows.CacheSet | src/cache.ts:176-205 | the flow under a new lifetime, in the own store always and in Redis if that works |
| Multisig.AuthFlows.Initiate | src/api/authMultisig.ts:31-66 | stores an unsigned flow for ten minutes, or refuses |
| Multisig.NewFlowMeaning | src/api/authMultisig.ts:43-56 | a new flow has the given signers with their weights, none signed, and ten minutes |
| Multisig.NewFlowIsFound | src/cache.ts:176-205 | a new flow is found by the process that initiated it, and by the others just if it got into Redis |
| Multisig.ChallengesDiffer | src/api/authMultisig.ts:39-41 | the challenge tells wallet, nonce and flow |
| Multisig.AuthFlows.BeginContribute | src/api/authMultisig.ts:68-93 | the checks in their order, missing fields first, and the signed copy |
| Multisig.AuthFlows.ContributeAlone | src/api/authMultisig.ts:68-104 | without overlap the answer tells what is stored and the signer has signed |
| Multisig.AuthFlows.BeginComplete | src/api/authMultisig.ts:106-123 | the checks in their order, a missing id first, and the completed copy |
| Multisig.ContributionAcceptedIff | src/api/authMultisig.ts:76-90 | exactly which contributions are accepted, and how the others are answered |
| Multisig.CompletionAcceptedIff | src/api/authMultisig.ts:112-121 | a completion is accepted just when the flow is open and the weights of the signed reach the threshold |
| Multisig.InvKept | src/api/authMultisig.ts:68-125 | every step keeps signatures genuine and terms unchanged, in Redis and in the store of every process |
| Multisig.SessionsAreEarned | src/api/authMultisig.ts:68-160 | however requests overlap and whichever process serves them, a session rests on verified signatures of the flow's challenge whose weights as initiated reach the threshold |
| Multisig.SerialRun | src/api/authMultisig.ts:68-160 | the invariant of requests that take turns: each starts when the one before has ended, at a process that answers with what Redis holds, and writes to Redis succeed (or there is no Redis and one process) |
| Multisig.SerialRunsAreSafe | src/api/authMultisig.ts:106-160 | while its requests take turns a flow yields at most one session |
| Multisig.SerialRunsLoseNothing | src/api/authMultisig.ts:68-160 | while its requests take turns no signature or completion that was stored is ever taken back |
| Multisig.OneProcessIsSafe | src/cache.ts:133-205 | requests one after the other at one process take turns, with Redis or without, whatever its own store evicts |
| Multisig.RequestKeepsIff | src/cache.ts:133-147 | after turns taken, a request accepted by any process keeps all that was signed or completed if and only if that process answered with the last copy written to Redis, or makes that copy again |
| Multisig.AnswersAfterRequest | src/cache.ts:133-205 | what each process answers after a request: the new copy, but for another process with a live copy of its own, or after a failed write to Redis |
| Multisig.LastWriterWins | src/api/authMultisig.ts:68-125 | of two overlapping accepted requests, at one process or two, only the later copy is left |
| Multisig.OldLocalCopyWins | src/cache.ts:133-147 | the same of two requests without overlap, when the second process has its own copy from before |
| Multisig.LookMakesOldCopy | src/cache.ts:153-164 | for such a copy it is enough that the second process was asked for the flow's state before |
| Multisig.FailedWriteIsForgotten | src/cache.ts:191-204 | the same at one process, when Redis missed the first copy and the process's own one is gone |
| Multisig.NothingLostIff | src/api/authMultisig.ts:68-160 | in these three cases nothing is lost and at most one session issued if and only if both requests are contributions by one address; otherwise two sessions, a forgotten contribution or a completed flow open again |
| Multisig.ContributionSigns | src/api/authMultisig.ts:79-94 | a contribution signs for its own address only |
| Multisig.CompletableAfterExpiresAt | src/api/authMultisig.ts:92-124 | after a contribution the flow can be completed if and only if fewer than ten minutes have passed and the weights suffice, whatever its `expiresAt` |
| Multisig.CompletedForAMinute | src/api/authMultisig.ts:112-124 | a completed flow is told to be completed for 60 s and then not found |
| Multisig.UntouchedLastsUntilExpiresAt | src/api/authMultisig.ts:53-58 | a flow without accepted contribution is found by a process if and only if `expiresAt` has not come and the process can get at a copy |

## Left out

- Express routing, authentication and rate-limit middleware, SSE and WebSocket plumbing, metrics, logging, tracing, shutdown: I/O with little logic of its own.
- The Stellar SDK, XDR, StrKey, hashing and key handling: values, change entries and invocations are datatypes, signature checks a parameter; malformed XDR appears only where the code skips it.
- Early cache refresh (`_shouldXFetch`), `cacheAside`, `cacheApplyDelta`, cache analytics, and Redis values that are not wrapped with their type.
- TwoTierCache.ServedValuesAreRecent: assumes a bound on how long a call waits for Redis, since the code starts the L1 life when Redis answers.
- TwoTierCache.CacheNode.CacheGet: one call without interruption, interleavings are those of the step system; without the mark for an early refresh, Redis values not wrapped with their type, and values that fail to parse.
- Lru.PatternAgreesWithRedis: keys are not empty, which no caller writes; Redis compares an empty key with a pattern of stars in its own way.
- MirrorCache.MirroredExpiryIff: one fill at a time; no other process is told of a deletion, which src/cache.ts does not do either.
- IndexLoop.Daemon.IndexLedger: the network stands still during one call; the step system lets it grow between pages.
- IndexLoop.RewindCompleteIff: the two DELETEs of a rollback and `setCursor` are one step with the change of the network that they answer to.
- TwoTierCache.SweepSafeIff: which keys a SCAN lists is left open; that it lists every key that stays is not used.
- IndexLoop.RewindDuringPassIff: the rewind comes during the last page; what a node answers to a page token of a chain that was replaced is not part of this model.
- IndexLoop.NothingMissed: assumes that restarts and rewinds are settled, and that a node reports its latest ledger with every page and serves all events up to it; the ways in which this fails are proved beside it.
- Reorg.Converges: no indexing between the turns of the worker, which index.js does not start at all.
- CatchUp.ParallelEqualsSequential: the network does not grow during the back-fill, and a worker fetches a whole ledger, with all its pages, in one step.
- LeaderElection.AtMostOneActive: assumes that Redis runs the second command of a renewal or release before the lease its GET saw has run out; what happens otherwise is given as runs. Times are those of Redis. The callbacks and their alternation are not modelled.
- EventBus.ExactlyOnce: one consumer group, no expiry of the dedup set, and crashes of a consumer only as faults that strand an id.
- WasmSections.ExtractContractSpecSection: stops at a negative size too, where the source goes on from a smaller position.
- WasmSections.CustomSectionsLoop: stops at a section whose size decodes negative (2^31 or more), where the source's position moves backwards and need not end.
- Decoding of contract specification entries (`decodeEntry`, `typeStr`) and the build and environment metadata sections.
- TypedValues.DecodeEncoding: objects are maps from names to values, without property order and without JavaScript's special `__proto__` key.
- FormatAmount.TextIsTruncated: other texts that `BigInt` takes (empty, blanks, hexadecimal) or throws on are not modelled.
- Csv.CsvReadsBack: values are the texts that `String` gives; the header names must not need escaping, which the two exports meet.
- StateDiff.ExtractStateDiffs: the native value, JSON text and XDR of a key are given; of the fallbacks of `scValLabel` the type name is modelled, not the "?" of a value without one.
- Keyset.PagesAreListing: rows inserted later have larger numbers than all earlier ones and none is deleted between pages; a transaction that commits a smaller number later may be missed.
- TokenLedger.Conservation: amounts are integers; the insert path stores any text unchecked.
- DeadLetter.BudgetAndBackoff: one retry pass at a time, one clock for the process and the database, exact powers of two.
- MultiNode.HealthyStartTriesEachOnce: recoveries happen meanwhile, other calls through the same client do not.
- ProviderPool.Pool.SelectProvider: fractions are reals, so the fallback for rounding is unreachable.
- Multisig.SessionsAreEarned: weights and thresholds are integers; a list of signers that is no list, on which the handler throws, is not modelled.
- Multisig.SerialRun: `cacheGet` reads value and lifetime of a Redis key at one instant (MirrorCache shows what else can happen), and a read of Redis that fails, which answers 404 and changes nothing, is no step.
- The build queue, alert deduplication, readiness, cooldowns and the demo endpoints: easy state flags or stubs.
