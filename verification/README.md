# Concurrent containers and exact arithmetic of the benchmark drivers

The drivers under `benchmark/` measure databases, but their hard code is what they carry with them:
a lock-free queue, TBB's concurrent containers, and generators that depend on exact integer arithmetic.
This project models those parts and proves what they are for.

**Concurrent code is a transition system.** The state holds the shared words, a program counter with the
live local variables for each of any number of threads, and history that no step reads. A step is
one access to shared memory; a run is any sequence of steps from an initial state (`Runs`). Main
results speak about every state of every run. Counters are unbounded there; `CircularOrder` says exactly
when a comparison of wrapped words agrees with the comparison of the counters, and
`DequeueProtocol.SingleTestOnWords` and `BulkTestOnWords` carry the two tests of the protocol over.

**Serial code is a class** whose methods change its fields and are proved against functions of the old
state; what the source promises is proved about those functions.

## How the files fit together

- The queue (`concurrentqueue.h`): `CircularOrder`, `DequeueProtocol` (who gets which index), `FreeList`
  (blocks in reserve), `ExplicitBlockIndex` and `ImplicitBlockIndex` over `BlockNumbers` (which block an
  index leads to), `BlockElements` with `ExplicitElements` and `ImplicitElements` (what is in the blocks), `ProducerHash`
  (each thread's own producer).
- The blocking queue: `LightweightSemaphore`, and `BlockingQueue` on top of its steps.
- TBB: `Heaps` and `ConcurrentPriorityQueue`; `BitPrefixes`, `SplitTable` (the table as a value) and
  `ConcurrentHashMap` (the class); `Aggregator`; `LruOrder` (the cache told from its history) and
  `LruCache` (the class).
- Exact arithmetic: `Lehmer`, `LehmerCertificate`, `Divisibility` and `Random` (the generator's period),
  `Shares` and `Distributions` (key ranges, query types), `KeyCodec`.
- `Sums`, `Counting`, `Arithmetic`, `Options` and `Runs` are shared.

## What came out differently from what the code says

- `circular_less_than` compares the wrapped difference strictly with half the range, so at `b - a` equal to
  half the range it answers no (`CircularOrder.CircularLessAgrees`: up to that distance it is the only failure).
- `concurrent_hash_map::rehash` ends with assertions that no bucket is left to be split. They fail for a table
  that was filled, emptied and then asked for more buckets: `reserve` takes a map of size zero for one never used,
  and marks the new buckets as split though their parents are not (`EmptiedThenRehashed` builds it). From then on they also
  fail with elements in the map and without growth (`FilledThenRehashed`). `HashMap.Rehash` states, for every valid
  map, exactly which buckets are split in the end and so exactly when all are: when every unsplit bucket shares its root with
  an unsplit bucket of the last segment, in the table the scan begins with. For tables closed under parents that is simple:
  only the emptied one that grows fails. The map's contents stay right in every case.
- `concurrent_lru_cache` with no history items takes `back()` of an empty list as soon as a last
  handle goes. `Cache.EndUsage` states that this is the only undefined case, `HandleOperations` exactly which batches
  meet it, and `WithoutHistory` meets it.
- `DistGetKeyID` takes a signed number, and `%` keeps its sign: a negative number whose remainder is
  not zero goes to range 0, whatever that range's weight. The key lies in the range that its remainder falls to if and only if
  the number is not negative, or is a multiple of both keyrange_rand_max_ and the range size (`KeyGenerator.KeyId`;
  `NegativeNumber` has a failing one). The signature admits negative numbers, but the only caller passes what
  `GetRandomKey` returns (`rocksdb_benchmark_tool.cc:195-212`), which is not negative when flags_num is positive.
- A second `InitiateExpDistribution` or `QueryDecider::Initiate` on one object appends to the ranges or thresholds that are
  there, while the totals are those of the new ones: exactly the first call leaves a valid generator and a table that decides.
- `ConvertKeyToInt` reads eight bytes by default. `KeyCodec.ShortRoundTrip` states exactly which
  numbers a shorter key brings back when only its own bytes are read.

## Model

| member | source | states |
|---|---|---|
| CircularOrder.CircularLessAgrees | benchmark/ycsb/concurrentqueue.h:469-481 | for counters at most half the range apart, comparing words is comparing counters if and only if the distance is not exactly half |
| CircularOrder.CircularLessIsPeriodic | benchmark/ycsb/concurrentqueue.h:469-481 | counters that are whole turns apart cannot be told apart, so no window larger than that is possible |
| DequeueProtocol.NextInv | benchmark/ycsb/concurrentqueue.h:1940-2037 | every step of the producer and of any single or bulk consumer keeps the ledger of optimistic positions and the balance of the four counters |
| DequeueProtocol.AdmittedWithinTail | benchmark/ycsb/concurrentqueue.h:1961-1985 | the core of the protocol: however positions are spread over consumers, and whatever overcommit each of them read, the units ever admitted are at most the tail |
| DequeueProtocol.NeverPastTheTail | benchmark/ycsb/concurrentqueue.h:2233-2258 | in every state of every run head plus units admitted but not yet added to it is at most the tail, and the optimistic count is head plus overcommit plus units in flight |
| DequeueProtocol.IndicesHandedOutOnce | benchmark/ycsb/concurrentqueue.h:1977-1988 | exactly the indices below head have been handed out, each to one claim, and all of them had been enqueued |
| DequeueProtocol.AnswersAreFair | benchmark/ycsb/concurrentqueue.h:2233-2258 | every call that has returned went, up to its maximum, for exactly the units its first test found below the tail, and got exactly those of them below the tail it read again, whatever the other consumers took meanwhile |
| DequeueProtocol.AdmitsWhatIsThere | benchmark/ycsb/concurrentqueue.h:2240-2258 | of the positions a consumer took, the second test admits exactly those below the tail it reads, less the overcommit it had read |
| DequeueProtocol.TurnedAwayMeansPromised | benchmark/ycsb/concurrentqueue.h:1944-1961 | a call that the first test turns away has read a tail within head, the units in flight, and those returned since it read the overcommit |
| DequeueProtocol.AloneTakesWhatIsThere | benchmark/ycsb/concurrentqueue.h:2233-2260 | units refused by the test are not lost: after any run that came to rest, a consumer running alone gets exactly min(max, tail - head) elements, the next ones in order |
| DequeueProtocol.SingleTestOnWords | benchmark/ycsb/concurrentqueue.h:1944-1977 | dequeue's test on wrapped words is the test on counters, within half the word range |
| DequeueProtocol.BulkTestOnWords | benchmark/ycsb/concurrentqueue.h:2233-2246 | dequeue_bulk's count, computed on words, is positive exactly when the true one is, and then equal to it |
| FreeList.NextInv | benchmark/ycsb/concurrentqueue.h:1438-1517 | every step of add, try_get and add_knowing_refcount_is_zero keeps reference counts, chain and places in agreement, in 32-bit words |
| FreeList.NoNodeHandedOutTwice | benchmark/ycsb/concurrentqueue.h:1452-1493 | between two times a node is handed to callers it has been added by its owner |
| FreeList.NextConstantWhileHeld | benchmark/ycsb/concurrentqueue.h:1462-1470 | freeListNext of a node does not change while a thread holds a counted reference to it |
| FreeList.PopIsExact | benchmark/ycsb/concurrentqueue.h:1466-1479 | no ABA: when the CAS on the head succeeds the node is the first of the chain, the successor read earlier is its successor, its list bit is off, and nothing else leaves the chain |
| FreeList.OnePutterPerNode | benchmark/ycsb/concurrentqueue.h:1495-1517 | one thread at most is putting a node back, and nobody references it before its count is published |
| FreeList.NothingLost | benchmark/ycsb/concurrentqueue.h:1438-1450 | at rest a node is on the list with its reference count one if it was added and not handed out since, and with its owner and unreferenced if not; a node waiting to be put back has a referencing thread |
| FreeList.NullMeansEmpty | benchmark/ycsb/concurrentqueue.h:1452-1493 | a try_get that returns without a node was in the call when the list was empty: at its load of the head, at a lost CAS, or before it put a node back on the way |
| FreeList.AloneGetsTheFirst | benchmark/ycsb/concurrentqueue.h:1452-1479 | whatever the other threads are in the middle of, a thread that runs try_get while they stand still gets the first node of a list that is not empty |
| FreeList.AloneAddsInFront | benchmark/ycsb/concurrentqueue.h:1438-1450 | likewise add puts an unreferenced node in front; a node that is still referenced waits, and the call is over at once |
| ConcurrentPriorityQueue.BatchLinearizes | benchmark/ycsb/tbb/concurrent_priority_queue.h:388-470 | for every heap, strict weak order and batch, pushes that fail included, there is an ordering of the whole batch in which a plain priority queue gives the same outcomes: each pop an element nothing present exceeds, each failed pop an empty queue, the same multiset left |
| ConcurrentPriorityQueue.PriorityQueue.FirstPassOver | benchmark/ycsb/tbb/concurrent_priority_queue.h:393-435 | the first loop on the vector is the first pass on values that BatchLinearizes speaks of |
| ConcurrentPriorityQueue.PriorityQueue.SecondPassOver | benchmark/ycsb/tbb/concurrent_priority_queue.h:437-463 | the second loop is its second pass |
| ConcurrentPriorityQueue.PriorityQueue.HandleOperations | benchmark/ycsb/tbb/concurrent_priority_queue.h:388-470 | the two passes and the final heapify on the vector in place have those outcomes, and leave a heap with mark equal to size |
| ConcurrentPriorityQueue.PriorityQueue.Heapify | benchmark/ycsb/tbb/concurrent_priority_queue.h:472-486 | merging the unsorted tail makes the whole vector a heap of the same elements |
| ConcurrentPriorityQueue.PriorityQueue.Reheap | benchmark/ycsb/tbb/concurrent_priority_queue.h:490-507 | the loop with a hole is sinking the last element of the vector, which may be outside the heap, from the root |
| Heaps.RootIsLargest | benchmark/ycsb/tbb/concurrent_priority_queue.h:469-470 | nothing in a heap exceeds its root, for every strict weak order |
| SplitTable.RootAfterSplit | benchmark/ycsb/tbb/concurrent_hash_map.h:723-753 | splitting a bucket moves exactly its descendants' home from the parent to it |
| SplitTable.HomeAfterGrowth | benchmark/ycsb/tbb/concurrent_hash_map.h:213-213 | a larger mask alone moves no hash code's home |
| SplitTable.SplitOff | benchmark/ycsb/tbb/concurrent_hash_map.h:723-753 | what remains to be moved when a bucket is marked as split: exactly the parent's nodes whose hash, cut to the bucket's mask, is the bucket |
| SplitTable.NodeMoved | benchmark/ycsb/tbb/concurrent_hash_map.h:737-751 | relinking one node keeps the map while the rest of the parent's chain still waits |
| SplitTable.GrowthKeeps | benchmark/ycsb/tbb/concurrent_hash_map.h:190-215 | new unsplit segments leave the map unchanged |
| SplitTable.MarkDescends | benchmark/ycsb/tbb/concurrent_hash_map.h:243-250 | the recursion of mark_rehashed_levels marks the unsplit buckets below one child and no others |
| SplitTable.UnreachedRoot | benchmark/ycsb/tbb/concurrent_hash_map.h:1444-1452 | while the scan has reached nothing with a bucket's root, that bucket keeps its root |
| SplitTable.ScanSplits | benchmark/ycsb/tbb/concurrent_hash_map.h:1444-1463 | splitting what has an unsplit bucket's root now is splitting what had its root when the scan began |
| SplitTable.ScanEnds | benchmark/ycsb/tbb/concurrent_hash_map.h:1434-1463 | for every table, all buckets are split in the end if and only if every unsplit one shares its root with an unsplit bucket of the last segment |
| SplitTable.Rehashed | benchmark/ycsb/tbb/concurrent_hash_map.h:1434-1463 | the cases with a simple condition: parent-closed tables, tables with elements that grow, empty tables that grow |
| SplitTable.GrowthWhileSearching | benchmark/ycsb/tbb/concurrent_hash_map.h:254-282 | however the table is grown and split after a thread has read a mask, the buckets beyond that mask stay closed under parents |
| SplitTable.ChildDecides | benchmark/ycsb/tbb/concurrent_hash_map.h:263-282 | the next longer cut of the hash decides whether its home has moved, if the buckets beyond the shorter mask are closed under parents |
| ConcurrentHashMap.HashMap.constructor | benchmark/ycsb/tbb/concurrent_hash_map.h:127-141 | an empty map whose two buckets are split |
| ConcurrentHashMap.HashMap.TakeFromParent | benchmark/ycsb/tbb/concurrent_hash_map.h:737-751 | the scan leaves every node in its home and the map as it was |
| ConcurrentHashMap.HashMap.RehashBucket | benchmark/ycsb/tbb/concurrent_hash_map.h:723-753 | the recursion to the parent ends, splits the bucket and unsplit ancestors and no other bucket, and keeps the map |
| ConcurrentHashMap.HashMap.Acquire | benchmark/ycsb/tbb/concurrent_hash_map.h:705-715 | the bucket at hash and mask is split afterwards and is the hash's home; split buckets stay closed under parents |
| ConcurrentHashMap.HashMap.SearchBucket | benchmark/ycsb/tbb/concurrent_hash_map.h:691-699 | finds the first node with the key, or that there is none |
| ConcurrentHashMap.HashMap.Find | benchmark/ycsb/tbb/concurrent_hash_map.h:1258-1334 | returns what the abstract map has for the key, whichever buckets have been split |
| ConcurrentHashMap.HashMap.Insert | benchmark/ycsb/tbb/concurrent_hash_map.h:1258-1334 | adds the key if it is absent and keeps the old value otherwise; the buckets become 256 from two, twice as many otherwise, exactly when the elements then number at least one less than the buckets |
| ConcurrentHashMap.HashMap.Erase | benchmark/ycsb/tbb/concurrent_hash_map.h:1386-1424 | removes the key from the abstract map and reports whether it was there |
| ConcurrentHashMap.HashMap.EqualRange | benchmark/ycsb/tbb/concurrent_hash_map.h:1338-1353 | finds the key by clearing top bits, without splitting anything |
| ConcurrentHashMap.HashMap.FirstSplit | benchmark/ycsb/tbb/concurrent_hash_map.h:1343-1347 | the climb ends at the nearest split ancestor |
| ConcurrentHashMap.HashMap.EnableSegment | benchmark/ycsb/tbb/concurrent_hash_map.h:190-215 | two buckets become 256, and any larger number twice as many; new buckets are unsplit unless the table is new |
| ConcurrentHashMap.HashMap.Reserve | benchmark/ycsb/tbb/concurrent_hash_map.h:302-308 | the buckets become the smallest number in the sequence 2, 256, 512 and so on that is at least the one asked for, and never fewer than before; the map is kept, and emptiness is looked at once |
| ConcurrentHashMap.HashMap.MarkRehashedLevels | benchmark/ycsb/tbb/concurrent_hash_map.h:243-250 | marks exactly the unsplit buckets whose root is the given one, over all segments |
| ConcurrentHashMap.HashMap.MoveAllHome | benchmark/ycsb/tbb/concurrent_hash_map.h:1452-1462 | every node of the chain ends in its own bucket and the map is unchanged |
| ConcurrentHashMap.HashMap.SplitLast | benchmark/ycsb/tbb/concurrent_hash_map.h:1444-1463 | one unsplit bucket of the last segment takes all unsplit buckets of its root with it |
| ConcurrentHashMap.HashMap.ScanLastSegment | benchmark/ycsb/tbb/concurrent_hash_map.h:1437-1463 | exactly the unsplit buckets that share a root with an unsplit bucket of the last segment are split, and the map is unchanged |
| ConcurrentHashMap.HashMap.Rehash | benchmark/ycsb/tbb/concurrent_hash_map.h:1434-1463 | for every valid map: all buckets are split in the end if and only if each unsplit one, after growth, shares its root with an unsplit one of the last segment; then every node is at hash and mask; the map is unchanged |
| ConcurrentHashMap.EmptiedThenRehashed | benchmark/ycsb/tbb/concurrent_hash_map.h:302-308 | an empty map that rehash leaves with unsplit buckets |
| ConcurrentHashMap.FilledThenRehashed | benchmark/ycsb/tbb/concurrent_hash_map.h:1434-1463 | a map with an element that rehash leaves so without growth |
| ConcurrentHashMap.AddressOf | benchmark/ycsb/tbb/concurrent_hash_map.h:144-156 | each bucket number has one segment and one offset in it, the offset being its parent's number |
| ConcurrentHashMap.CheckRehashingCollision | benchmark/ycsb/tbb/concurrent_hash_map.h:254-282 | the bit search ends, and the answer is no exactly if the hash's home has not moved since the old mask; it requires of the table what GrowthWhileSearching gives |
| ConcurrentHashMap.MissIsFinal | benchmark/ycsb/tbb/concurrent_hash_map.h:1286-1299 | after that answer a miss under the old mask is a miss in the grown table |
| ExplicitBlockIndex.Always | benchmark/ycsb/concurrentqueue.h:1834-1937 | the invariant of ring, index and headers in every state of every run with one producer and any number of consumers |
| ExplicitBlockIndex.FindsTheRightBlock | benchmark/ycsb/concurrentqueue.h:1993-2002 | a consumer with a claimed index has found the block the producer gave it, through any header it still holds, and the block has no other number yet |
| ExplicitBlockIndex.ReadsTheRightEntry | benchmark/ycsb/concurrentqueue.h:2255-2274 | the computed offset lands on the entry with the base and block of the index, across wrap-around, reuse and doubling |
| ExplicitBlockIndex.ReusesOnlyEmptyBlocks | benchmark/ycsb/concurrentqueue.h:1838-1855 | when the producer reuses the block ahead, every index it was given for has been emptied |
| ExplicitBlockIndex.ReusesTheEmptyBlock | benchmark/ycsb/concurrentqueue.h:1838-1855 | and it can reuse it if and only if that is so and the block is not one this call took |
| ExplicitBlockIndex.ClaimedAreEmptied | benchmark/ycsb/concurrentqueue.h:2262-2323 | every claimed index is gone or in the hands of a consumer; with all consumers idle exactly the indices below the head are gone |
| ExplicitBlockIndex.IndexIsNoLargerThanNeeded | benchmark/ycsb/concurrentqueue.h:2341-2378 | each index is twice as large as the one before, and the current one, if not the first, has at most twice as many entries as there ever were blocks |
| ExplicitBlockIndex.EnqueueEnds | benchmark/ycsb/concurrentqueue.h:2040-2229 | an enqueue ends after so many steps of its own, whatever consumers do: the producer always has a step to take, each takes it nearer to its end, and no consumer takes it away from there |
| ExplicitBlockIndex.DequeueEnds | benchmark/ycsb/concurrentqueue.h:2233-2323 | so does a dequeue that has its indices |
| ExplicitBlockIndex.NoStepIsBlocked | benchmark/ycsb/concurrentqueue.h:2341-2378 | headers, slots and blocks that a step touches exist |
| ImplicitBlockIndex.Always | benchmark/ycsb/concurrentqueue.h:2611-2685 | the invariant of keys, values and rewinds in every state of every run, failed bulk enqueues included |
| ImplicitBlockIndex.LandsOnItsKey | benchmark/ycsb/concurrentqueue.h:2931-2947 | the lookup lands on the entry whose key is the wanted number, holding the block given to it, through doubling and rewinds |
| ImplicitBlockIndex.TailHasKey | benchmark/ycsb/concurrentqueue.h:2931-2942 | the entry at a tail that was read still has the key it had, though the tail was moved back since |
| ImplicitBlockIndex.NothingLeftBehind | benchmark/ycsb/concurrentqueue.h:2646-2668 | between enqueues, failed ones included, the producer holds exactly the blocks of published, unreleased numbers, each once; a released block is in exactly one consumer's hands until it is in the free list |
| ImplicitBlockIndex.ReleasedOnce | benchmark/ycsb/concurrentqueue.h:2536-2600 | a block is released by one consumer, when its last element is gone and nobody else has an index in it |
| ImplicitBlockIndex.EmptyBlocksAreReleased | benchmark/ycsb/concurrentqueue.h:2536-2600 | a block with no element left has a consumer that is about to release it |
| ImplicitBlockIndex.ClaimedAreEmptied | benchmark/ycsb/concurrentqueue.h:2765-2862 | every claimed index is gone or in the hands of a consumer; with all consumers idle exactly the indices below the head are gone |
| ImplicitBlockIndex.IndicesDouble | benchmark/ycsb/concurrentqueue.h:2949-2991 | each index is twice as large as the one before |
| ImplicitBlockIndex.EnqueueEnds | benchmark/ycsb/concurrentqueue.h:2611-2754 | an enqueue ends after so many steps of its own, also when it has to undo what it did; nothing but a failed allocation makes it give up, and if it does not it ends by publishing |
| ImplicitBlockIndex.DequeueEnds | benchmark/ycsb/concurrentqueue.h:2536-2600 | a dequeue that has its indices ends after so many steps of its own |
| ImplicitBlockIndex.NoStepIsBlocked | benchmark/ycsb/concurrentqueue.h:2886-2991 | entries and headers that a step touches exist |
| BlockElements.WriteIsPossible | benchmark/ycsb/concurrentqueue.h:2147-2165 | while elements of an enqueue are missing, the next one's index has a block |
| BlockElements.ReadsItsElement | benchmark/ycsb/concurrentqueue.h:2266-2279 | the slot a consumer is about to read has the element enqueued at its index |
| BlockElements.NotReadYet | benchmark/ycsb/concurrentqueue.h:2266-2279 | and no consumer has read it |
| BlockElements.StepInv | benchmark/ycsb/concurrentqueue.h:1932-1935 | writing or reading one slot, or another producer's writing into its own blocks, keeps every live slot's element |
| BlockElements.GoesInv | benchmark/ycsb/concurrentqueue.h:2003-2028 | so does every step of the queue: publishing, finding a block, marking elements as gone, reusing and releasing blocks |
| ExplicitElements.ViewIsOk | benchmark/ycsb/concurrentqueue.h:1834-1937 | live indices have blocks, and different numbers different ones, so different live indices have different slots |
| ExplicitElements.QueueTurns | benchmark/ycsb/concurrentqueue.h:2233-2323 | each step of ExplicitBlockIndex is one that BlockElements knows |
| ExplicitElements.EnqueueAppends | benchmark/ycsb/concurrentqueue.h:2040-2229 | each call to enqueue or enqueue_bulk, from beginning to return, appends exactly the elements it was given, in order, and raises the tail by their number, whatever consumers do meanwhile |
| ExplicitElements.HoldsWhatWasPut | benchmark/ycsb/concurrentqueue.h:1834-1937 | in every run, between calls, the elements in the slots in order of index are all those given to calls that returned, and the tail is their number |
| ExplicitElements.ReadsWhatWasClaimed | benchmark/ycsb/concurrentqueue.h:2233-2323 | with all consumers idle exactly the elements below the head have been read, each once |
| ExplicitElements.ReadsWhatWasEnqueued | benchmark/ycsb/concurrentqueue.h:2003-2028 | in every run what is read at an index is what was enqueued there, no index is read twice, and none is marked as gone unread |
| ExplicitElements.SlotsKeepTheirElements | benchmark/ycsb/concurrentqueue.h:2266-2310 | an element is not overwritten before it is read |
| ImplicitElements.ViewIsOk | benchmark/ycsb/concurrentqueue.h:2472-2533 | the same for an implicit producer's index, failed enqueues and releases included |
| ImplicitElements.QueueTurns | benchmark/ycsb/concurrentqueue.h:2536-2600 | each step of ImplicitBlockIndex is one that BlockElements knows; a release takes no live index's block |
| ImplicitElements.EnqueueAppends | benchmark/ycsb/concurrentqueue.h:2611-2754 | each call to enqueue or enqueue_bulk, from beginning to return, appends exactly the elements it was given, in order, and raises the tail by their number, or fails and does neither, whatever consumers do meanwhile |
| ImplicitElements.HoldsWhatWasPut | benchmark/ycsb/concurrentqueue.h:2472-2533 | in every run, between calls, the elements in the slots in order of index are all those given to calls that returned true, and the tail is their number |
| ImplicitElements.ReadsWhatWasClaimed | benchmark/ycsb/concurrentqueue.h:2536-2600 | with all consumers idle exactly the elements below the head have been read, each once |
| ImplicitElements.ReadsWhatWasEnqueued | benchmark/ycsb/concurrentqueue.h:2550-2592 | in every run what is read at an index is what was enqueued there, no index is read twice, and none is marked as gone unread |
| ImplicitElements.SlotsKeepTheirElements | benchmark/ycsb/concurrentqueue.h:2790-2850 | an element is not overwritten before it is read, though released blocks go to other producers |
| ProducerHash.Always | benchmark/ycsb/concurrentqueue.h:3374-3524 | the invariant of tables, tickets and probes in every state of every run |
| ProducerHash.NewCapacity | benchmark/ycsb/concurrentqueue.h:3443-3452 | the new table's capacity is at least the old and more than twice the ticket |
| ProducerHash.SmallestCapacity | benchmark/ycsb/concurrentqueue.h:3449-3452 | the new capacity is the first in the doublings of twice the old one that is more than twice the ticket |
| ProducerHash.NoLargerThanNeeded | benchmark/ycsb/concurrentqueue.h:3443-3471 | tables at least double, and each after the first has at most about four slots for every ticket drawn, of which a thread draws one at most |
| ProducerHash.GrowsAtHalf | benchmark/ycsb/concurrentqueue.h:3440-3480 | a thread adds its key to a table less than half of whose slots have been asked for, unless another thread holds the resize lock |
| ProducerHash.EveryProbeEnds | benchmark/ycsb/concurrentqueue.h:3393-3433 | no probe loop looks at as many slots as its table has |
| ProducerHash.ThreeQuarters | benchmark/ycsb/concurrentqueue.h:3477-3480 | each table holds fewer keys than three quarters of its slots, stale tables included |
| ProducerHash.OneProducerEach | benchmark/ycsb/concurrentqueue.h:3480-3520 | calls return the same producer exactly if they are by the same thread |
| ProducerHash.FindsItAgain | benchmark/ycsb/concurrentqueue.h:3393-3433 | a thread that has a producer never draws a ticket or makes a producer again, even if it was inserted into a stale table |
| ProducerHash.LeavesItsKey | benchmark/ycsb/concurrentqueue.h:3405-3433 | a call returns the thread's own producer and leaves its key in the table that the call took for the current one |
| ProducerHash.WaitsOnlyForResize | benchmark/ycsb/concurrentqueue.h:3440-3524 | each step of a call takes it nearer to its end, except at a table three quarters full while another thread holds the resize lock |
| ProducerHash.OthersDoNotHinder | benchmark/ycsb/concurrentqueue.h:3440-3524 | and no step of another thread takes it away from its end |
| ProducerHash.NeverStuck | benchmark/ycsb/concurrentqueue.h:3393-3433 | the tables in use exist and a thread's own key comes with its value |
| LightweightSemaphore.NextInv | benchmark/ycsb/lightweightsemaphore.h:262-402 | every step of every single and bulk wait, timed or not, and of signal keeps the account |
| LightweightSemaphore.ExactAccount | benchmark/ycsb/lightweightsemaphore.h:262-402 | waiters are max(0, -count) plus permits plus posts to come; initial plus signalled is acquired plus max(0, count) plus permits plus posts to come |
| LightweightSemaphore.NoOverGrant | benchmark/ycsb/lightweightsemaphore.h:298-332 | no more units are handed out than there were, and each call gets between its least and what it asked for |
| LightweightSemaphore.ShortOnlyWhenNoneLeft | benchmark/ycsb/lightweightsemaphore.h:298-402 | in every run each step of a wait, try or timed call keeps what it asked for, and if it returns, it brings all of that, or less while the count is not positive |
| LightweightSemaphore.TakesWhatIsThere | benchmark/ycsb/lightweightsemaphore.h:298-332 | while units are there, a call has two steps of its own that bring all it asked for or all there is |
| LightweightSemaphore.NoLostWakeUp | benchmark/ycsb/lightweightsemaphore.h:393-402 | a waiter is left without permit or post only if the count is negative and every unit is taken |
| LightweightSemaphore.AtRest | benchmark/ycsb/lightweightsemaphore.h:280-296 | with all calls returned no permit is left over, and the count is what was not handed out, timeouts and undone registrations included |
| BlockingQueue.NextInv | benchmark/ycsb/blockingconcurrentqueue.h:326-367 | every step keeps the account of elements and units |
| BlockingQueue.ElementsAccounted | benchmark/ycsb/blockingconcurrentqueue.h:123-130 | inner elements are unclaimed units, units claimed but not dequeued, and elements enqueued but not signalled |
| BlockingQueue.NeverSpinsOnEmpty | benchmark/ycsb/blockingconcurrentqueue.h:326-367 | a consumer past the semaphore has its elements in the inner queue, whatever the others claimed |
| BlockingQueue.BringsWhatItTook | benchmark/ycsb/blockingconcurrentqueue.h:447-455 | each dequeue call returns as many elements as it took units |
| BlockingQueue.NoElementLost | benchmark/ycsb/blockingconcurrentqueue.h:123-130 | what enqueue calls were given is in the inner queue, in the hands of a dequeue call, or was brought by one |
| BlockingQueue.ShortMeansSpokenFor | benchmark/ycsb/blockingconcurrentqueue.h:326-367 | a dequeue call that gets fewer units than it asked for leaves a queue in which every element is claimed, on its way to a waiter, or not signalled yet |
| BlockingQueue.CountsElements | benchmark/ycsb/blockingconcurrentqueue.h:179-186 | at rest the semaphore counts the elements, which are those put and not brought |
| Aggregator.Always | benchmark/ycsb/tbb/aggregator.h:107-176 | the invariant of mailbox, busy flag and operations in every state of every run |
| Aggregator.OneHandler | benchmark/ycsb/tbb/aggregator.h:148-176 | at most one thread handles, though handler_busy is tested and set in two steps |
| Aggregator.OneWaiter | benchmark/ycsb/tbb/aggregator.h:107-146 | the mailbox is non-empty exactly when a thread waits to become handler, and only one does |
| Aggregator.HandlesTheLiving | benchmark/ycsb/tbb/aggregator.h:72-87 | the handler reads, runs and finishes only operations whose callers have not returned, each run once before it is finished; memory may be reused |
| Aggregator.RunsOnce | benchmark/ycsb/tbb/aggregator.h:107-146 | each operation has run exactly once when its call returns |
| LruOrder.Always | benchmark/ycsb/tbb/concurrent_lru_cache.h:239-279 | after every history of retrieves and releases that stays defined counters are live handles, a key is listed once exactly if it is cached and idle, and the list is within the capacity and in order of last release |
| LruOrder.RecentKeysAreHits | benchmark/ycsb/tbb/concurrent_lru_cache.h:264-278 | an idle key is still cached if fewer keys than the capacity became idle since its last release |
| LruOrder.DroppedKeysAreOlder | benchmark/ycsb/tbb/concurrent_lru_cache.h:266-274 | only least recently released idle entries are evicted: every idle key kept became idle after the last release of every key dropped |
| LruCache.Cache.constructor | benchmark/ycsb/tbb/concurrent_lru_cache.h:82-86 | the empty history's state |
| LruCache.Cache.Retrieve | benchmark/ycsb/tbb/concurrent_lru_cache.h:239-256 | refines LruOrder's retrieve: one handle more, the entry off the list through its stored position, a new entry without a value if the key was absent, all other records with handles untouched |
| LruCache.Cache.Publish | benchmark/ycsb/tbb/concurrent_lru_cache.h:91-93 | storing the value changes that record's value and flag and nothing else |
| LruCache.Cache.MakeRoom | benchmark/ycsb/tbb/concurrent_lru_cache.h:266-275 | the eviction loop takes exactly the back of a full list and its record |
| LruCache.Cache.EndUsage | benchmark/ycsb/tbb/concurrent_lru_cache.h:258-279 | refines LruOrder's release; undefined if and only if the capacity is zero and the last handle goes; records with handles survive with their values |
| LruCache.Cache.HandlesAreNotDangling | benchmark/ycsb/tbb/concurrent_lru_cache.h:259-263 | the three assertions of signal_end_of_usage_serial hold for every handle |
| LruCache.Cache.HandleOperations | benchmark/ycsb/tbb/concurrent_lru_cache.h:229-236 | a batch is its operations one after the other, and gives one handle per retrieve; it is undefined if and only if the capacity is zero and some release in it meets a last reference |
| LruCache.WithoutHistory | benchmark/ycsb/tbb/concurrent_lru_cache.h:264-272 | a cache without history items for which a release is undefined |
| Lehmer.PowerSum | benchmark/ycsb/random.h:32-38 | stepping i + j times is stepping i times and j times |
| LehmerCertificate.Generator | benchmark/ycsb/random.h:30-37 | 16807 to the power 2^31-2 is one modulo 2^31-1, and to the power of (2^31-2)/q it is not, for each prime factor q |
| RandomNumbers.Order | benchmark/ycsb/random.h:35-37 | the powers of 16807 that are one are exactly those with a multiple of 2^31-2 as exponent |
| RandomNumbers.Fold | benchmark/ycsb/random.h:38-48 | the product fits 64 bits, its folded halves 32, never equal the modulus, and are one subtraction from the remainder |
| RandomNumbers.StepIsBijection | benchmark/ycsb/random.h:32-44 | a step permutes 1 to 2^31-2, with 1407677000 as the inverse factor |
| RandomNumbers.CyclesThroughEveryNumber | benchmark/ycsb/random.h:35-37 | from any seed every number from 1 to 2^31-2 is reached |
| RandomNumbers.ReturnsToSeed | benchmark/ycsb/random.h:35-37 | the seed comes back after k steps if and only if 2^31-2 divides k |
| RandomNumbers.Random.constructor | benchmark/ycsb/random.h:19-26 | seeds are cut to 31 bits and the two that would never change replaced |
| RandomNumbers.Random.Next | benchmark/ycsb/random.h:28-50 | shift, mask, add and conditional subtraction give seed * 16807 mod 2^31-1 |
| Shares.TotalPermuted | benchmark/facebook/distributions.cc:51-65 | the total of the weights does not depend on their order, so keyrange_rand_max_ stays right after the shuffle |
| Shares.OneShareEach | benchmark/facebook/distributions.cc:81-95 | a number falls to one share at most |
| Shares.ShareSize | benchmark/facebook/distributions.cc:67-95 | exactly weight(i) of the numbers below the total fall to share i, none if its weight is zero |
| Distributions.KeyGenerator.Initiate | benchmark/facebook/distributions.cc:5-75 | after accumulation, shuffle and recomputation each weight, of those that were there and those given behind them, is at the place the swaps bring it to, each range starts where those before it end, and keyrange_rand_max_ is the total of those given; the generator is valid if and only if there were no ranges before |
| Distributions.KeyGenerator.Shuffle | benchmark/facebook/distributions.cc:60-65 | for any draws each range ends where the swaps bring its position, and the weights are permuted |
| Distributions.PlacesDiffer | benchmark/facebook/distributions.cc:60-65 | different ranges end in different positions |
| Distributions.KeyGenerator.LayOut | benchmark/facebook/distributions.cc:67-72 | starts become the sums of the weights before |
| Distributions.KeyGenerator.FindRange | benchmark/facebook/distributions.cc:83-95 | the search ends at the range whose share the number falls to, past all zero-weight ranges; a negative number ends at range 0 |
| Distributions.KeyGenerator.KeyId | benchmark/facebook/distributions.cc:77-108 | the key lies in the range that the number's remainder falls to if and only if the number is not negative or a multiple of both keyrange_rand_max_ and the range size; where it lies otherwise |
| Distributions.NegativeNumber | benchmark/facebook/distributions.cc:77-108 | a valid generator and a negative number whose key is in no range |
| Distributions.QueryDecider.Initiate | benchmark/facebook/distributions.cc:117-122 | the running sums of the shares are appended; the table decides if and only if it was empty before |
| Distributions.QueryDecider.GetType | benchmark/facebook/distributions.cc:126-139 | the type returned is the one whose share the remainder of the absolute value falls to |
| KeyCodec.GenerateKeyFromInt | benchmark/facebook/rocksdb_benchmark_tool.cc:164-175 | the buffer holds the low bytes of the number, most significant first, then the padding |
| KeyCodec.ConvertKeyToInt | benchmark/facebook/rocksdb_benchmark_tool.cc:7-14 | the result is the number the bytes spell in 64 signed bits, for any number of bytes |
| KeyCodec.RoundTrip | benchmark/facebook/rocksdb_benchmark_tool.cc:7-14 | with keys of eight bytes or more every number below 2^63 comes back, and every other 64-bit number as the signed one with its bits |
| KeyCodec.ShortRoundTrip | benchmark/facebook/rocksdb_benchmark_tool.cc:164-168 | a key of n < 8 bytes brings a number back if and only if it is below 256^n |
| KeyCodec.NumericOrder | benchmark/facebook/rocksdb_benchmark_tool.cc:164-175 | keys compare byte by byte as their numbers compare, padding included, and no two numbers share a key |
| KeyCodec.OrderOfKeys | benchmark/facebook/rocksdb_benchmark_tool.cc:164-175 | keys of any size compare as the numbers modulo what their bytes hold |

## Left out

- Weak memory orders and fences: steps are sequentially consistent.
- Progress of the loops that wait for other threads or repeat a lost CAS (free list, semaphore, aggregator, resize lock). The
  calls on an explicit or implicit producer's blocks are proved to end by their own steps, probe and search loops to end,
  and no step meets a missing header, slot or table.
- Word widths in the queue's protocols: counters are unbounded in the transition systems, and `CircularOrder` with the
  two word lemmas of `DequeueProtocol` carries the comparisons over. The free list's reference words are modelled
  with their 32 bits, for fewer than 2^31 - 2 threads.
- Throwing element constructors and failed allocations in the explicit producer, with the rollback after a partly
  failed explicit bulk enqueue (`concurrentqueue.h:2078-2107`): it keeps injected blocks and a rewritten front.
  The implicit producer's failures and rollback are modelled. Elements are constructed after their block is in the index;
  the source does it before for elements whose constructor may throw.
- Thread-exit hooks of the producer hash, and producers' reuse after a thread has gone; thread ids are the threads.
- ConcurrentHashMap.HashMap.Acquire: one thread at a time, without the bucket lock and its try_acquire with re-check.
- ConcurrentHashMap.HashMap.Find: one thread at a time, without bucket locks, element accessors and the restart after a mask race.
- ConcurrentHashMap.HashMap.Insert: one thread at a time, without bucket locks, element accessors and the restart after a mask race.
- ConcurrentHashMap.HashMap.Erase: one thread at a time, without the lock upgrade, the element's lock and the restart after a mask
  race. What the restarts rely on is proved for any growth in `GrowthWhileSearching`, `CheckRehashingCollision` and `MissIsFinal`.
- The hash map's `clear`, iterators, copying and `range`. Hash codes and bucket numbers are unbounded; the 64 segments
  of the table are not a limit.
- The wait until another thread has stored a cache entry's value: `Publish` is a step of its own, and a handle is
  given back only when its value is there.
- The (int) cast of the semaphore's toRelease, and failing untimed waits of the kernel semaphore, which is a counter here.
- Floating point: the weights, shares and thresholds that come out of it are arbitrary non-negative numbers here, and the branch
  of `DistGetKeyID` with other key_dist parameters is not modelled. Sums of weights and the negation in `GetType` are unbounded
  integers, so the smallest 64-bit number, whose negation overflows, is not told apart.
- Random64: the shuffle is proved for every sequence of draws.
- Prefixes and existing keys in `GenerateKeyFromInt`, and its big-endian branch.
- `benchmark/facebook/random.h`, `PerformanceCounter`, `enumerable_thread_specific.h`, `blocked_range*.h`, and the database
  wrappers: other copies of modelled arguments, or thin code.
