# Verified models of the kernel's bookkeeping

This project models the parts of the kernel and its tools in which the bookkeeping is
hard to get right, and proves what they are relied on for. Each part is modelled in the
form of its source: lists, counters and tables that the code changes in place are fields
of a class or an array, its loops are loops, and each method is proved against a
specification on values. Protocols between threads are state machines with one step for
each critical section, and their properties hold for every run.

- **Cache-manager workers** (`LazyWriter`, `LazyWriterRuns`, `LazyWriterThrottle`,
  `LazyWriterDrain`, `LazyWriterQueues`): express and regular queue, idle list, active count, throttle,
  `SetDone` barriers. An item is named by its posting, so a reused block counts as a new item.
- **Boot drivers** (`DriverLinks`, `TagOrder`, `GroupOrder`, `BootOrder`): a doubly linked
  ring sorted by group names read backwards from a `REG_MULTI_SZ` buffer, then by tag.
- **Registry key control blocks** (`KcbCache`, `KcbRuns`, `KcbEffects`, `KcbTable`): a reference-counted
  tree with delayed close and delayed dereference. `users`, `converting` and `leaked` are
  history that says who owes a dereference.
- **Lock arrays** (`KcbLocks`, `KcbLockOrder`): sorting and deduplication in place, and
  the absence of circular waits that follows.
- **Registry callbacks** (`RegistryCallbacks`): walkers that drop the lock during a call
  against threads that unregister, wait, unlink and free.
- **Page-grouped allocators** (`CmAlloc`): one class for both allocators, over any item
  and header size that fit a page. What the pool answers is a parameter.
- **The file cache** (`VacbCache`, `VacbRuns`, `VacbTable`, `PurgeRanges`, `FlatFile`,
  `FileCache`, `FileRuns`): 256 KB views with reference counts, sorted lists, LRU and dirty
  lists and totals; every interleaving of the threads that use them; and cached reads,
  writes, flushes, evictions and purges, in any sequence, on top. Mm is a store of bytes of
  which some are resident, some of those dirty, the rest on disk, and it writes and drops
  whole pages (`FlatFile`); which pages are in use and which cannot be written are parameters.
- **The loader's page tables** (`Paging`): the loops of `PagingInit` and the walk of
  section 4.3 of volume 3A of the Intel SDM.
- **The INIT closure** (`InitClosure`) and **the logo tool** (`PngRows`, `LogoBitmap`;
  section 6 of RFC 2083).

`Lists` holds what several of them share. Within a module the pattern is the same: the
data, the operations as functions, the invariant in named parts, one small lemma for each
part and operation, the theorem over runs, and the class whose methods refine the functions.

Where the code differs from what one would expect, the code is followed:

- `CmpOrderGroup` inserts one slot too early when it stops at a smaller tag. The result is
  sorted all the same, because the walk goes on from the moved node.
- The dirty flag of a view is tested outside the locks in three places: by
  `CcRosReleaseVacb` before it marks, by `CcFlushCache` before `CcRosFlushVacb` unmarks, and
  not at all by `CcRosFlushVacb` before it marks again after a failed flush. Three short
  runs end with a view marked or unmarked twice (`TwoReleases`, `FailedFlush`,
  `TwoFlushes`), and `InvIffOrderly` says exactly which runs do not. The methods of
  `VacbTable` and `FileCache` are the runs of one thread.
- `CmpDelayDerefKeyControlBlock` loses the reference when it cannot allocate; the
  model counts it as `leaked`, so such a KCB is never freed too early but never freed either.
  `DerefLockedLoses` says exactly when that happens.
- `CcPurgeCacheSection` asks only about views that start in the range and end before its
  end; the rest it leaves to `MmPurgeSegment`, which drops pages one by one and gives up at
  the first one in use. So a page under a view in use goes if Cc does not ask about the view
  and no page from the start of the range up to it is in use (`DiscardsUnderNobodyIff`), and
  a purge that fails in Mm has already dropped the pages in front (`FailedPurgeDiscards`,
  `FailsUnchangedIff`). Whole pages go, also where the range starts or ends inside one
  (`OnlyTheRangeIff`).
- A purge that fails has by then taken, unmarked, the views in front, while Mm keeps what it
  did not drop: dirty bytes may be left that no dirty view covers (`RefusedPurgeLosesTrack`,
  `PurgeTracksIff`).
- `MmFlushSegment` reports success even if a page could not be written. The page stays dirty,
  but its view does not: `FlushView` says exactly when dirty bytes lose their view that way.
- The comments speak of 32 levels where the lock array has room for 34 entries; the model
  asks for enough room.

## Model

| member | source | states |
|---|---|---|
| LazyWriterRuns.Barrier | ntoskrnl/cc/lazywrite.c:264-348 | In every run of any number of posters, workers, scans and waiters: once a SetDone item has been picked, every item that reached either queue before it did has been removed and fully handled, so the event is a true barrier |
| LazyWriterRuns.WaitBarrier | ntoskrnl/cc/lazywrite.c:377-410 | Seen from the caller: when the wait's item has been picked, everything queued before the call has been handled |
| LazyWriterRuns.GuardsStep | ntoskrnl/cc/lazywrite.c:264-348 | The inductive heart of the barrier: every step keeps "x is handled, or the barrier is still unpicked and x is posted and, where both are in the regular queue, in front of it" |
| LazyWriterRuns.BarrierPick | ntoskrnl/cc/lazywrite.c:297-306 | With an empty express queue and one active worker, no other worker handles anything: the guard of the SetDone test is enough |
| LazyWriterRuns.NothingStranded | ntoskrnl/cc/lazywrite.c:61-90 | In every reachable state idle and active workers add up to the configured total, the throttle flag means an active worker, and a non-empty queue means an active worker |
| LazyWriter.InvStep | ntoskrnl/cc/lazywrite.c:52-410 | Every step keeps the whole invariant: each item in exactly one place, worker accounting, barriers only on the way through the regular queue, throttle ownership, attended queues |
| LazyWriter.KeepsThrottle | ntoskrnl/cc/lazywrite.c:272-306 | A raised throttle is never left behind: the barrier that raised it still heads the regular queue, or some worker handles a barrier or is about to lower the flag |
| LazyWriterThrottle.TurnThrottles | ntoskrnl/cc/lazywrite.c:272-306 | After a turn the throttle is up if and only if a barrier is next in line with more than one worker active, or it was up and the worker had not just handled a barrier |
| LazyWriterThrottle.NobodyStarts | ntoskrnl/cc/lazywrite.c:70-80 | While the throttle is up no step of anybody starts a worker |
| LazyWriterThrottle.LoweredBy | ntoskrnl/cc/lazywrite.c:272-277 | Only a worker that has handled a barrier takes the throttle down |
| LazyWriterThrottle.LowersIff | ntoskrnl/cc/lazywrite.c:330-333 | A worker comes to take it down exactly by finishing a SetDone item, no other |
| LazyWriterThrottle.HeldUntilDone | ntoskrnl/cc/lazywrite.c:297-306 | In every run, once up the throttle stays up and the workers at work only become fewer until a barrier has been handled |
| LazyWriter.KeepsAttended | ntoskrnl/cc/lazywrite.c:61-90 | No step leaves work queued with nobody active |
| LazyWriter.KeepsWorkers | ntoskrnl/cc/lazywrite.c:70-80 | The idle list holds exactly the idle threads and the counter counts the others |
| LazyWriterDrain.QuietShrinks | ntoskrnl/cc/lazywrite.c:264-348 | Every step that works queued items off leaves strictly less work |
| LazyWriterDrain.PaidRunEnds | ntoskrnl/cc/lazywrite.c:145-190 | A schedule that works off what is queued, in which every scan that has begun may post one WriteBehind item of its own, is no longer than the work left |
| LazyWriterDrain.BusyCanStep | ntoskrnl/cc/lazywrite.c:264-348 | A worker that is not idle can always take its next step: workers never block each other |
| LazyWriterDrain.DrainedIsDone | ntoskrnl/cc/lazywrite.c:264-348 | Where no such step is possible any more, every posted item has been handled |
| LazyWriterDrain.Drains | ntoskrnl/cc/lazywrite.c:145-348 | From any reachable state with a worker, working off what is queued ends, in whatever order and whatever the scans post themselves, with every posted item handled |
| LazyWriterQueues.WorkQueues.PostWorkQueue | ntoskrnl/cc/lazywrite.c:52-91 | Keeps the invariant; the item is last in its queue; the worker started is the head of the idle list, none is started exactly if all are at work or a throttle is up, and either way somebody is active who will see the item |
| LazyWriterQueues.WorkQueues.WorkerTurn | ntoskrnl/cc/lazywrite.c:264-348 | Keeps the invariant; takes the head of the express queue, or of the regular one if that is empty, or leaves the loop, exactly if both are empty or a barrier is next and others are active; then the throttle goes up if there is work, the worker is last on the idle list and the count falls. A worker that takes a barrier is the only one at work with the express queue empty |
| LazyWriterQueues.WorkQueues.ItemDone | ntoskrnl/cc/lazywrite.c:312-342 | The item counts as handled and keeps the invariant; the worker will lower the throttle if and only if the item is a barrier |
| LazyWriterQueues.WorkQueues.QueueWaiter | ntoskrnl/cc/lazywrite.c:377-410 | Keeps the invariant, and from here on the waiter's item guards every item that is queued already |
| LazyWriterQueues.WorkQueues.TakePostTick | ntoskrnl/cc/lazywrite.c:154-167 | A scan takes over the whole post-tick queue in order and leaves it empty, under the invariant |
| LazyWriterQueues.WorkQueues.PostAll | ntoskrnl/cc/lazywrite.c:184-190 | The scan's own list ends up at the tail of the regular queue in order, all of it, under the invariant |
| TagOrder.OrderGroup | ntoskrnl/config/cmboot.c:953-1015 | CmpOrderGroup ends, permutes exactly the nodes of the segment, leaves all others in place, and sorts the segment by tag, although a move may land one slot too early |
| TagOrder.Reinserted | ntoskrnl/config/cmboot.c:979-1010 | Every re-insertion advances the sorted frontier, repairs the single inverted pair, or moves that pair towards the start: the measure that makes the loop end |
| TagOrder.MoveFromFrontier | ntoskrnl/config/cmboot.c:995-1006 | Inserting in front of the node the backward scan stopped at leaves the prefix sorted or with exactly one inverted pair |
| TagOrder.MoveFromInversion | ntoskrnl/config/cmboot.c:995-1006 | Re-inserting out of the inverted pair repairs it or moves it strictly back |
| TagOrder.FindSlot | ntoskrnl/config/cmboot.c:995-1003 | The backward scan stops at the first node not bigger than the moved one, or at the start; all nodes passed are bigger |
| TagOrder.MoveNodeBack | ntoskrnl/config/cmboot.c:979-1010 | The moving branch keeps the walk's invariant on the relinked list, with start and end nodes brought up to date, and gets closer to the end |
| TagOrder.WalkStep | ntoskrnl/config/cmboot.c:968-1011 | One turn of the loop keeps the invariant and decreases the measure |
| DriverLinks.DriverList.RemoveEntryList | ntoskrnl/config/cmboot.c:993 | Relinking two neighbours takes exactly the one node out of the ring |
| DriverLinks.DriverList.InsertTailList | ntoskrnl/config/cmboot.c:1006 | Relinking puts the node right in front of the anchor |
| DriverLinks.DriverList.InsertHeadList | ntoskrnl/config/cmboot.c:869-871 | The node becomes the first of the ring |
| GroupOrder.RankIsFirst | ntoskrnl/config/cmboot.c:841-873 | The rank of a driver is the first place of its group in the order list |
| GroupOrder.MovePass | ntoskrnl/config/cmboot.c:854-873 | The walk that moves nodes to the head while it walks brings the group's drivers to the front in reverse order and keeps the others in order |
| GroupOrder.PassRanks | ntoskrnl/config/cmboot.c:854-873 | One pass keeps the list in rank order, now with the new name as first |
| GroupOrder.GroupsPermute | ntoskrnl/config/cmboot.c:828-881 | CmpDoSort loses and invents no driver |
| GroupOrder.GroupsInOrder | ntoskrnl/config/cmboot.c:828-881 | After CmpDoSort the drivers come in the order of the first place their group has in the list, those of no listed group last |
| GroupOrder.SameNameIff | ntoskrnl/config/cmboot.c:867 | Two names are the same if and only if they are the same string after upcasing character by character; without an upcase table, if and only if they are equal |
| GroupOrder.GroupTurnedRound | ntoskrnl/config/cmboot.c:854-873 | CmpDoSort leaves the drivers of a group the list names once in reverse order |
| GroupOrder.UnlistedKeepOrder | ntoskrnl/config/cmboot.c:828-881 | Drivers of no listed group end up at the end in their old order |
| GroupOrder.UnlistedHaveNoRank | ntoskrnl/config/cmboot.c:828-881 | They are exactly the drivers no name of the list matches |
| BootOrder.SplitHolds | ntoskrnl/config/cmboot.c:943-947 | Reading a well-formed list forward at the NULs gives its names back |
| BootOrder.ScanBack | ntoskrnl/config/cmboot.c:841-845 | The backward pointer scan finds the bounds of the name in front of a NUL, whatever lies in front of the buffer |
| BootOrder.ScanAgreesWithSplit | ntoskrnl/config/cmboot.c:837-877 | On a well-formed list the names the backward scan finds are those of the forward reader, in reverse order of processing |
| BootOrder.DoSort | ntoskrnl/config/cmboot.c:828-881 | The code of CmpDoSort, on any NUL-terminated buffer, sorts by the names the scan finds |
| BootOrder.FindRun | ntoskrnl/config/cmboot.c:1044-1068 | The inner loop finds the longest run of equal groups from its first node |
| BootOrder.ResolveDependencies | ntoskrnl/config/cmboot.c:1027-1076 | Every run of equal groups is sorted by tag, the sequence of groups stays as it was, and the list is only permuted |
| BootOrder.SameRankSameGroup | ntoskrnl/config/cmboot.c:854-873 | Drivers of the same listed rank are of the same group |
| BootOrder.SameGroupSameRank | ntoskrnl/config/cmboot.c:854-873 | Drivers of the same group have the same rank |
| BootOrder.RanksAndRuns | ntoskrnl/config/cmboot.c:1027-1076 | A list in rank order whose runs are sorted by tag is in boot order |
| BootOrder.OrderBootDrivers | ntoskrnl/config/cmboot.c:1030-1076 | Sorting by groups and then resolving: a permutation of the drivers in which, by the upcased names themselves, in front of a driver of the n-th listed name stand only drivers of that name or an earlier one, and of that name only those with no higher tag; unlisted drivers come last; tags ascend in every run of one group |
| BootOrder.OrderedByName | ntoskrnl/config/cmboot.c:1030-1076 | Order by rank is that order over the names |
| BootOrder.SameGroupIff | ntoskrnl/config/cmboot.c:1061 | Two drivers are of one group if and only if their upcased groups are the same string |
| KcbRuns.CountsCover | ntoskrnl/config/cmkcbncb.c:357-427 | In every reachable state each KCB's count is the number of its children, users, queued dereferences and threads converting a lock; parents and queued KCBs are alive; an unreferenced KCB is on the delayed-close list; no key has two KCBs in the table |
| KcbRuns.GoodStep | ntoskrnl/config/cmdelay.c:56-186 | Every operation (create, reference, dereference, delayed close, delayed dereference, marking) keeps that balance |
| KcbRuns.GoodRun | ntoskrnl/config/cmdelay.c:56-186 | And so does every run |
| KcbRuns.CreateGood | ntoskrnl/config/cmkcbncb.c:655-893 | Creating a KCB keeps the balance on all its paths: an existing KCB found, no parent reference to be had, no name to be had, a new KCB linked |
| KcbEffects.CreatedOutcome | ntoskrnl/config/cmkcbncb.c:655-893 | What creating comes to: the KCB of the key gets a user; a parent at its limit or a path too deep changes nothing; otherwise the new KCB hangs one level below its parent, whose count goes up by one, or without a name is gone again with the parent as before, freed or cached if it had no reference |
| KcbRuns.CloseWorkerGood | ntoskrnl/config/cmdelay.c:56-186 | So does the delayed-close worker, whether it frees the oldest KCB or moves it to the head |
| KcbCache.CleanUpInv | ntoskrnl/config/cmkcbncb.c:476-513 | Freeing a KCB and letting its parent go, directly or through the queue, keeps the balance and ends, however long the chain of parents |
| KcbCache.DerefLockedInv | ntoskrnl/config/cmkcbncb.c:606-637 | Dropping a reference under the lock keeps the balance, whether the KCB stays, is cached or is cleaned up |
| KcbCache.DereferenceInv | ntoskrnl/config/cmkcbncb.c:571-602 | The same for the caller without the exclusive lock |
| KcbCache.DelayDerefInv | ntoskrnl/config/cmdelay.c:286-331 | Queueing a dereference keeps the balance; a failed allocation loses the reference and nothing else |
| KcbCache.LastReference | ntoskrnl/config/cmkcbncb.c:606-637 | A last dereference frees the KCB if and only if lazy flush is held, it is marked no-delay or deleted, or no delay item is to be had; otherwise it is cached at the head of the list |
| KcbEffects.OthersRemain | ntoskrnl/config/cmkcbncb.c:580-592 | While others remain a dereference takes one off the count and changes nothing else |
| KcbEffects.DerefLockedLoses | ntoskrnl/config/cmdelay.c:286-331 | A dereference loses a reference for good if and only if the KCB is freed without the exclusive lock, its parent has no other reference, and no delay item is to be had for the parent |
| KcbEffects.CleanUpLoses | ntoskrnl/config/cmkcbncb.c:476-513 | Freeing a KCB queues, drops or loses exactly the reference on its parent; under the exclusive lock nothing is queued and nothing lost |
| KcbEffects.NothingLost | ntoskrnl/config/cmdelay.c:286-331 | With memory for delay items no operation loses a reference |
| KcbEffects.NoneLeaks | ntoskrnl/config/cmdelay.c:286-331 | Nor does any run |
| KcbEffects.DerefLockedWent | ntoskrnl/config/cmkcbncb.c:606-637 | Under the exclusive lock, all the way up: only KCBs that are to go at once are freed, and one that loses its last reference and is not is on the delayed-close list |
| KcbTable.Cache.AddReference | ntoskrnl/config/cmkcbncb.c:399-427 | Keeps the balance with one more user; fails, without effect, exactly at the limit of the 16-bit count |
| KcbTable.Cache.BeginReference | ntoskrnl/config/cmkcbncb.c:362-378 | A first reference under a shared lock: always possible, keeps the balance, and the KCB has a count while the lock is given up |
| KcbTable.Cache.EndReference | ntoskrnl/config/cmkcbncb.c:380-423 | With the lock held again the KCB is still there, referenced by one more user and off the delayed-close list, whoever took it off |
| KcbTable.Cache.TakeOffDelayedClose | ntoskrnl/config/cmdelay.c:425-474 | Exactly this KCB leaves the list, and the element count still counts the list |
| KcbTable.Cache.QueueDereference | ntoskrnl/config/cmdelay.c:286-331 | The reference in hand is given up and the balance kept, and the KCB is still there with a count |
| KcbTable.Cache.CleanUpKcb | ntoskrnl/config/cmkcbncb.c:476-513 | Starting from an unreferenced KCB that is on no list, the mutually recursive clean-up ends and keeps the balance |
| KcbTable.Cache.DereferenceLocked | ntoskrnl/config/cmkcbncb.c:606-637 | Gives up the reference in hand and keeps the balance, with CmpAddToDelayedClose |
| KcbTable.Cache.DereferenceKcb | ntoskrnl/config/cmkcbncb.c:571-602 | Of several references exactly one goes and nothing else changes; the last one frees the KCB or caches it at the head of the list, by the exact condition; a reference on the parent is lost exactly if it is the last and no delay item is to be had; the balance is kept |
| KcbTable.Cache.DerefWorker | ntoskrnl/config/cmdelay.c:226-263 | The worker ends with the queue empty and the balance kept, although cleaning up a KCB may queue its parent meanwhile |
| KcbTable.Cache.CloseWorker | ntoskrnl/config/cmdelay.c:54-186 | Makes at most 512 turns, says whether the list has its size again, and frees only KCBs without a reference; if no reference is being taken it closes exactly the oldest entries, as many as are too many and at most 512 |
| KcbTable.Cache.CloseOldest | ntoskrnl/config/cmdelay.c:126-161 | One turn keeps the balance: the oldest entry is freed and no longer counted if and only if it is still unused, else it goes to the head |
| KcbTable.ClosedOldestKeeps | ntoskrnl/config/cmdelay.c:135-161 | Closing the oldest entry frees at most that KCB: whoever is referenced stays so |
| KcbTable.DerefWorkerShrinks | ntoskrnl/config/cmdelay.c:226-263 | Each queued dereference leaves less to do, even when it queues the parent |
| KcbLocks.SortKcbArray | ntoskrnl/config/cmkcbncb.c:1209-1254 | Sorting and removing duplicates in place leaves a strictly ascending array of the same indices and touches nothing behind it |
| KcbLocks.ExchangeSort | ntoskrnl/config/cmkcbncb.c:1220-1232 | The exchange sort sorts and keeps the set of indices |
| KcbLocks.RemoveDuplicates | ntoskrnl/config/cmkcbncb.c:1234-1250 | Closing the gaps left by equal neighbours makes a sorted array strictly ascending and loses no index |
| KcbLockOrder.LockTable.BuildArray | ntoskrnl/config/cmkcbncb.c:1300-1364 | The array holds, ascending, exactly the index of the KCB, those of the remaining subkeys, and the parent's if there is one and the whole path matched |
| KcbLockOrder.LockTable.LockArray | ntoskrnl/config/cmkcbncb.c:1175-1195 | A thread nobody is in the way of goes through the protocol's steps: the invariant holds, and it holds exactly the array's indices |
| KcbLockOrder.LockTable.UnlockArray | ntoskrnl/config/cmkcbncb.c:1144-1155 | Releasing last index first keeps the invariant; the thread is gone, and so are exactly its locks |
| KcbLockOrder.LockTable.LockAndUnlock | ntoskrnl/config/cmkcbncb.c:1144-1195 | Locking and unlocking leaves the protocol's state as it was |
| KcbLockOrder.InvStep | ntoskrnl/config/cmkcbncb.c:1144-1195 | Every step of any number of threads keeps: the table holds exactly what each thread got, and an exclusive holder is alone |
| KcbLockOrder.HoldsBelow | ntoskrnl/config/cmkcbncb.c:1175-1195 | Whatever a thread holds lies below what it asks for |
| KcbLockOrder.NoCircularWait | ntoskrnl/config/cmkcbncb.c:1175-1195 | No chain of waits, of whatever length, closes to a circle |
| KcbLockOrder.Progress | ntoskrnl/config/cmkcbncb.c:1144-1195 | While there are threads, one of them can go on |
| KcbLockOrder.LockOrderHolds | ntoskrnl/config/cmkcbncb.c:1144-1254 | In every run: exclusion, no circular wait, and no lock left when the threads are gone |
| RegistryCallbacks.InvStep | ntoskrnl/config/cmhook.c:58-198 | Every interleaving of walkers, registrations and unregistrations keeps: the list is made of live blocks, rundown counts count the walkers inside, every pending callback has one unregistering thread, every walker stands on a listed block |
| RegistryCallbacks.NeverDangling | ntoskrnl/config/cmhook.c:69-96 | In every reachable state a walker's entry is listed and live, an unregistering thread's block is live, and no two threads unregister the same callback: each is freed once |
| RegistryCallbacks.PendingIsOwned | ntoskrnl/config/cmhook.c:157-185 | In every reachable state a callback that walks pass over has a thread that is unregistering it |
| RegistryCallbacks.NeverCalledAgain | ntoskrnl/config/cmhook.c:151-184 | After a successful unregister the function is not running and is never called again, in any continuation |
| RegistryCallbacks.NotRunning | ntoskrnl/config/cmhook.c:173-180 | From the end of the rundown wait on nobody is inside the function |
| RegistryCallbacks.PendingOnlyDrains | ntoskrnl/config/cmhook.c:74-75 | Once a callback is marked its rundown count only falls |
| RegistryCallbacks.WalkComplete | ntoskrnl/config/cmhook.c:69-96 | A walk that ends without failure has called, once each, every callback on the list that is not being unregistered |
| RegistryCallbacks.WalkNone | ntoskrnl/config/cmhook.c:67-75 | A walk that ends before its first call found only callbacks that are being unregistered |
| RegistryCallbacks.Registry.Add | ntoskrnl/config/cmhook.c:110-143 | The callback is last in the list, callable, with nobody inside; every walker keeps its place |
| RegistryCallbacks.Registry.CallFrom | ntoskrnl/config/cmhook.c:69-80 | The loop stops at the first callable entry with protection taken, or ends the walk |
| RegistryCallbacks.Registry.BeginCalls | ntoskrnl/config/cmhook.c:67-80 | The first call is that of the first entry nobody is unregistering, and there is none exactly if all are; the invariant is kept |
| RegistryCallbacks.Registry.ContinueCalls | ntoskrnl/config/cmhook.c:84-96 | Coming back from a call is always possible and drops its protection; after a success the next call is that of the first entry behind it that nobody is unregistering, after a failure there is none |
| RegistryCallbacks.Registry.MarkPending | ntoskrnl/config/cmhook.c:157-171 | Unregistering succeeds if and only if the cookie is listed and nobody unregisters it; a failure changes nothing |
| RegistryCallbacks.Registry.RemoveEntry | ntoskrnl/config/cmhook.c:176-180 | After the wait the block is still listed, and unlinking keeps every walker's place |
| RegistryCallbacks.Registry.FreeBlock | ntoskrnl/config/cmhook.c:182-184 | The block is live until here and then gone |
| CmAlloc.Allocator.Allocate | ntoskrnl/config/cmalloc.c:109-263 | Hands out something nobody holds, or fails exactly when free list, page and pool are all exhausted; takes a page only if the free list is empty; keeps: FreeCount counts the page's free items, no item is free and in use, every held page has an item in use |
| CmAlloc.Allocator.Free | ntoskrnl/config/cmalloc.c:51-107 | Takes exactly the item back; releases the page if and only if it was the last one in use there, and then no item of it stays on the list |
| CmAlloc.Allocator.AddPage | ntoskrnl/config/cmalloc.c:156-174 | The filling loop links every item of the page once, in order |
| CmAlloc.Allocator.DropPage | ntoskrnl/config/cmalloc.c:285-299 | The unlinking loop takes exactly the page's items off the list |
| CmAlloc.Allocator.TakeHead | ntoskrnl/config/cmalloc.c:125-152 | The head of the free list is held by nobody and its page's FreeCount is not zero |
| CmAlloc.FullMeansUnused | ntoskrnl/config/cmalloc.c:84-87 | FreeCount reaches the number of items exactly when nothing of the page is in use |
| CmAlloc.HeadCounted | ntoskrnl/config/cmalloc.c:140-142 | The assertion on FreeCount holds |
| CmAlloc.PageOfItem | ntoskrnl/include/internal/cm_x.h:288 | Masking an item's address gives its page |
| CmAlloc.ItemsDisjoint | ntoskrnl/include/internal/cm.h:123-126 | Two different items share no byte, for every item size and header size that fit a page |
| CmAlloc.PerPageIsMost | ntoskrnl/include/internal/cm.h:123-126 | A page holds as many items as fit, and one more would not |
| CmAlloc.HeldApart | ntoskrnl/config/cmalloc.c:109-195 | Two blocks handed out never overlap |
| VacbRuns.EveryState | ntoskrnl/cc/view.c:456-929 | In every run of possible steps in which nobody comes between a test of the dirty flag and what is done about it: a view's count is one for the list, one if dirty, one for each thread that uses it; the dirty list holds exactly the dirty views; the totals, in all and by file, are 64 pages for each; a view can be freed if and only if it is clean and unheld, and is then on no list; no block has two views |
| VacbRuns.InvStep | ntoskrnl/cc/view.c:456-929 | A critical section keeps the whole invariant if and only if it does not mark a dirty view or unmark a clean one |
| VacbRuns.InvIffOrderly | ntoskrnl/cc/view.c:591-620 | With the flag tested outside the locks, the invariant holds in every state of a run of possible steps if and only if at each marking and unmarking, since the acting thread's own test (or, for a failed flush, its own unmark), the last marking or unmarking of the view by others, if any, left the flag as the thread saw it |
| VacbRuns.TwoReleases | ntoskrnl/cc/view.c:603-606 | Two holders that both find the view clean and then both mark it end outside the invariant |
| VacbRuns.FailedFlush | ntoskrnl/cc/view.c:171-194 | A flush that fails after a holder has marked the view again ends outside the invariant |
| VacbRuns.TwoFlushes | ntoskrnl/cc/view.c:370-402 | A flush of the file (ntoskrnl/cc/view.c:1163-1166) and the lazy writer's that both find the view dirty and then both unmark it end outside the invariant; two flushes of the file wait for each other at FlushCacheLock |
| VacbRuns.UnmarkingNeedsDirty | ntoskrnl/cc/view.c:718-728 | Unmarking keeps the invariant if and only if the view is dirty |
| VacbCache.MarkingNeedsClean | ntoskrnl/cc/view.c:678-690 | Marking keeps the invariant if and only if the view is clean |
| VacbCache.DirtiedInv | ntoskrnl/cc/view.c:666-700 | Marking a clean view keeps the invariant |
| VacbCache.CleanedInv | ntoskrnl/cc/view.c:702-735 | So does unmarking a dirty one, and its last reference is not the one dropped |
| VacbCache.ReleasedInv | ntoskrnl/cc/view.c:591-620 | A holder's release never drops the last reference |
| VacbCache.InsertedInv | ntoskrnl/cc/view.c:861-929 | Linking a view for a block that has none keeps the list strictly ascending, whatever other threads linked before the recheck |
| VacbCache.FreedInv | ntoskrnl/cc/view.c:1053-1095 | Freeing an unused view keeps the invariant and leaves it on no list |
| VacbCache.OneView | ntoskrnl/cc/view.c:861-909 | Two views of a file that cover the same byte are the same |
| VacbTable.InUseIsHeld | ntoskrnl/cc/fs.c:245-254 | The purge's test of the count asks exactly whether somebody holds the view |
| VacbTable.Cache.Find | ntoskrnl/cc/view.c:640-658 | The walk with its early exit finds a view if and only if an exhaustive search would |
| VacbTable.Cache.Lookup | ntoskrnl/cc/view.c:623-664 | And references exactly the view found |
| VacbTable.Cache.MarkDirty | ntoskrnl/cc/view.c:666-700 | The code refines marking |
| VacbTable.Cache.UnmarkDirty | ntoskrnl/cc/view.c:702-735 | The code refines unmarking |
| VacbTable.Cache.Release | ntoskrnl/cc/view.c:591-620 | Drops one reference, marks the view if asked, and leaves all other views alone |
| VacbTable.Cache.FreeOneUnused | ntoskrnl/cc/view.c:737-794 | Frees one view if and only if a clean, unheld one exists: the first such on the LRU list; the others keep their order and change in nothing |
| VacbTable.Cache.Create | ntoskrnl/cc/view.c:796-929 | Returns the one view of the block, the existing one if another thread was faster; every failed mapping gives up one of the unused views, so it fails if and only if there is no memory or one more attempt than there are unused views fails; only unused views are given up |
| VacbTable.Cache.MapView | ntoskrnl/cc/view.c:833-851 | The retry loop ends because the unused views run out, and succeeds if and only if one of that many attempts and one does |
| VacbTable.Cache.LinkView | ntoskrnl/cc/view.c:861-929 | The recheck under the locks finds the view another thread linked, or links the new one where it belongs |
| VacbTable.Cache.FindSlot | ntoskrnl/cc/view.c:870-919 | The walk that remembers its predecessor finds the place that keeps the list ascending |
| VacbTable.Cache.Get | ntoskrnl/cc/view.c:977-1026 | The caller holds the view of its block, at the tail of the LRU list; it fails exactly if the block has no view and none can be created; dirty views are never given up for it |
| VacbTable.Cache.TrimPass | ntoskrnl/cc/view.c:484-552 | Frees exactly the clean, unheld views and credits 64 pages for each up to the target |
| VacbTable.Cache.Purge | ntoskrnl/cc/fs.c:218-280 | Refuses if and only if a view that starts in the range and ends before its end is held; takes exactly the views of that kind before the first held one |
| PurgeRanges.DiscardsUnderNobodyIff | ntoskrnl/cc/fs.c:233-285 | Cc and Mm together: no page under a view in use goes, whatever the state, if and only if the first page of the range is in use, or the range starts behind all views, or it starts with a view and reaches beyond the section or beyond the end of the last view that loses a page |
| PurgeRanges.UsedStays | ntoskrnl/mm/section.c:4947-4986 | No byte of a page in use goes |
| PurgeRanges.FailsUnchangedIff | ntoskrnl/mm/section.c:4977-4990 | A purge that fails changes no byte, whatever the views and the file, if and only if the first page of the range is in use or none is |
| PurgeRanges.KeepsBytesIff | ntoskrnl/mm/section.c:4947-4990 | State by state: a purge changes no byte if and only if every unwritten byte on the pages that go agrees with the disk |
| PurgeRanges.OnlyTheRangeIff | ntoskrnl/mm/section.c:4947-4949 | Only bytes of the range go if and only if Mm stops at once or the range is whole pages as far as Mm gets |
| PurgeRanges.RefusesInsideIff | ntoskrnl/cc/fs.c:238-285 | A purge fails whenever a view inside the range is in use, whatever the state, if and only if no view inside the range ends exactly where the range does, or some page of the range is in use |
| PurgeRanges.HeldViewMissed | ntoskrnl/cc/fs.c:233-285 | A page inside a view in use, and exactly a view in use: Cc refuses neither purge. The page goes unless it is itself in use; of the view go the pages in front of the first one in use, and the purge fails |
| PurgeRanges.RefusedForAView | ntoskrnl/cc/fs.c:245-254 | A refusal is on account of a view in use inside the range |
| PurgeRanges.SelectedIff | ntoskrnl/cc/fs.c:206-243 | The views a purge asks about, by offset and length: those that start at the offset or behind and end before the length does, or, without a length or an offset, before the last offset there is |
| PurgeRanges.GoneIff | ntoskrnl/mm/section.c:4915-4990 | The bytes that go, by offset and length: those on the pages the range touches, all from the offset on without a length, as long as no page from the first one up to theirs is in use and Cc does not refuse |
| PurgeRanges.TakesIff | ntoskrnl/cc/fs.c:245-254 | The views a purge takes are those it asks about in front of the first one somebody holds |
| VacbTable.PurgeStopped | ntoskrnl/cc/fs.c:245-254 | Stopping at a held view leaves exactly the views in front of it gone |
| VacbTable.PurgeDone | ntoskrnl/cc/fs.c:233-243 | Stopping behind the range misses no view |
| FileRuns.Perform | ntoskrnl/cc/copy.c:488-675 | Any sequence of reads, writes, flushes, trims, evictions, paging and purges on the cached files, whatever memory and Mm answer: every read returns, byte for byte, the last byte written there, or what the disk had when a purge, failed or not, dropped its page; a flush sends whole pages except those Mm could not write; a purge, failed or not, drops exactly the pages from its start up to the first one in use, or none if Cc refuses, which it does only if somebody holds a view; an operation that finds the memory and the answers it needs succeeds; in the end the files and the disk are what the operations made of them; and as long as no purge and no write of a page failed every byte Mm still has to write lies under a dirty view |
| FileRuns.RefusedPurgeLosesTrack | ntoskrnl/cc/fs.c:252-287 | A purge that Cc refuses half-way leaves a byte Mm has not written under no view |
| FileRuns.FailedPurgeDiscards | ntoskrnl/mm/section.c:4977-4986 | A purge of (0, 0x80800) of a file with three dirty views that nobody holds: Cc takes two, Mm drops their 512 KB and gives up at the third, and the purge fails |
| FileRuns.WholePageGoes | ntoskrnl/mm/section.c:4947 | A purge of the second half of a page drops the first half too |
| FileCache.PurgeTracksIff | ntoskrnl/cc/fs.c:252-287 | Whatever Mm drops, the dirty bytes it keeps stay under dirty views if and only if no view the purge took lay over one of them |
| FileCache.PurgeTracks | ntoskrnl/cc/fs.c:256-287 | When the purge goes through they always do: Mm drops all that lay under the views |
| FileCache.CachedFiles.CopyRead | ntoskrnl/cc/copy.c:488-586 | Returns the bytes of the file at the offset, all of them unless a view cannot be had, and changes the content of no file and no byte on disk |
| FileCache.CachedFiles.ReadOne | ntoskrnl/cc/copy.c:520-556 | One piece: up to the end of the view, from the right place in it |
| FileCache.CachedFiles.CopyWrite | ntoskrnl/cc/copy.c:593-675 | Writes exactly the given bytes at exactly the offset (a prefix, if a view cannot be had) and nothing else; refuses an offset that overflows; the bytes lie under dirty views, or on disk when written through; what else reaches the disk is what readers saw |
| FileCache.CachedFiles.WriteViews | ntoskrnl/cc/copy.c:622-668 | The loop over the views tiles the request exactly |
| FileCache.CachedFiles.WriteOne | ntoskrnl/cc/copy.c:623-668 | One piece: its bytes, its view dirty, earlier dirty views still dirty |
| FileCache.CachedFiles.FlushView | ntoskrnl/cc/view.c:162-205 | A flushed view is clean, and dirty bytes stay under dirty views if and only if no page of it with unwritten bytes failed to be written (Mm reports success all the same); a flush that cannot get the lock leaves the view dirty and counted |
| FileCache.TrackedFlush | ntoskrnl/mm/section.c:5163-5194 | A view flushed whole and unmarked leaves every unwritten byte under some other dirty view if and only if no page with such a byte failed to be written |
| FileCache.CachedFiles.FlushOne | ntoskrnl/cc/view.c:1156-1208 | One turn asks Mm for the whole block if its view is dirty, and otherwise for exactly the part of the range in the block, and leaves no dirty view of the block |
| FileCache.SendsIff | ntoskrnl/mm/section.c:5163-5180 | A byte goes to disk exactly if its page is one from the page of the request's start up to its end and can be written |
| FileCache.CachedFiles.FlushRange | ntoskrnl/cc/view.c:1149-1220 | The loop ends; the requests are disjoint, in ascending blocks, each a whole block or inside the range, and exactly their pages that can be written go to disk, as readers saw them; without a refusal every byte of the range was asked for and is clean unless its page could not be written, and no view that intersects the range is dirty; what readers see never changes |
| FileCache.CachedFiles.FlushCache | ntoskrnl/cc/view.c:1100-1227 | A successful flush leaves on disk what readers saw, except on pages whose write failed; an overflowing range does nothing |
| FileCache.PiecesDisjoint | ntoskrnl/cc/view.c:1181-1218 | No byte is asked for twice |
| FileCache.CachedFiles.PurgeSection | ntoskrnl/cc/fs.c:155-288 | Goes through if and only if the sum does not overflow, no view that starts in the range and ends before its end is held, and no page of the range is in use. Failed or not, exactly the whole pages from the start up to the first one in use (none if a view was held) read as on disk, so no page in use is lost. Without a length or an offset a purge that goes through leaves every byte from the page of the offset on clean and as on disk and takes every view that starts there or behind, and it fails if one of them is held. Dirty bytes stay under dirty views if and only if no view it took lay over one that did not go |
| FlatFile.PurgePages | ntoskrnl/mm/section.c:4905-4996 | The loop lets go of the pages up to the first one in use and fails if and only if there is one |
| Paging.PagingInit | boot/nxldr/paging.c:35-109 | The nested loops leave the four groups of tables as specified, the PCR pages zero, and every other word of memory as it was |
| Paging.WalksAsIntended | boot/nxldr/paging.c:35-109 | For every 32-bit virtual address the processor's walk gives the intended physical address (identity for the low 16 MB, KSEG0, the self-map, the PCR window) or faults |
| Paging.SelfMapShowsPte | boot/nxldr/paging.c:87-93 | For every virtual address, the word at PTE_BASE + 4 * (va >> 12) is the entry the processor uses for it, and reading it faults if and only if the directory entry is absent |
| Paging.AllWritable | boot/nxldr/paging.c:54-107 | Whatever is mapped is mapped present and writable, in the directory and in the table |
| Paging.MapLow | boot/nxldr/paging.c:53-85 | The double loop fills the tables and enters them in the directory, and nothing else |
| Paging.MapPcr | boot/nxldr/paging.c:100-106 | The PCR's table maps its 16 pages and nothing else |
| InitClosure.Closure | tools/find-init-candidates.py:182-190 | The in-place loop ends with the least set closed under "every caller is in INIT or chosen", in whatever order the functions come |
| InitClosure.Pass | tools/find-init-candidates.py:186-190 | A pass chooses only what every closed set contains, and reports no change only if nothing is left to choose |
| InitClosure.CallersCovered | tools/find-init-candidates.py:179-180 | Every caller of a chosen function is in INIT or chosen |
| InitClosure.ChosenIff | tools/find-init-candidates.py:152-192 | A function is chosen if and only if it is resident, may be moved, returns, has its address taken nowhere, is called, and only from INIT or from chosen functions |
| InitClosure.ChosenLeast | tools/find-init-candidates.py:179-192 | Every set closed in that way contains the chosen functions |
| InitClosure.CyclesStay | tools/find-init-candidates.py:182-190 | Functions that only call each other in a circle outside INIT are never chosen |
| InitClosure.ScanAfterMove | tools/find-init-candidates.py:173-192 | A scan of the relinked image finds exactly what the closure would add next |
| InitClosure.RelinkUntilDone | tools/find-init-candidates.py:173-192 | Moving, relinking and scanning again until nothing is found ends with the same set |
| InitClosure.ClosureAgrees | tools/find-init-candidates.py:173-192 | Closures in any two orders and the repeated rescans agree |
| PngRows.ImageRoundTrip | tools/png2logo.py:45-67 | For every image and every choice of filters, unfiltering the filtered image gives the pixels back |
| PngRows.RowRoundTrip | tools/png2logo.py:49-64 | The same for a row, for None, Sub, Up, Average and Paeth |
| PngRows.LineRoundTrip | tools/png2logo.py:49-64 | And every line is the filtered form of what it unfilters to |
| PngRows.PaethIsNearest | tools/png2logo.py:60-63 | The predictor is the one value section 6.6 of RFC 2083 allows: nearest neighbour, ties to the left, then to the upper one |
| PngRows.UnfilterRow | tools/png2logo.py:49-64 | Byte by byte, modulo 256: filter 1 adds the byte four to the left, 2 the one above, 3 half the sum of both rounded down, 4 the neighbour section 6.6 of RFC 2083 asks for, any other number nothing |
| PngRows.UnfilteredIsRow | tools/png2logo.py:49-64 | The same of the row as a value |
| PngRows.UnfilteredIsImage | tools/png2logo.py:43-67 | And of every row of the image, each below the one above it |
| PngRows.ReadRows | tools/png2logo.py:43-67 | The loop over the rows gives the image of which every row stands to its line as the standard asks, and fails exactly when the data is too short |
| PngRows.UnfilterFails | tools/png2logo.py:46-48 | Too short means shorter than one filter byte and one line for each row |
| LogoBitmap.RampNearest | tools/png2logo.py:84 | The index is that of the nearest ramp entry, uniquely, at most 8 off |
| LogoBitmap.IndexFacts | tools/png2logo.py:79-84 | Every pixel gets a four-bit index; white of any opacity comes out as its alpha, transparent as black |
| LogoBitmap.LuminanceIs | tools/png2logo.py:82 | The luminance is 77, 150 and 29 parts in 256 rounded down, a grey is its own, and it is never off 299, 587 and 114 parts in 1000 by 2 |
| LogoBitmap.IndexIs | tools/png2logo.py:79-84 | The index of a pixel is that of the ramp entry nearest to its luminance times alpha over 255 |
| LogoBitmap.PixelReadsBack | tools/png2logo.py:89-95 | Every pixel reads back from its nibble and the padding is black |
| LogoBitmap.PackRow | tools/png2logo.py:89-95 | Byte k of the row holds pixel 2k in its high and pixel 2k + 1 in its low four bits, zero where there is none, in the fewest bytes that are a multiple of four |
| LogoBitmap.RowPlace | tools/png2logo.py:86-96 | A row stands behind the rows below it: bottom up |
| LogoBitmap.PackRows | tools/png2logo.py:86-96 | The loop over the rows computes the bitmap |

## Left out

- VacbTable.Cache.TrimPass: one pass over the LRU list; flushing dirty pages and trying once more (ntoskrnl/cc/view.c:556-573) is not modelled, because it rests on CcRosFlushDirtyPages.
- KcbLockOrder.LockTable.LockArray: the method is for a thread that need not wait; waiting is in the state machine whose steps it takes.
- BootOrder.DoSort: does not model the cast of the buffer length to 16 bits (ntoskrnl/config/cmboot.c:946), so it speaks of order lists shorter than 64 KB.
- FileCache.CachedFiles.CopyRead: does not model the wrap-around of offset plus length at 64 bits, nor a fault on the caller's buffer.
- FileCache.CachedFiles.CopyWrite: takes MmMakeSegmentDirty and the copy from the caller's buffer to succeed, and the write to end inside the section, as the source asserts; only running out of views raises an exception. The section keeps its size.
- FlatFile.PurgePages: a page that is being written is waited for (ntoskrnl/mm/section.c:4968-4975), and `used` is what the loop finds then; that pages are mapped because a view was read or written through is not derived from the views.
- FileCache.CachedFiles.PurgeSection: a sum that overflows, which the source asserts against, is followed as the code without assertions computes it.
- InitClosure.Closure: starts from the result of the filters; reading the image and the symbol names is text processing.
- LogoBitmap.PackRows: works on four-bit indices; the file header, the info header and the palette are not built.
- CcRosFlushDirtyPages, CcRosDeleteFileCache and the lazy writer's choice of what to flush.
- That a waiter of CcWaitForCurrentLazyWriterActivity is woken: a waiter queued during a scan is not looked at before the scan ends (ntoskrnl/cc/lazywrite.c:156-167, 203-206), so only the barrier's safety is stated.
- VacbTable.Cache.Release: the test and the mark of one thread with nobody in between (VacbRuns has the interleavings), and the Mapped argument, which no caller sets.
- KcbTable.Cache.CloseWorker: nobody comes between the two looks at the tail of the list (ntoskrnl/config/cmdelay.c:88-124); in KcbRuns the turn is the part after the second look, taken in any interleaving.
- KcbRuns.CreateGood: the hash chains of CmpInsertKeyHash are a map from keys to KCBs, and the failure of a root's name is not covered (see below).
- LazyWriterDrain.Drains: does not count a scan that a worker starts after it has left its loop (ntoskrnl/cc/lazywrite.c:350-361) as working off what is queued, because such scans can go on as long as there are dirty pages.
- Pinning (ntoskrnl/cc/pin.c), the alternative cache in ntoskrnl/cache, deferred writes, CcZeroData, ValidDataLength and Wait = FALSE.
- Symbolic-link KCBs, fake keys, name control blocks beyond whether one can be had, and hive cells.
- Creating a root KCB whose name cannot be had: the source then dereferences a parent that is null (ntoskrnl/config/cmkcbncb.c:655-893); the step is not enabled in the model.
- Reuse of a callback's address as the cookie of a later registration: callbacks are named by their registration.
- PagingEnable and the control registers.
- Chunk parsing, CRCs and decompression of PNG files.
