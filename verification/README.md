# Verified models of the Nolrem kernel

Nolrem is a small 32-bit kernel. This project models the parts of it that keep hard invariants, in the form the kernel
gives them, and proves what those parts are for. `dafny verify dfyconfig.toml` checks all of it.

- **Regions** (`Region*.dfy`). Sets of pixels as bands in a compressed byte format. `RegionFormat` is the format,
  `RegionTokens` what its tokens mean, `RegionRows` the points; `RegionBuilder` is the class that writes it, row by row,
  `RegionIterator` the resumable class that reads it, and `RegionCombine` the two sweeps of a Boolean operation.
- **Heap** (`Heap*.dfy`). A boundary-tag allocator over an array of 4-byte words, with 24 free lists and a bitmap.
- **Waiting** (`Wait*.dfy`, `Blocking.dfy`). Counting semaphores with wait-for-any, timeouts and hand-over, as a class
  over linked queues, refining an atomic step for each operation; and what holds over every run of steps.
- **Scheduling** (`Sched*.dfy`). The ready list, preemption under nested locks, and the idle loop, in the same two layers.
- **Messages** (`Message*.dfy`, `IrqQueue.dfy`). Mailboxes on those semaphores, and the lock-free queue interrupts post to.
- **Files** (`Fat*.dfy`). Mounting a FAT volume and reading a file through a table cache, a seek hint and merged runs.
- **Paging** (`Vmm*.dfy`). Faulting, discarding, releasing and wiring pages, one step for each stretch under a lock and
  one for each write that code without the lock can see.
- **Addresses** (`VirtualArena.dfy`). First fit over a coalescing list of free ranges.
- **Vnodes** (`Vnode*.dfy`). The table of vnodes, a balanced tree linked in place, and the purge that goes through it in
  batches.
- **Windows** (`Windows.dfy`). What can be seen of each window as windows are made, moved and raised.
- **Drawing** (`ThinLine.dfy`, `Polygon*.dfy`, `TouchingSquares.dfy`). Lines, and the regions of polygons.
- **Bitmaps** (`Rle*.dfy`, `RowCursor.dfy`, `Plane*.dfy`). Run-length decoding with checkpoints, and making any stretch of
  a scaled, dithered picture again.

`Arithmetic`, `Words`, `Options` and `Sequences` are shared. Objects the kernel changes in place are classes whose methods are
proved against functions on their abstract value. Protocols are state machines; `Inv` is what every step keeps, and a
property "of every run" is proved of every sequence of allowed steps by any number of actors.

## Model

| member | source | states |
|---|---|---|
| RegionCombine.GetRegionCombination | kernel/CLIPDRAW/region.c:821-1189 | For any two well-formed regions with their translations, touching and empty spans included: a point is in the intersection exactly if it is in both, in the union if in either, in the exclusive or if in one and not the other, in the difference if in the first and not the second, and in nothing if the mode is none of these; the result is canonical if both are, and if neither is empty or has touching spans |
| RegionCombine.MergeEdges | kernel/CLIPDRAW/region.c:905-985 | The first sweep yields exactly the top and bottom edges of the bands of both regions, each once, strictly increasing |
| RegionCombine.NarrowByRows | kernel/CLIPDRAW/region.c:1095-1145 | What GetRegionCombination asks of its operands, that no combined row needs more spans than 14 bits count, is so whenever the spans of the two at each row are together no more |
| RegionSweep.CombinedRowPoints | kernel/CLIPDRAW/region.c:1095-1145 | The combined toggles of one slice are in order and in pairs, no more than those of the two rows together, and a column is inside them exactly when the operation holds of its being inside the two rows |
| RegionSweep.CombinedRowStrict | kernel/CLIPDRAW/region.c:1095-1145 | Of two rows without touching or empty spans it makes one |
| RegionSweep.CombineSpans | kernel/CLIPDRAW/region.c:1110-1145 | The loop, whichever side is ahead and wherever a toggle undoes the last, writes exactly those toggles |
| RegionBuilder.RegionBuilder.FinishRegion | kernel/CLIPDRAW/region.c:94-111 | After any rows have been fed, the region is the encoding of exactly those rows: header, band count, used length and bytes |
| RegionBuilder.RegionBuilder.AddScanline | kernel/CLIPDRAW/region.c:120-448 | Feeding any row from left to right, touching and empty spans included, whatever the known-same hint and the mode chosen, appends that row to what the builder holds; feeding -1 writes what is pending |
| RegionBuilder.RegionBuilder.ExpandToFit | kernel/CLIPDRAW/region.c:25-52 | The used length grows by what was asked and stays below the capacity, which is kept or else grown to at most twice that length |
| RegionTokens.DecodeEncoded | kernel/CLIPDRAW/region.c:120-448 | Whatever bands are in order, the bytes the encoder picks for them (full, compact, small, repeats of any length) decode to those bands |
| RegionFormat.ParseSerialize | kernel/CLIPDRAW/region.c:180-370 | The byte layout alone: a valid list of tokens written out is read back as that list, with its band count |
| RegionFormat.SerializeParse | kernel/CLIPDRAW/region.c:560-690 | The byte layout alone: bytes that can be read as so many bands are the bytes the tokens read would be written as |
| RegionFormat.FullExample | kernel/CLIPDRAW/region.c:355-400 | The layout by example: the words of a full band have their low byte first, its count of spans its low six bits first |
| RegionFormat.CompactExample | kernel/CLIPDRAW/region.c:329-400 | The same of a band one row high |
| RegionFormat.SameTopExample | kernel/CLIPDRAW/region.c:329-400 | The same with the high byte of all its points written once |
| RegionFormat.SmallExample | kernel/CLIPDRAW/region.c:226-305 | The same of a small band, the move of a span's start in the low half of its byte and of its end in the high half, both counted from -8; and of its repeats |
| RegionRows.BandsHoldRows | kernel/CLIPDRAW/region.c:120-180 | Grouping equal rows into bands, with gaps, empty rows and the split at 32000 rows, keeps exactly the points of the rows |
| RegionCanonical.BuiltCanonical | kernel/CLIPDRAW/region.c:114-448 | Two builds of rows without touching spans give the same header and bytes if and only if they hold the same points, whatever leading or trailing empty rows were fed |
| RegionCanonical.BuiltCanonicalIff | kernel/CLIPDRAW/region.c:114-138 | What is built of any rows is canonical if and only if none has touching or empty spans; otherwise the same rows with those joined and dropped give other bytes for the same points |
| RegionCanonical.CanonicalUnique | kernel/CLIPDRAW/region.c:114-118 | Two canonical regions are the same bytes if and only if they hold the same points |
| RegionRows.RowUnique | kernel/CLIPDRAW/region.c:114-118 | A row without touching spans is determined by its points |
| RegionCanonical.RectRegion | kernel/CLIPDRAW/region.c:1272-1313 | The rectangle shortcut is well formed and holds exactly the points of the rectangle |
| RegionCanonical.RectCanonical | kernel/CLIPDRAW/region.c:1272-1313 | Its bytes are the builder's if and only if the rectangle is at most 32000 rows high |
| RegionCanonical.FullModeLimit | kernel/CLIPDRAW/region.c:355-400 | A row in full mode can be read back if and only if its number of spans fits 14 bits |
| RegionIterator.RegionIterator.Resume | kernel/CLIPDRAW/region.c:541-743 | From any saved state the coroutine passes on exactly the next events of the one uninterrupted walk (a band start and its rectangles, band after band), up to and including the first whose callback stops it, or to the end |
| RegionIterator.RegionIterator.AllShown | kernel/CLIPDRAW/region.c:541-743 | The rectangles of the whole walk hold exactly the points of the region, moved as it is |
| HeapEx.Heap.Tiled | kernel/mem/heapex.c:246-283 | Between operations every word of every chunk lies in exactly one block of that chunk, whose head and tail words agree on its length |
| HeapEx.Heap.FreeBlockListed | kernel/mem/heapex.c:318-376 | Between operations a free block is on the list GetInsertionIndex gives, once and on no other, that list's bit is set, and neither neighbour is free |
| HeapEx.Heap.AllocHeapEx | kernel/mem/heapex.c:532-545 | For a request up to 0xFFFFFFE0: a new live block of at least that payload and less than 32 bytes more, disjoint from every other, no other live payload moved or changed, and the outstanding count up by its size; null if and only if the size is 0, or no listed block was a sure fit and the system had no memory, which is asked for only then; and then no block has changed |
| HeapEx.Heap.FreeHeapEx | kernel/mem/heapex.c:547-559 | The block is live no more, every other live block and its words are as before, and the outstanding count is down by its size |
| HeapEx.Heap.ReallocHeapEx | kernel/mem/heapex.c:561-580 | The old words are at the start of the result; it is the same block if that was long enough, else a new one with the old one released; all other live blocks are as before; null if and only if there was no block and no size, or the payload was too short, no listed block a sure fit and the system without memory, and then nothing live has changed; and the outstanding count follows |
| HeapEx.Heap.AddBlock | kernel/mem/heapex.c:318-376 | The block in hand is merged with both neighbours where they are free and listed, after which no two free blocks touch; the recursion ends, for each turn leaves one block fewer |
| HeapEx.Heap.AllocateBlock | kernel/mem/heapex.c:383-438 | The block given out has the payload asked for and less than 16 bytes more, and what was left is listed as a free block |
| HeapEx.Heap.RequestBlock | kernel/mem/heapex.c:246-283 | The memory granted becomes a chunk: a fencepost at either end and one block between, in hand and at least as long as asked for; every other block and every word of the live ones is as before |
| HeapEx.Heap.RemoveBlock | kernel/mem/heapex.c:294-312 | The block leaves its list, wherever in it it is, and the links, heads and bitmap stay those of the lists |
| HeapEx.Heap.FindBlock | kernel/mem/heapex.c:474-530 | A block for the request from the lists or else from new memory; zero if and only if every free block is short of the sure fit and the system has no memory |
| HeapSizes.InsertionIndexInTable | kernel/mem/heapex.c:137-152 | The bit arithmetic finds the last row of the size table not above the size |
| HeapSizes.OfferedFrom | kernel/mem/heapex.c:163-173 | A free block comes before the search and is long enough if and only if its payload is at least the table's next size up from the request (the request itself above 1024) |
| HeapSizes.SearchComplete | kernel/mem/heapex.c:163-173 | The search comes upon every free block that is long enough if and only if the request is a size of the table or above 1024; a block of 72 is not offered for 72 |
| HeapSizes.AskedCovers | kernel/mem/heapex.c:179-184 | With the sums of RoundUpSize, FindBlock and RequestBlock taken modulo 2^32, what the system is asked for covers the request if and only if that is at most 0xFFFFFFE0; for 0xFFFFFFF0 it is 8 |
| Blocking.BlockingCore.AcquireSemFromMany | kernel/sync/sem.c:238-286 | Takes a unit of the first semaphore of the list that has one, says which, and changes nothing else; fails, and changes nothing, exactly if none has one and the timeout is 0 or a time that is past; or puts the thread last on the queue of each, and into the timer list at its deadline. All queues stay linked with correct tails, and it is what AcquireStep says |
| Blocking.BlockingCore.ReleaseSem | kernel/sync/sem.c:296-322 | Hands the unit to the first waiter, taken off all its queues, or, if there is none, takes one off the count and changes nothing else, exactly as ReleaseStep |
| Blocking.BlockingCore.AbandonSem | kernel/sync/sem.c:21-43 | Wakes every waiter with EABANDONED, first come first woken |
| Blocking.BlockingCore.AddThreadToSemQueues | kernel/sync/sem.c:122-155 | The thread is last on each semaphore's linked queue, through a clot if there are several, and no other thread's place changes |
| Blocking.BlockingCore.CancelSems | kernel/sync/sem.c:224-236 | The thread is on no semaphore's queue and every other queue keeps its order |
| Blocking.BlockingCore.AddThreadToSleepQueue | kernel/core/timer.c:73-109 | The thread goes into the timer list behind those due no later and before those due later, and next_wakeup_ns is the earliest; nothing changes if the time, a relative one counted from now modulo 2^64, is past |
| Blocking.BlockingCore.CancelTimer | kernel/core/timer.c:46-71 | The thread is off the timer list, the rest keep their order, and next_wakeup_ns is the earliest of them |
| Blocking.BlockingCore.AdvanceTimer | kernel/core/timer.c:20-44 | Moves the clock and wakes exactly those who are due, with ETIMEDOUT; no count changes; and it is what AdvanceStep says |
| WaitRuns.WokenOnce | kernel/sync/sem.c:122-322 | In every run each wake-up ends a wait nothing had ended, for a reason that wait allows, and a thread blocks again only after it |
| WaitRuns.WaitersPlaced | kernel/sync/sem.c:157-236 | In every run a thread that is not blocked is on no queue and not on the timer list, a blocked one on exactly those it waits for, no count is above its maximum, and there are waiters only where the count is at it |
| WaitRuns.UnitsConserved | kernel/sync/sem.c:238-322 | In every run a count is the initial one plus units taken less units given back |
| WaitRuns.ReleaseHandsOver | kernel/sync/sem.c:296-322 | With waiters, the longest waiting gets the unit, is told which semaphore of its list it was, and leaves every queue; the count does not move and the others keep their order |
| WaitRuns.StepKeepsIff | kernel/sync/sem.c:238-286 | A step keeps the invariant if and only if it does not make a thread wait that is waiting already |
| WaitRuns.RunKeeps | kernel/sync/sem.c:122-322 | Over a whole run the invariant holds at every point if and only if no step does that |
| WaitRuns.QueuedTwice | kernel/sync/sem.c:238-286 | The run that breaks it: two nested waits of one thread leave it on one queue twice |
| WaitRuns.ReleaseNotNegative | kernel/sync/sem.c:296-322 | A count that was not negative stays so if and only if a unit was out or somebody was waiting |
| WaitRuns.ExpireExact | kernel/core/timer.c:20-33 | Time passing wakes exactly the sleepers that are due, with ETIMEDOUT, and touches nobody else |
| WaitRuns.AbandonExact | kernel/sync/sem.c:21-37 | Abandoning wakes exactly those who waited for the semaphore, in their order |
| WaitRuns.NegativeTimeout | kernel/core/timer.c:73-109 | A timeout below -1 waits if and only if it reaches back before the machine started, then until nearly 2^64 |
| WaitStates.InsertExact | kernel/core/timer.c:73-109 | A sleeper goes behind everyone due no later and before everyone due later, so that those due together are woken in the order they went to sleep |
| SchedRuns.NoThreadLost | kernel/task/scheduler.c:67-136 | In every run that stops no ready thread, a thread that is not current is in exactly one place: once on the ready queue, held to preempt, or stopped; an idling thread is current and not queued |
| SchedRuns.NoWakeupLost | kernel/task/scheduler.c:110-136 | In every such run, when the lock is free nothing is postponed, and a parked CPU that will not look again has nothing it could run |
| SchedRuns.StepKeepsIff | kernel/task/scheduler.c:375-380 | A step keeps all that, and every wake-up, if and only if it does not block a current thread that is already ready |
| SchedRuns.RunsKeep | kernel/task/scheduler.c:272-443 | Over a whole run it holds at every point if and only if no step does that |
| SchedRuns.FreeStopsRunning | kernel/task/scheduler.c:375-380 | No step does that if a wait begins only under a lock that was taken while free on a CPU that is not parked; what is done under the lock before, and a second stop under it, do no harm |
| SchedRuns.TimedWaits | kernel/sync/sem.c:238-286 | A wait with a timeout, which stops its thread for the timer and again for the semaphore, is such a wait |
| SchedRuns.QueuedTwice | kernel/task/scheduler.c:403-443 | The run that breaks it: two waits nested under one lock put the current thread on the ready queue twice |
| SchedRuns.HeldRuns | kernel/task/scheduler.c:110-136 | The outermost release switches to the thread held to preempt and queues the one it preempts |
| SchedRuns.UrgentHeld | kernel/task/scheduler.c:403-443 | Of the threads that would preempt under one lock the most urgent is held, and one it replaces is queued, not dropped |
| SchedRuns.WokenIsPlaced | kernel/task/scheduler.c:382-443 | A woken thread preempts exactly if the current one runs, it may run here, and nobody is queued or its priority number is lower; it is held then, unless one as urgent is; whoever is not held is queued last |
| SchedRuns.WokenRuns | kernel/task/scheduler.c:382-443 | Woken under a lock taken while free, it runs from the outermost release on exactly if it preempts, the preempted thread last in the queue; else it is last in the queue itself |
| SchedRuns.ParkedResumes | kernel/task/scheduler.c:272-309 | Waking the thread a CPU is parked on queues nobody, and the idle loop resumes that thread |
| SchedRuns.YieldHandsOn | kernel/task/scheduler.c:311-373 | A thread that yields while the lock is free gives the CPU to the first queued thread that may run here and is queued last; with none it goes on |
| SchedRuns.StoppedGivesWay | kernel/task/scheduler.c:311-373 | The outermost release after the current thread has stopped gives the CPU to the first queued thread that may run here, and parks it if there is none |
| Scheduling.Scheduler.UnblockThread | kernel/task/scheduler.c:382-443 | On the linked ready list, what UnblockStep says: preempt at once or later, or queue, and poke a parked CPU |
| Scheduling.Scheduler.ReleaseScheduler | kernel/task/scheduler.c:110-136 | On the linked ready list, what ReleaseStep says, nested or outermost |
| Scheduling.Scheduler.FindNextThread | kernel/task/scheduler.c:67-89 | The first queued thread that may run on this CPU leaves the list and all others keep their order |
| Scheduling.Scheduler.BlockThread | kernel/task/scheduler.c:375-380 | The thread is stopped but the CPU not given away under the lock; the invariant is kept if the thread was not ready, and broken if it was |
| MessageRuns.DeliveredInOrder | kernel/sync/msgbox.c:79-200 | In every interleaving in which interrupts' posts find the mutex free: delivered followed by unread is what was posted, in order and once; nobody writes into a full ring or reads an empty one; at most one caller is inside; and both semaphores account for every slot and caller |
| MessageRuns.StepKeepsIff | kernel/sync/msgbox.c:116-148 | Exclusion and order are kept if and only if an interrupt's post finds the mutex free; else two callers are inside |
| MessageRuns.RunKeeps | kernel/sync/msgbox.c:79-200 | Over a whole run they hold at every point if and only if every interrupt's post finds the mutex free, and what was delivered is never taken back |
| MessageRuns.PostOverwritten | kernel/sync/msgbox.c:116-148 | The run that breaks it: an interrupt's post between another's copy and its moving the end on overwrites the message |
| MessageRuns.CopyExact | kernel/sync/msgbox.c:79-148 | In any reachable state a post writes over an unread message only if it was given one to compare with, and then over the newest, which equals that; any other post changes nothing with its copy |
| MessageRuns.AdvanceExact | kernel/sync/msgbox.c:116-200 | Moving the end on posts the message behind the unread ones; moving the start on delivers the oldest unread one; a peeker reads that one and leaves it |
| MessageBoxes.MessageBox.Put | kernel/sync/msgbox.c:116-148 | Under the mutex, the message goes behind the unread ones |
| MessageBoxes.MessageBox.Get | kernel/sync/msgbox.c:150-200 | Under the mutex, the first unread message is returned, and removed unless it was a peek |
| MessageBoxes.MessageBox.ReplaceOrPut | kernel/sync/msgbox.c:79-114 | Under the mutex, the last unread message is replaced if it equals the one given, else the new one goes behind |
| IrqQueue.DeliveredOnce | kernel/task/scheduler.c:144-208 | In every interleaving of handlers and consumers over the two bitmaps, a posted message is in exactly one slot until it is delivered, at most once and as it was posted |
| FatReader.Fat.ReadFileSync | kernel/fs/fat/fat_file.c:85-174 | On status 0 it has delivered exactly the bytes asked for that the file has, each that of its place in the concatenated chain, and moved the transfer on by as many; nothing else in the buffer changes; on a healthy disk it succeeds if and only if the chain reaches the last cluster needed |
| FatReader.Fat.ReadLinear | kernel/fs/fat/fat_file.c:14-76 | On status 0 it has delivered that stretch of the disk, whole sectors directly and the ends by a buffer, and it can fail only for the disk |
| FatReader.Fat.FindRun | kernel/fs/fat/fat_file.c:112-150 | The clusters of the run are consecutive in number and in the chain, no more of them than the read needs, and what follows is the chain's next cluster or its end |
| FatReader.Fat.ClusterAt | kernel/fs/fat/fat_table.c:212-232 | Status 0 means the cluster is the index-th of the chain, from the hint or not; end means the chain is shorter; and on a healthy disk an error means it is broken |
| FatReader.Fat.NextCluster | kernel/fs/fat/fat_table.c:171-203 | The successor by the table on disk: the next cluster, the end, or on a healthy disk an error exactly if the entry is none |
| FatReader.Fat.ReadEntry | kernel/fs/fat/fat_table.c:76-163 | The value stored on disk for a cluster, 12-bit entries across two sectors included, through the cache |
| FatVolume.SixteenBitEntry | kernel/fs/fat/fat_table.c:76-163 | A 16-bit entry is two bytes, the low one first, and the entries follow each other from the start of the table |
| FatVolume.ThirtyTwoBitEntry | kernel/fs/fat/fat_table.c:76-163 | A 32-bit entry is four bytes, the low one first, and the top four bits are not part of it |
| FatVolume.MarkersAtTheTop | kernel/fs/fat/fat_table.c:171-203 | An entry ends the chain exactly if it is one of the eight greatest, and no cluster the driver admits has a number so near the end |
| FatVolume.ClustersInLine | kernel/fs/fat/fat_table.c:205-232 | The clusters lie one behind the other from the start of the data |
| FatReader.Fat.CacheGet | kernel/fs/fat/fat_table.c:27-69 | The data is the disk's for that sector of the table, and the cache still holds only such |
| FatVolume.FatMount | kernel/fs/fat/fat_core.c:103-262 | A disk is accepted if and only if its block size divides the sector, its boot sector is recognised, its parts fit, and there is at least one cluster; then every entry of a cluster lies in the table, every cluster in the volume, and the last cluster is the least of the three bounds |
| FatVolume.TableCapacity | kernel/fs/fat/fat_core.c:75-97 | The largest cluster whose entry lies entirely in the table |
| FatVolume.TwelveBitPairs | kernel/fs/fat/fat_table.c:76-163 | Two 12-bit values packed in three bytes as the standard does it are both read back |
| FatVolume.TypesAgree | kernel/fs/fat/fat_core.c:198-208 | The driver's type is the standard's if and only if the 16-bit table size is zero exactly for 65525 clusters or more |
| FatBoot.StandardRecognised | kernel/fs/fat/fat_core.c:103-262 | Every boot sector written field by field as the standard lays it out is recognised, and read back: its sizes, the copy of the table in use, and where the data start |
| VmmRuns.StepKeepsIff | kernel/mem/vmm.c:732-1201 | Each step keeps the invariant if and only if it does not take a page off a frame between the two writes that publish it |
| VmmRuns.RunKeeps | kernel/mem/vmm.c:732-1201 | Over every interleaving of any number of threads the invariant holds throughout if and only if no step does that |
| VmmRuns.FreshInv | kernel/mem/vmm.c:183-199 | The invariant holds at the start, with nothing mapped and all frames free |
| VmmRuns.TimelyIff | kernel/mem/vmm.c:914-959 | A page is taken off a frame its origin names if and only if nobody is between the two writes |
| VmmRuns.UntimelyAsserts | kernel/mem/vmm.c:914-959 | Otherwise the assertion that follows in the code is false at once |
| VmmRaces.PublicationOvertaken | kernel/mem/vmm.c:849-906 | A run from the start that gets there: the assertion fails, and without it an origin is left naming a free frame |
| VmmRaces.ReleaseFindsBusy | kernel/mem/vmm.c:993-1120 | A run from the start after which a release finds its page busy twice, against what it asserts |
| VmmFacts.OriginNamesItsFrame | kernel/mem/vmm.c:732-912 | An origin that names a frame names an allocated one whose origin it is |
| VmmFacts.PresentIsRegistered | kernel/mem/vmm.c:616-639 | A page in its slot and present on a frame is registered on that frame, and no other slot's page is on it |
| VmmFacts.FreeFrameUnused | kernel/mem/phys.c:50-63 | A free frame has no user and no origin, and no origin or page in a slot names it |
| VmmFrees.FreeFrameReset | kernel/mem/phys.c:50-63 | It is clean and not wired, unless a release that freed it is still to make it so |
| VmmFrees.RunTidy | kernel/mem/phys.c:50-63 | Over every run that overtakes no publication that stays so |
| VmmFacts.CountsExact | kernel/mem/vmm.c:616-639 | Every reference count is the number of names counted, in slots, pages, frames and handlers, and busy the number of critical sections that cover the page |
| VmmFacts.FreedPageUnnamed | kernel/mem/vmm.c:456-470 | A freed page is in no slot, on no frame and in no handler's hands |
| VmmFacts.FreedOriginUnnamed | kernel/mem/vmm.c:429-436 | An origin whose count is zero is named by no page, frame or handler |
| VmmFacts.AssertsHold | kernel/mem/vmm.c:732-1120 | What the code asserts as it discards, detaches, adopts, unlinks and leaves is true |
| VmmFacts.ReleaseBusyOnce | kernel/mem/vmm.c:993-1120 | The one that can fail, busy == 1 on release, is true if and only if no other frame in a critical section lists the page |
| VmmFacts.WiredPresent | kernel/mem/vmm.c:1129-1180 | The user of a wired frame is present on it |
| VmmFacts.WiredStaysIff | kernel/mem/vmm.c:561-605 | A step that does not unwire a wired frame or release its page leaves it wired, with its page and its origin, if and only if it is not the last write of a release that freed the frame earlier |
| VmmFrees.WiresStayIff | kernel/mem/vmm.c:1097-1109 | A step keeps every wired frame wired, until its wiring is given up, if and only if it is not such a write on a frame in use; and it keeps them all where no release has still to reset a frame somebody has |
| VmmFrees.SettledStepIff | kernel/mem/phys.c:77-100 | A step leaves no release with a frame to reset that somebody has, if and only if it does not give a frame out between the writes that free it |
| VmmFrees.RunSettled | kernel/mem/phys.c:50-63 | Over every run nobody has a frame that a release has still to reset, if and only if no frame is given out between those writes |
| VmmFrees.RunWires | kernel/mem/vmm.c:1097-1109 | Over every run that overtakes no publication wired frames stay wired if and only if the last of those writes never falls on one in use; and they do if no frame is given out between them |
| VmmFrees.PinLostIff | kernel/mem/phys.c:77-100 | The pin of a frame just given out can go by no more than releases finishing, if and only if one that freed it has yet to finish |
| VmmRetakes.WiredDiscarded | kernel/mem/vmm.c:1097-1109 | A run from the start that gets there: a page is wired, its wiring never given up, and its frame discarded |
| VmmRetakes.WrittenDiscarded | kernel/mem/vmm.c:1097-1109 | The same of a page that is written to and never released: its frame is discarded as if it were clean |
| VmmPages.PageStaysIff | kernel/mem/vmm.c:914-959 | A step takes a page off its frame if and only if it is the discard of that frame, or the release of that page |
| VmmPages.ProtectedStaysIff | kernel/mem/vmm.c:561-605 | Off a frame that is dirty, or wired, or not of a file, if and only if it is the release of that page |
| VmmPages.DirtyStaysIff | kernel/mem/vmm.c:561-605 | A dirty frame whose page is not released keeps its page, its origin and its being dirty, if and only if the step is not a late write of a release that freed the frame earlier |
| VmmPages.WritesStayIff | kernel/mem/phys.c:50-63 | The same of all frames at once: what was written is kept if and only if the step is not such a write on a dirty frame in use; and it always is where no release has still to reset a frame somebody has |
| VmmPages.RunWrites | kernel/mem/phys.c:50-63 | Over every run that overtakes no publication what was written is kept, until its page is released, if and only if no such write falls on a dirty frame in use; and it is if no frame is given out between the writes that free it |
| VmmPages.TouchedSurvives | kernel/mem/vmm.c:561-605 | A page written to is on its frame, and dirty, after any such run that neither releases it nor cleans its frame late |
| VmmPages.RunUnfiled | kernel/mem/vmm.c:561-605 | A page that is not of a file is where it was after any run that does not release it |
| VmmServes.FaultServed | kernel/mem/vmm.c:732-912 | Wherever a page waits, and whichever frame is free: two faults, if nobody comes between, end with the page in, on that frame, clean and not wired |
| VmmServes.FaultMaps | kernel/mem/vmm.c:862-912 | A fault on a page whose frame is still its origin's puts it back on that frame, and neither cleans nor reloads it |
| VmmServes.PinTaken | kernel/mem/vmm.c:1129-1180 | A page that is in and not busy is wired once more by WireVirt, and nothing else changes |
| VirtualArena.VirtArena.AllocVirtEx | kernel/mem/allocvirtex.c:30-65 | The first range with enough pages is cut short from its start, or taken out if that is all of it; zero, and nothing changed, if there is none |
| VirtualArena.VirtArena.FreeVirtEx | kernel/mem/allocvirtex.c:67-114 | The range goes in its place as one with those it touches on either side |
| VirtualArena.TakenExact | kernel/mem/allocvirtex.c:30-65 | Exactly the addresses handed out are free no more, and the list stays in order with nothing touching |
| VirtualArena.GivenExact | kernel/mem/allocvirtex.c:67-114 | Exactly the addresses given back are free in addition, and the list stays in order with nothing touching |
| VirtualArena.FirstFitFails | kernel/mem/allocvirtex.c:30-65 | The search fails if and only if no run of free addresses of so many pages exists |
| VirtualArena.GivenNothing | kernel/mem/allocvirtex.c:67-114 | A range of no pages given back leaves the list tidy if and only if it touches a free range, and then changes nothing |
| VirtualArena.PagesCover | kernel/mem/allocvirtex.c:30-33 | The pages a request is rounded to cover it if and only if it is at most 2^32 - 4096; 2^32 - 1 bytes come to none |
| VirtualArena.StepKeepsIff | kernel/mem/allocvirtex.c:30-114 | A step keeps the list tidy and every address of the arena either free or handed out once, if and only if it does not give back a stray range of no pages |
| VirtualArena.RunKeeps | kernel/mem/allocvirtex.c:30-114 | Over a whole run that holds at every point if and only if no step does that |
| VirtualArena.NothingGivenBack | kernel/mem/allocvirtex.c:30-114 | The run that breaks it: a request for nothing, or for all of memory, one for a page, and the first given back |
| VnodeTable.Table.RegisterNewVnode | kernel/vfs/nodetable.c:165-181 | A vnode that is not in the table goes in exactly if its key is not, with one reference more, and the links show an ordered, balanced tree; one that is in it loses its subtrees |
| VnodeTable.Table.UnregisterVnode | kernel/vfs/nodetable.c:188-200 | Exactly that vnode is taken out and has one reference less, or nothing changes if it was not in the table |
| VnodeTable.Table.FindNode | kernel/vfs/nodetable.c:143-153 | The vnode with the key, or none if and only if there is none, in no more steps than the tree is high |
| VnodeTable.Table.InsertNode | kernel/vfs/nodetable.c:78-94 | Relinks in place to exactly the tree with the entry inserted; a duplicate changes nothing |
| VnodeTable.Table.RemoveNode | kernel/vfs/nodetable.c:105-141 | Relinks in place to exactly the tree with the entry removed; found exactly if this very vnode was there |
| VnodeTable.Table.Rebalance | kernel/vfs/nodetable.c:60-76 | Relinks in place to the rebalanced tree, with rotations single or double, and touches no node outside it |
| VnodeTable.Table.PurgeOldVnodes | kernel/vfs/nodetable.c:232-271 | It ends, having taken out and let go of exactly the vnodes of the table whose count was 1; no other count changes |
| VnodeTable.Table.CollectPurgeVictims | kernel/vfs/nodetable.c:212-230 | Adds to the batch, up to 16, the vnodes whose count is 1 with keys after the resume point, in order of key |
| VnodeTrees.InsertExact | kernel/vfs/nodetable.c:78-94 | Inserting adds exactly the entry unless its key is there, and keeps the order |
| VnodeTrees.RemoveExact | kernel/vfs/nodetable.c:105-141 | Removing takes out exactly the entry, and keeps the order |
| VnodeTrees.LookupExact | kernel/vfs/nodetable.c:143-153 | The search finds an entry if and only if it is the one with that key |
| VnodeTrees.HeightIsSmall | kernel/vfs/nodetable.c:32-76 | A balanced tree of height h has at least Fib(h + 2) - 1 nodes |
| VnodeTrees.HeightFits | kernel/vfs/nodetable.c:32-36 | With fewer than 2^32 nodes the height fits the eight bits it is cast to |
| VnodeLinks.CroppedSame | kernel/vfs/nodetable.c:165-181 | Registering a vnode that is in the table already loses nothing if and only if it has nothing below it |
| Windows.SeenOnce | kernel/_WINMGR/window.c:114-428 | Every point of a window is seen in exactly one, the foremost that has it, and a point of the desktop exactly if no window has it |
| Windows.WindowManager.InvalidateExposedRegion | kernel/_WINMGR/window.c:166-192 | Each window behind, and the desktop, gains or loses exactly its part of the region that nothing between covers, and has it to paint; early returns leave out nothing |
| Windows.WindowManager.CreateWindow | kernel/_WINMGR/window.c:304-371 | After a window is made in front, every window still shows exactly its rectangle less all in front of it |
| Windows.WindowManager.ChangePosition | kernel/_WINMGR/window.c:253-298 | The same after a move, although only what was laid bare and what was covered is updated; whatever can newly be seen of another window is to be painted |
| Windows.WindowManager.RaiseToTop | kernel/_WINMGR/window.c:395-428 | The same after a window comes to the front, the others keeping their order |
| ThinLine.DrawThinLine | kernel/CLIPDRAW/fallback/solidline.c:11-32 | Between any two points: it ends after exactly as many moves as the longer side has, at the target, the k-th pixel being k along the longer side and within half a pixel of the ideal line along the other |
| PolygonRows.RowBalances | kernel/CLIPDRAW/fully_pageable/polygon.c:57-76 | The edges of closed polygons cross any row as often one way as the other, so an even number of times |
| PolygonRows.SortCrossings | kernel/CLIPDRAW/dynamic_array.c:41-62 | The bubble sort gives exactly the crossings by column, those at one column in the order they were found in |
| PolygonSpans.SpansBounded | kernel/CLIPDRAW/fully_pageable/polygon.c:87-118 | By either rule the spans of the sorted crossings are in order, none of them empty, and hold a column exactly if what is crossed at or left of it counts: an odd number, or a sum that is not zero |
| PolygonSpans.AlternateSpans | kernel/CLIPDRAW/fully_pageable/polygon.c:88-101 | The loop writes exactly those spans by the even-odd rule |
| PolygonSpans.WindingSpans | kernel/CLIPDRAW/fully_pageable/polygon.c:102-118 | The loop writes exactly those spans by the winding rule |
| Polygons.CreatePolyPolygonRegion | kernel/CLIPDRAW/fully_pageable/polygon.c:23-127 | For polygons in range with no more than 16383 spans to a row, touching or not, a point is in the region exactly if it is inside by the rule; and the region is canonical if and only if the crossings split no row so |
| Polygons.PolyRowInside | kernel/CLIPDRAW/fully_pageable/polygon.c:62-118 | The spans of a row hold exactly the columns inside, and touch exactly if its crossings split it |
| Polygons.PolyRegionCanonicalIff | kernel/CLIPDRAW/fully_pageable/polygon.c:23-127 | The region has the bytes the builder makes of the same rows with touching spans joined, if and only if the crossings split no row |
| Polygons.EvenOddSplits | kernel/CLIPDRAW/fully_pageable/polygon.c:88-101 | By the even-odd rule a row is split if and only if some edge crosses it at a column that is inside, as is the one before |
| Polygons.CrossingOnLine | kernel/CLIPDRAW/fully_pageable/polygon.c:57-76 | An edge crosses the rows from its upper end to just above its lower one; there its crossing is less than a column from its line, on the side of the corner it comes from, and counts one downwards and minus one upwards |
| Polygons.RectangleInside | kernel/CLIPDRAW/fully_pageable/polygon.c:51-118 | By either rule a pixel is inside a rectangle exactly if it is: the left and upper edges count, the others not |
| PolygonTouch.StrictIff | kernel/CLIPDRAW/fully_pageable/polygon.c:87-118 | No two spans of a row touch if and only if at no column, inside on either side of it, one is outside between two of its crossings |
| TouchingSquares.SquaresTouch | kernel/CLIPDRAW/fully_pageable/polygon.c:88-101 | Two squares side by side have the row [0, 4, 4, 8] at each of rows 0 to 3 by either rule: the region has the points of the 8 by 4 rectangle, but is not the canonical one CdCreateRectRegion makes |
| TouchingSquares.SquaresJoined | kernel/CLIPDRAW/fully_pageable/polygon.c:102-118 | The same squares the other way round have the row [0, 8] by the winding rule, for crossings at one column stay in the order of the edges |
| RowCursor.Cursor.Next | kernel/CLIPDRAW/bitmap_generic/bmp.c:327-337 | The n-th row is row n of the picture painted from the whole token stream at once, or of the plain pixels, and there are as many as the picture is high |
| RowCursor.NativeCell | kernel/CLIPDRAW/bitmap_generic/bmp.c:327-337 | A cell of a compressed row is the picture's; of a plain one, the byte as many rows and columns into the file |
| RowCursor.Cursor.NextRle | kernel/CLIPDRAW/bitmap_generic/bmp.c:223-304 | One row of a compressed picture, through runs, absolute runs with padding, deltas, line and bitmap ends, truncation and both nibble orders |
| RowCursor.Cursor.Resume | kernel/CLIPDRAW/bitmap_generic/bmp.c:355-372 | From any state saved before a row the cursor goes on with the same rows |
| RleStream.PaintCell | kernel/CLIPDRAW/bitmap_generic/bmp.c:223-304 | The picture painted at once holds in each cell what the last mark that inks it says |
| RleTokens.TokensRead | kernel/CLIPDRAW/bitmap_generic/bmp.c:223-304 | Whatever tokens are written byte by byte in either encoding, runs, literal pixels with their padding, ends of rows and jumps, the decoder's marks are those, and what comes after the end of the bitmap is not looked at |
| RleTokens.PictureWritten | kernel/CLIPDRAW/bitmap_generic/bmp.c:223-304 | Any picture written row by row after a jump is painted there, and index 0 everywhere else |
| PlaneImage.OutputRowRangeExact | kernel/CLIPDRAW/driver/vga16/compat_bitmap.c:73-91 | The range of output rows is the exact inverse of the scaling: an output row is in it if and only if it is fed by that source row |
| PlaneImage.ImagePixel | kernel/CLIPDRAW/driver/vga16/compat_bitmap.c:155-170 | There are four planes, each a row of bytes for every output row, the leftmost pixel in the highest bit. A bit is set if and only if the palette index has it that is in the cell of the dither tile the pixel's place picks, the tile being that of the source pixel in whose cell, scaled up, the pixel is; rows of a file stored bottom row first count from the last |
| PlaneRegen.RegenerateCore | kernel/CLIPDRAW/driver/vga16/compat_bitmap.c:372-405 | Any stretch asked for, from any saved states that are ready, comes out as that stretch of the whole image, and zero past its end |
| PlaneRegen.RegenRleFragment | kernel/CLIPDRAW/driver/vga16/compat_bitmap.c:293-354 | A fragment of one plane is filled with the image's bytes by decoding on from the best saved state, and nothing outside it changes |
| PlaneRegen.RegenRandomAccessFragment | kernel/CLIPDRAW/driver/vga16/compat_bitmap.c:270-289 | The same from rows that can be read in any order |
| PlaneRegen.BuildReloadIndex | kernel/CLIPDRAW/driver/vga16/compat_bitmap.c:196-255 | One state for each page, from which decoding can go on, at the first row the page needs |
| PlaneRegen.FindTouchedOutputRows | kernel/CLIPDRAW/driver/vga16/compat_bitmap.c:111-130 | Whether a range touches the planes at all, and the least range of rows that covers what it touches over all four |

## Findings

Properties the code or its comments promise that fail, each with a concrete input, and the exact condition under which
they hold.

- A volume's type (`FatVolume.TypesAgree`): the driver takes a volume without a 16-bit table size for FAT32; the section
  "FAT Type Determination" of the FAT32 File System Specification goes by the count of clusters alone. 100 clusters and
  no 16-bit size are told apart wrongly.
- Canonical rectangles (`RegionCanonical.RectCanonical`): a rectangle of more than 32000 rows is one band, which the
  builder would have split.
- Wide rows (`RegionCanonical.FullModeLimit`): a row of 16384 spans or more cannot be read back.
- The wrap of request sizes (`HeapSizes.AskedCovers`): a request of 0xFFFFFFF0 has the system asked for 8 bytes and is
  then given a block. AllocHeapEx and ReallocHeapEx promise what they do up to 0xFFFFFFE0.
- A search that misses (`HeapSizes.SearchComplete`): a request of 72 bytes is not given a free block of 72.
- Counts below zero (`WaitRuns.ReleaseNotNegative`): a release nobody acquired for takes a count of 0 to -1.
- Timeouts below -1 (`WaitRuns.NegativeTimeout`): they wait practically for ever instead of failing at once, if they
  reach back before the machine started.
- Waits under a held scheduler lock (`WaitRuns.QueuedTwice`, `SchedRuns.QueuedTwice`, `MessageRuns.PostOverwritten`):
  ProcessIrqPostMessage posts with the lock held (kernel/task/scheduler.c:215-243), so that a post that finds the mutex
  taken does not wait for it. A message is then overwritten, and a second post queues the interrupted thread twice.
- Publication of a page (`VmmRaces.PublicationOvertaken`): pp->origin is written before origin->phys
  (kernel/mem/vmm.c:849-861); a fault that had looked before the frame was last discarded can commit in between.
- Touching spans (`TouchingSquares.SquaresTouch`, `PolygonTouch.StrictIff`, `Polygons.PolyRegionCanonicalIff`,
  `RegionCanonical.BuiltCanonicalIff`): regions are to have one representation each (kernel/CLIPDRAW/region.c:114-118),
  but the spans of a polygon row may touch, and AddScanline does not merge them, as the comment at
  kernel/CLIPDRAW/region.c:130-138 says it should. Two squares side by side are not stored as the rectangle they make. The
  points are right all the same, and stay right when such regions are combined.
- Frames given out while they are being freed (`VmmRetakes.WiredDiscarded`, `VmmRetakes.WrittenDiscarded`,
  `VmmFrees.RunWires`, `VmmPages.RunWrites`): ReleaseVirtPage calls FreeDiscardedPhys with no lock held
  (kernel/mem/vmm.c:1097-1109), and that clears `allocated` before `dirty` and `wired` (kernel/mem/phys.c:50-63). A frame
  taken in between, mapped and wired, is unwired by the last write, and can then be discarded. Likewise one that was
  written to is marked clean by the write before it, and can then be discarded with what was written.
- Ranges of no pages (`VirtualArena.GivenNothing`, `VirtualArena.NothingGivenBack`): AllocVirtEx grants a request for
  nothing; given back, it can end up on the free list as a range of no pages. A request of more than 2^32 - 4096 bytes is
  one for nothing (`VirtualArena.PagesCover`).
- A vnode registered twice (`VnodeLinks.CroppedSame`): RegisterNewVnode clears the links of its vnode before it looks for
  the key, so that one already in the table takes its subtrees out with it.
- A page busy twice (`VmmRaces.ReleaseFindsBusy`): ReleaseVirtPage asserts busy == 1, but a page that was faulted onto
  a new frame while its old one is still being discarded is busy twice.

## Left out

- HeapEx.Heap.AllocHeapEx: promises nothing above 0xFFFFFFE0, where the code's sums wrap and it goes on with sizes that
  mean nothing.
- HeapEx.Heap.ReallocHeapEx: likewise, unless the block is long enough already.
- VmmRuns.StepKeepsIff: the paging steps are on values, not in place; the state is shared by threads and each lock is a
  step's guard, so what would be aliased is an index. `allocated` and `dirty` share a byte, and each is written by one
  instruction, as on one CPU.
- RowCursor.Cursor.Next: the sizes of a picture are unbounded, so the 32-bit overflow of a very large one is not modelled.
- Blocking.BlockingCore.AcquireSemFromMany: asks that a thread made to wait is not waiting already, which
  WaitRuns.StepKeepsIff shows to be what keeps the queues; the semaphores of one wait are distinct, as the code assumes;
  threads and semaphores are records found by index, so two pointers to one record are two equal indices.
- Blocking.BlockingCore.AddThreadToSleepQueue: likewise asks that a thread made to sleep is not waiting already.
- WaitRuns.QueuedTwice: says what becomes of the queue as a list; that the links then form a cycle is not modelled.
- MessageRuns.DeliveredInOrder: the mutex is free or held; that a barged-into mutex may then be handed to a waiter is not
  modelled.
- Polygons.CreatePolyPolygonRegion: says nothing of the region if a row has more than 16383 spans, which is then written
  with the wrong count, or if a corner is outside 16 bits or the width times the height of an edge exceeds 31 bits; a
  negative count of corners is not modelled.
- ThinLine.DrawThinLine: coordinates are unbounded; the 32-bit values fit while the longer side is under 2^29.
- Windows.SeenOnce: windows have no children, for ClipOurVisibility does not look at windows in front of a parent; regions
  are sets of points, and the dirtying by a change of the foreground window is left out.
- VnodeTable.Table.PurgeOldVnodes: nothing else runs between its batches, and a destructor touches nothing in the table.
- VirtualArena.StepKeepsIff: a range is given back with the size it was asked for with.
- Out of memory outside the heap, with the "bad" regions it leaves, panics and logging, and operations before the
  scheduler starts.
- PurgeFreeAreasFromHeapEx and the fencepost bit: SetSizeTags keeps whatever low bits a word held, so only the allocated
  bit is decided.
- The alignment of payloads: they start one word past a block.
- `scale_dc` remapping of regions, CdIsRegionEqual and CdGetRegionBounds.
- The wrap of the 64-bit clock as it advances.
- More than one CPU, and liveness that rests on fairness.
- The share counts of address spaces and chains of users of one frame, which the modelled paths never lengthen past one.
- BmpParse, the decoding of a pixel and the choice of a dithered colour are parameters; a picture that does not parse is
  not modelled.
- The pointer fat_cache_get hands out into its cache: the model hands out the sector's bytes.
- Writing of any kind to FAT volumes, directories and names; the driver only reads.
- Hardware, system calls, thick lines and other drawing, keyboard maps, library functions and tools.
