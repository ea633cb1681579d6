# Wasmato: allocators, index structures and blocking protocols in Dafny

Wasmato is a small x86-64 kernel with a user-mode WebAssembly runtime. This project models
the parts of it whose correctness is hard to see from the code, and proves what they are
for. Every file is checked together: `dafny verify dfyconfig.toml`.

* **Red-black tree** (`RbTheory`, `RbHeap`, `RbFocus`, `RbInsert`, `RbErase`, `RbUnlink`,
  `RbOrder`, `RbTree`): the ordered index under the address-space tree and the timers. The
  class works on a memory of node records by address, writing parent, child and colour
  fields in the order the C code does; a ghost tree says what that memory holds. A zipper
  (a tree with a hole) carries each proof along the path to the root.
* **Runtime heap** (`MallocSizes`, `MallocLayout`, `MallocBooks`, `MallocSteps`,
  `MallocOwners`, `MallocProofs`, `Malloc`, `MallocOverrun`): boundary tags, 64 bins and
  their bitmap, splitting, two-sided coalescing, in-place resizing, aligned carving, zeroed
  blocks. User bytes are modelled, and everything the allocator writes for itself erases the
  bytes underneath, so "no live block is disturbed" is a theorem about memory.
* **Scheduler** (`Scheduler`), **wait queues** (`WaitQueue`), both together as `atomic_wait`
  and `atomic_notify` (`AtomicWait`), and the **mutex** (`Mutex`): state machines over any
  number of cores and threads. Memory is sequentially consistent; each atomic access and
  each critical section of a spin lock is one step, except that a notification in
  `AtomicWait` holds its lock over many.
* **Page allocator** (`BuddyBlocks`, `BuddyState`, `Buddy`), **slab allocator** (`Slab`) and
  the two together (`KernelHeap`): the buddy allocator with its deliberately stale bitmap,
  and object slabs in its pages.
* **Hash map** (`HashProbe`, `HashTable`, `HashMap`): open addressing by buckets with
  triangular probing, tombstones, swap-delete and rehashing, shown to be a finite map.
* **TLB shootdown** (`Tlb`): unmapping with a flush on every other core before frames are
  reused.

`Arith` and `Lists` hold the arithmetic and list facts the others share.

## How the model reads the code

* Addresses are integers, 0 is NULL. The packed parent-and-colour word of a tree node is a
  record with two fields; `PackRoundTrip` shows that the packing loses nothing for the
  aligned addresses the kernel uses.
* Intrusive doubly linked lists are sequences. Where the code compares list pointers, the
  comparison is modelled and shown to mean what it should (`RingAlone`).
* Memory that the allocators get from below (`sys_heap_alloc`, `phys_alloc`) is a parameter
  of the call: any answer is allowed as long as it is memory that nobody has. `KernelHeap`
  puts the slab allocators on the page allocator itself.
* `RbTree.Find` and `Add` take the comparison as a parameter and promise order only when it
  is one.
* The invariants of the runtime heap and of `AtomicWait` are large. `Consistent` and `Inv`
  state them behind a trigger so that proofs unfold them only where they say so;
  `SegmentsTiled`, `FreeChunksFiled` and `AllocationsApart` say what the first comes to.

Where the code does not do what its comments promise, the code is modelled:

* `scheduler_schedule` has no branch for a current thread that is already READY
  (src/kernel/thread/sched.c:148-164), although a comment in `atomic_wait` says that an
  unpark which catches the thread parking makes the call return
  (src/kernel/thread/wait.c:139-141). The machine stops there. `WokenTooEarly` gives the
  run, and `StepGood` says that this is the only way for the scheduler to stop, apart from
  starting a thread twice.
* A thread stores PARKING before it masks interrupts (src/kernel/thread/wait.c:142,
  src/kernel/thread/wait.c:176). A tick in between parks it with nothing queued, and no
  notification finds it: `TickTooEarly` gives the run. `ParkedWhere` says that this is the
  only way: any other parked thread has all its entries queued or is being unparked.
* `bin_index_up` reads past the end of its table for requests above 8193 alignment units
  (src/runtime/alloc/malloc.c:46-52). Only `mem_realloc` can reach that, when it shrinks a
  chunk of the heap proper. `Realloc` returns `Stray` exactly then, and `Overrun` is a run
  from the empty heap that gets there.
* `mem_alloc` is not a best-fit search: `FitPassedOver` is a free chunk of exactly the size
  asked for that it does not find, and `BinReaches` says how large a chunk it always finds.
* `rb_erase_cached` returns NULL when the node erased is not the leftmost one
  (src/common/lib/rbtree/rbtree.h:118-129).

## Model

| member | source | states |
|---|---|---|
| `RbHeap.PackRoundTrip` | src/common/lib/rbtree/rbtree_augmented.h:176-197 | the parent-and-colour word gives back the parent and colour put into it, for every 4-byte aligned address |
| `RbHeap.ChangeChildLinks` | src/common/lib/rbtree/rbtree_augmented.h:199-210 | replacing a child in its parent, or at the root, leaves every link of the path above consistent and leading to the new child |
| `RbHeap.RotateLeftHolds` | src/common/lib/rbtree/rbtree.c:82-90 | the writes of a left rotation turn memory that holds a tree into memory that holds the rotated tree, parent links included, and touch only its nodes |
| `RbHeap.RotateRightHolds` | src/common/lib/rbtree/rbtree.c:82-90 | the mirror image |
| `RbTree.RbTree.InsertFlip` | src/common/lib/rbtree/rbtree.c:124-145 | recolouring under a red uncle moves the only red-red conflict two levels up and changes no order |
| `RbTree.RbTree.InsertRotate` | src/common/lib/rbtree/rbtree.c:147-228 | one or two rotations under a black uncle end the conflict: the subtree fits its place again, with the same nodes in the same order |
| `RbTree.RbTree.InsertColor` | src/common/lib/rbtree/rbtree.c:92-228 | from a red node whose parent may be red to a sound tree (black root, no red node with a red child, equal black heights, consistent parent links) with the same order |
| `RbTree.RbTree.EraseSiblingLeft` | src/common/lib/rbtree/rbtree.c:248-268 | a red sibling is rotated away and the black deficit stays where it was |
| `RbTree.RbTree.EraseSiblingRight` | src/common/lib/rbtree/rbtree.c:361-372 | the mirror image |
| `RbTree.RbTree.EraseRotateLeft` | src/common/lib/rbtree/rbtree.c:300-359 | with a red nephew one or two rotations make up for the missing black node |
| `RbTree.RbTree.EraseRotateRight` | src/common/lib/rbtree/rbtree.c:373-412 | the mirror image |
| `RbTree.RbTree.EraseFlip` | src/common/lib/rbtree/rbtree.c:269-299 | with black nephews the sibling turns red and the deficit ends at a red parent or moves up |
| `RbTree.RbTree.EraseColor` | src/common/lib/rbtree/rbtree.c:234-415 | a tree one black node short on one path becomes sound, same nodes in the same order |
| `RbTree.RbTree.UnlinkSingle` | src/common/lib/rbtree/rbtree_augmented.h:224-247 | a node with at most one child is replaced by it; the parent to rebalance from is returned exactly when a black node is missing |
| `RbTree.RbTree.UnlinkDouble` | src/common/lib/rbtree/rbtree_augmented.h:248-311 | the in-order successor takes the place and colour of a node with two children |
| `RbTree.RbTree.Unlink` | src/common/lib/rbtree/rbtree_augmented.h:215-315 | either way exactly that node leaves the in-order sequence |
| `RbTree.RbTree.Erase` | src/common/lib/rbtree/rbtree.c:446-459 | erasing any node of any sound tree removes exactly that node from the in-order sequence, leaves a sound tree, and touches no memory but its nodes |
| `RbOrder.SortedRemove` | src/common/lib/rbtree/rbtree.c:446-459 | what is left of a sorted tree after an erase is sorted |
| `RbTree.RbTree.Descend` | src/common/lib/rbtree/rbtree.h:194-211 | the descent ends at the link that splits the sequence into what is not greater than the new node and what is |
| `RbTree.RbTree.InsertAt` | src/common/lib/rbtree/rbtree.h:68-75 | linking and rebalancing put the node there and leave a sound tree |
| `RbTree.RbTree.Add` | src/common/lib/rbtree/rbtree.h:194-211 | the node goes after every element not greater than it; order and soundness are kept |
| `RbTheory.LogarithmicHeight` | src/common/lib/rbtree/rbtree.c:24-43 | a sound tree of n nodes and height h has 2^h <= (n + 1)^2 |
| `RbTree.RbTree.HeightIsLogarithmic` | src/common/lib/rbtree/rbtree.c:24-43 | so every tree the operations can build does |
| `RbTree.RbTree.First` | src/common/lib/rbtree/rbtree.c:470-480 | the first node in order, or 0 |
| `RbTree.RbTree.Last` | src/common/lib/rbtree/rbtree.c:482-492 | the last node in order, or 0 |
| `RbTree.RbTree.Next` | src/common/lib/rbtree/rbtree.c:494-523 | the in-order successor of any node, 0 after the last and for a node in no tree |
| `RbTree.RbTree.Prev` | src/common/lib/rbtree/rbtree.c:525-551 | the in-order predecessor |
| `RbTree.RbTree.Traverse` | src/common/lib/rbtree/rbtree.c:470-523 | iterating `rb_next` from `rb_first` visits exactly the in-order sequence and ends |
| `RbTree.RbTree.Find` | src/common/lib/rbtree/rbtree.h:255-273 | a node that matches; none only if no node of the ordered tree matches |
| `RbTree.CachedTree.Add` | src/common/lib/rbtree/rbtree.h:164-186 | as `Add`, and the cached node is still the first one |
| `RbTree.CachedTree.Erase` | src/common/lib/rbtree/rbtree.h:118-129 | as `Erase`, and the cached node is still the first one; it is returned only if it changed |
| `MallocSizes.TabIsBinTab` | src/runtime/alloc/malloc.c:31-36 | the bin table is the step function the other lemmas compute with |
| `MallocSizes.BinFits` | src/runtime/alloc/malloc.c:38-52 | every chunk in a bin at or above the one for an adjusted request up to the mmap threshold is large enough for it |
| `MallocSizes.BinReaches` | src/runtime/alloc/malloc.c:38-52 | and the search misses no chunk that is a quarter larger than the request, nor, for requests up to 33 alignment units, any that is large enough |
| `MallocSizes.FitPassedOver` | src/runtime/alloc/malloc.c:46-52 | above that an exact fit can be passed over, since a bin holds several sizes: 36 units are an example |
| `MallocSizes.BinIndexUpBound` | src/runtime/alloc/malloc.c:46-52 | `bin_index_up` stays inside its table if and only if the size is at most 8193 alignment units |
| `MallocSizes.BinTableOverrun` | src/runtime/alloc/malloc.c:46-52 | one unit more and it reads entry 60 of 60 |
| `MallocSizes.AdjustSizeFits` | src/runtime/alloc/malloc.c:118-130 | the adjusted size is a multiple of 32 that holds the request and the header and wastes less than 32 bytes |
| `MallocBooks.RingAlone` | src/runtime/alloc/malloc.c:132-139 | the neighbours of a chunk in its bin's ring are equal exactly when it is alone, so the bitmap bit is cleared exactly when the bin becomes empty |
| `Malloc.Arena.Unbin` | src/runtime/alloc/malloc.c:132-139 | a free chunk leaves its bin and is in use; the heap stays well formed and no owned byte changes |
| `MallocBooks.BinnedAdd` | src/runtime/alloc/malloc.c:141-148 | appending a newly free chunk to the bin of its size, and setting the bit if the bin was empty, keeps every free chunk in exactly its bin and every bit right |
| `Malloc.Arena.Trim` | src/runtime/alloc/malloc.c:150-170 | an in-use chunk is cut to exactly the size asked for, the rest becomes a free chunk in its bin |
| `Malloc.Arena.Expand` | src/runtime/alloc/malloc.c:54-116 | new memory extends the last segment if it borders on it, and opens one otherwise; the chunk returned is large enough and nobody's; refused exactly if the size overflows or the kernel refuses the one length asked for, the page-rounded size or the growing minimum |
| `Malloc.Arena.FromBins` | src/runtime/alloc/malloc.c:203-214 | the head of the lowest non-empty bin from a given one up; none only if all those bins are empty |
| `Malloc.Arena.FastPath` | src/runtime/alloc/malloc.c:191-202 | the first chunk of the request's own bin, taken exactly if it fits exactly; otherwise no change |
| `Malloc.Arena.SlowPath` | src/runtime/alloc/malloc.c:203-224 | a chunk of exactly the size asked for, from a larger bin if one has chunks and otherwise from new memory; refused exactly if no bin has and the kernel refuses |
| `Malloc.Arena.AllocLarge` | src/runtime/alloc/malloc.c:179-189 | requests above the threshold get a region of their own; refused exactly if the kernel refuses that region |
| `Malloc.Arena.Alloc` | src/runtime/alloc/malloc.c:172-225 | the block is disjoint from every live one, holds the request, is 32-byte aligned; the heap stays well formed and live bytes keep their values; NULL if and only if the size is refused or the kernel refuses the one length it is asked for, which for small sizes happens only when no bin fits, and then no free chunk is a quarter larger than the request, or, for up to 33 units, large enough at all |
| `Malloc.Arena.Retire` | src/runtime/alloc/malloc.c:302-356 | a chunk is merged with its free neighbours on both sides and filed in the bin of the result; both footer assertions hold; exactly that allocation ends |
| `Malloc.Arena.MemFree` | src/runtime/alloc/malloc.c:358-376 | exactly one allocation ends; a large one is recognised by its header and its region's base recovered |
| `Malloc.Arena.Copy` | src/runtime/alloc/malloc.c:297-297 | the bytes of one block appear in the other and nothing else changes |
| `Malloc.Arena.MoveTo` | src/runtime/alloc/malloc.c:292-300 | a new block with the first bytes of the old one, which is freed; or, exactly if `mem_alloc` refuses, no change |
| `Malloc.Arena.ShrinkInPlace` | src/runtime/alloc/malloc.c:266-270 | a chunk keeps its front, its tail is freed and merged |
| `Malloc.Arena.GrowInPlace` | src/runtime/alloc/malloc.c:273-289 | a chunk takes over what it needs of the free chunk after it |
| `Malloc.Arena.ReallocChunk` | src/runtime/alloc/malloc.c:256-300 | on the shrink, grow and copy paths the first min(old, new) usable bytes survive and no other block changes; the block stays at its address exactly if it shrinks and no smaller bin has chunks or the free chunk after it suffices; NULL exactly if it has to move and cannot; the table is overrun exactly for shrinks to more than 8193 units |
| `Malloc.Arena.ReallocLarge` | src/runtime/alloc/malloc.c:241-254 | the same bytes survive for a block with a region of its own, also when the first attempt to move it fails; NULL exactly if it needs another region and every attempt is refused |
| `Malloc.Arena.Realloc` | src/runtime/alloc/malloc.c:227-300 | the same for every call, including NULL and sizes that are refused |
| `MallocOverrun.Overrun` | src/runtime/alloc/malloc.c:260-263 | from the empty heap, two allocations, one free and two calls of `mem_realloc` (grow in place, then shrink by one unit) overrun the bin table |
| `Malloc.Arena.Carve` | src/runtime/alloc/aligned_alloc.c:28-50 | the front of a block just allocated, up to an aligned address, is given back |
| `Malloc.Arena.AllocAligned` | src/runtime/alloc/aligned_alloc.c:8-51 | the block starts at a multiple of the alignment, holds the request and is disjoint from every live one; NULL if and only if the alignment has more than one bit, the sum overflows or `mem_alloc` refuses the padded size |
| `Malloc.Arena.Mal0Clear` | src/runtime/alloc/malloc.c:378-391 | everything from the returned offset to the end is zero, although pages found zero are not written |
| `Malloc.Arena.Calloc` | src/runtime/alloc/malloc.c:393-403 | every byte of the block is zero whatever the memory held; NULL if and only if the product overflows or `mem_alloc` refuses it |
| `MallocProofs.SegmentsTiled` | src/runtime/alloc/malloc.c:81-116 | in every reachable heap chunks tile each segment up to an in-use sentinel and each footer equals its header |
| `MallocProofs.FreeChunksFiled` | src/runtime/alloc/malloc.c:132-170 | no two free chunks are neighbours, every free chunk is in exactly the bin of its size, once, and bit i is set if and only if bin i is not empty |
| `MallocProofs.AllocationsApart` | src/runtime/alloc/malloc.c:172-225 | live blocks overlap neither each other nor a free chunk |
| `HashProbe.BucketsDiffer` | src/runtime/lib/stb_ds.c:540-543 | triangular steps modulo a power of two never meet within as many rounds as there are buckets |
| `HashProbe.EverySlot` | src/runtime/lib/stb_ds.c:513-544 | every slot is looked at within as many steps as there are slots |
| `HashTable.ThresholdsLeaveRoom` | src/runtime/lib/stb_ds.c:170-202 | within both thresholds used and deleted slots together are fewer than all |
| `HashTable.ResizeRoom` | src/runtime/lib/stb_ds.c:624-636 | growing makes room, and a table is halved only when it stays below its new threshold |
| `HashTable.ProbeEnds` | src/runtime/lib/stb_ds.c:170-202 | so every probe meets an empty slot |
| `HashTable.NextRound` | src/runtime/lib/stb_ds.c:540-543 | adding the step and masking moves to the next bucket of the order and keeps the offset |
| `HashTable.InsertOk` | src/runtime/lib/stb_ds.c:696-715 | an entry put into the first deleted or empty slot of its probe is met by every later probe for it |
| `HashTable.RenameOk` | src/runtime/lib/stb_ds.c:773-788 | re-pointing the moved entry's slot keeps every entry reachable |
| `HashMap.CopyTable` | src/runtime/lib/stb_ds.c:231-275 | the new table has exactly the entries of the old one and no deleted slot |
| `HashMap.SearchHits` | src/runtime/lib/stb_ds.c:499-546 | a search for a key that one entry has ends at the slot of that entry |
| `HashMap.SearchMisses` | src/runtime/lib/stb_ds.c:499-546 | a search for a key that no entry has ends at an empty slot |
| `HashMap.Map.Probe` | src/runtime/lib/stb_ds.c:638-695 | the probe ends, at the first slot that is empty or has the key, and reports the first deleted slot it passed, or that there was none |
| `HashMap.Map.FindSlot` | src/runtime/lib/stb_ds.c:499-546 | the slot where the search stops, or -1 if that slot is empty, also while array and index are out of step |
| `HashMap.Map.Get` | src/runtime/lib/stb_ds.c:548-577 | the index of the entry with the key, or -1 exactly if the finite map does not have it |
| `HashMap.Map.Put` | src/runtime/lib/stb_ds.c:604-726 | the finite map is updated at the key; a new entry is at the end of the array; the table doubles exactly when it is at its threshold |
| `HashMap.Map.Adopt` | src/runtime/lib/stb_ds.c:772-788 | the last entry moves into the gap, its slot is found again although its key stands twice in the array, and is re-pointed; both assertions hold |
| `HashMap.Map.Delete` | src/runtime/lib/stb_ds.c:739-805 | the finite map loses exactly the key; the array is the old one with the last entry in the gap; table thresholds hold after shrinking or rebuilding, and it is halved exactly below a quarter |
| `HashMap.Map.Replay` | src/runtime/lib/stb_ds.c:604-805 | any sequence of puts and deletes does to the map what it does to a finite map, and the table keeps at most eight slots or four for each entry |
| `Scheduler.StepGood` | src/kernel/thread/sched.c:90-265 | every step on every core keeps the invariant; exact conditions for the two assertions that can fail, and the one on the selected thread cannot |
| `Scheduler.SelectedReady` | src/kernel/thread/sched.c:172-172 | a thread taken from a run queue, or the idle thread, is READY |
| `Scheduler.QueueStep` | src/kernel/thread/sched.c:90-98 | a step changes its core's queue only by appending a thread or by dropping the first, which is then the one selected; the idle thread is selected only if the queue is empty |
| `Scheduler.FirstInFirstOut` | src/kernel/thread/sched.c:155-165 | in every run a queued thread moves up with every selection of its core, and is selected after at most as many as there were threads before it, plus one |
| `Scheduler.NoThreadLost` | src/kernel/thread/sched.c:90-191 | in every run a READY thread is in the queue of a core, with it, or at the step of its code that puts it there |
| `Scheduler.ReadyGetsQueued` | src/kernel/thread/sched.c:100-191 | a core in the scheduler comes out of it in at most nine of its own steps, with every READY thread of its in its queue or current |
| `Scheduler.LeaverLeaves` | src/kernel/thread/sched.c:100-136 | a thread switched out while PARKING ends up PARKED and a dead one is put, in the steps of its core alone |
| `Scheduler.RunsSafe` | src/kernel/thread/sched.c:90-191 | in every run a thread is in at most one run queue, once, is occupied by at most one core, and is in no other core's queue while a core still switches away from it |
| `Scheduler.RunsSettle` | src/kernel/thread/sched.c:231-259 | successful unparks of a thread equal its wake-ups that took effect, but for at most one under way |
| `Scheduler.StepSettles` | src/kernel/thread/sched.c:100-118 | a wake takes effect by exactly one enqueueing, by the unparking core or by the core that switched the thread out, or by the thread giving up parking |
| `Scheduler.WokenTooEarly` | src/kernel/thread/sched.c:148-164 | from the initial state, an unpark between the announcement and the call to the scheduler stops the machine |
| `WaitQueue.NotifyList` | src/kernel/thread/wait.c:235-255 | the loop over the indirect pointer computes the walk |
| `WaitQueue.WalkSpec` | src/kernel/thread/wait.c:229-261 | only matching entries leave, in order; one thread leaves the parked ones for each counted; the walk stops early only at the limit |
| `WaitQueue.WalkPrefix` | src/kernel/thread/wait.c:235-255 | the entries that leave are the matching ones of a prefix of the list, which is the whole list unless its last entry was the one that reached the limit |
| `WaitQueue.WalkRemoves` | src/kernel/thread/wait.c:229-261 | no entry leaves whose thread stays parked |
| `WaitQueue.WaitTable.Prepare` | src/kernel/thread/wait.c:84-108 | the entry joins the queued ones exactly if the word has the expected value; nothing else is queued or unqueued, and every queue stays well formed |
| `WaitQueue.WaitTable.Finish` | src/kernel/thread/wait.c:110-128 | of all entries in all queues exactly this one is no longer queued |
| `WaitQueue.WaitTable.Notify` | src/kernel/thread/wait.c:229-261 | the queue of the key after the walk, and how many were woken |
| `WaitQueue.NoMissedNotification` | src/kernel/thread/wait.c:84-108 | while the word differs from a value, from a notify-all with an overlapping mask on no waiter that expected the value is queued or gets queued |
| `AtomicWait.StepInv` | src/kernel/thread/wait.c:130-226 | every step of waiters, notifiers, timers and the scheduler, on any number of cores, keeps the invariant of `atomic_wait` |
| `AtomicWait.NoLostWakeup` | src/kernel/thread/wait.c:229-261 | in every run, from the return of a notify-all on and while the word differs, no thread that waits for the word to leave the value is queued, and none is PARKING or PARKED unless a core is unparking it at this moment |
| `AtomicWait.NoticeEnds` | src/kernel/thread/wait.c:239-252 | a notification ends only by its own core's step, with at most as many wakes as asked for, and with fewer, or when it may wake all, only when no entry that it is for is left |
| `AtomicWait.WalkCounts` | src/kernel/thread/wait.c:244-246 | the count that `atomic_notify` returns grows by one exactly when it has woken the thread it has in hand, and it wakes no other |
| `AtomicWait.NotifyCompletes` | src/kernel/thread/wait.c:229-261 | from every reachable world a notification under way is brought to its end by the steps of its own core |
| `AtomicWait.CallSleeps` | src/kernel/thread/wait.c:178-206 | if every word is as expected the caller queues all its entries and enters the scheduler |
| `AtomicWait.CallReturns` | src/kernel/thread/wait.c:195-226 | on finding a word changed, or after coming back, it removes all it has queued and leaves the call |
| `AtomicWait.NoEntryLeftBehind` | src/kernel/thread/wait.c:208-212 | an entry that is queued belongs to a thread still inside the call: when the call returns its stack frame is in no queue |
| `AtomicWait.ParkedWhere` | src/kernel/thread/wait.c:138-206 | a PARKED thread is waiting with all its entries queued, or being unparked, or was interrupted before it queued any |
| `AtomicWait.TickTooEarly` | src/kernel/thread/wait.c:142-176 | from the initial state, a tick before interrupts are masked parks a thread that is in no queue |
| `Mutex.StepGood` | src/runtime/sync/mutex.c:11-43 | every step keeps the invariant |
| `Mutex.MutualExclusion` | src/runtime/sync/mutex.h:20-33 | in every run at most one thread holds the mutex and the word is UNLOCKED exactly when none does |
| `Mutex.CallsReturn` | src/runtime/sync/mutex.h:20-33 | `mutex_lock` returns only with the mutex, which was free; only its holder's unlock ends the holding; a thread moves only by its own steps, except that a sleeper may be woken |
| `Mutex.UnlockReleases` | src/runtime/sync/mutex.h:28-33 | after every unlock nobody holds the mutex and the word is UNLOCKED; it notifies exactly if the word was CONTENDED |
| `Mutex.SpinningEnds` | src/runtime/sync/mutex.c:11-26 | a locker spins for a bounded number of its own steps, then has the mutex or is about to exchange in CONTENDED |
| `Mutex.FreeIsTaken` | src/runtime/sync/mutex.c:11-39 | while the mutex is free any thread outside or inside `mutex_lock`, but for a sleeper, takes it by its own steps |
| `Mutex.EveryLockerCanWin` | src/runtime/sync/mutex.c:11-43 | no deadlock: in every reachable state every thread inside `mutex_lock`, asleep or not, can still get the mutex, without timeouts or spurious wake-ups |
| `Mutex.WakesOne` | src/runtime/sync/mutex.c:41-43 | a notification wakes one sleeper if there is any, and never more |
| `Mutex.OthersKept` | src/runtime/sync/mutex.c:28-43 | waiters on other keys in the same queue stay there, in their order |
| `Mutex.NoSleeperStranded` | src/runtime/sync/mutex.c:28-43 | a sleeper implies CONTENDED, an unlocker about to notify, or a woken thread about to exchange in CONTENDED, also under spurious wake-ups |
| `Mutex.HolderWillNotify` | src/runtime/sync/mutex.c:28-43 | when nothing is under way, a sleeper has a holder whose unlock will notify |
| `Buddy.LevelBySizeLeast` | src/kernel/mem/phys.c:41-60 | the level of a size is the smallest whose blocks hold it |
| `BuddyBlocks.Canonical` | src/kernel/mem/phys.c:145-174 | when no two free buddies share a level below the top, the free blocks are a function of the free pages alone |
| `BuddyState.NeighborAccurate` | src/kernel/mem/phys.c:145-161 | although merged blocks keep stale bits inside, the bit and level read for a neighbour tell exactly whether it is a free block of that level |
| `Buddy.Phys.AllocLevel` | src/kernel/mem/phys.c:93-131 | the block was free and is naturally aligned; it is cut from the first block of the lowest level that has one; refused if and only if no aligned run of that many pages is free |
| `Buddy.Phys.Alloc` | src/kernel/mem/phys.c:86-131 | the same by size; refused above 2 MiB |
| `Buddy.Phys.MergeUp` | src/kernel/mem/phys.c:145-174 | merging ends at a block whose buddy is not free or at the top, and loses no page |
| `Buddy.Phys.FreeLevel` | src/kernel/mem/phys.c:133-183 | both assertions hold; exactly the block's pages become free; blocks stay disjoint, aligned, coalesced and tile the added memory |
| `Buddy.Phys.Free` | src/kernel/mem/phys.c:185-194 | the same by size; NULL with any size changes nothing |
| `Buddy.Phys.AllocThenFree` | src/kernel/mem/phys.c:86-183 | allocating and freeing restores the set of free blocks |
| `Buddy.Phys.BestLevel` | src/kernel/mem/phys.c:200-218 | the largest level that fits and is aligned |
| `Buddy.Phys.AddMemory` | src/kernel/mem/phys.c:220-238 | exactly the added pages become free, whatever borders on them |
| `Slab.Init` | src/kernel/mem/alloc.c:82-115 | objects are aligned, behind the header and as many as fit; refused exactly when one of the assertions fails, a zero size or alignment among them |
| `Slab.SlabAlloc.Create` | src/kernel/mem/alloc.c:49-75 | all objects of the new page are on its free list |
| `Slab.SlabAlloc.Alloc` | src/kernel/mem/alloc.c:140-180 | an object nobody holds, from the first partial slab if there is one, else from the first empty one, else from a new one; refused exactly if no slab has room and no page is to be had; each slab is on the list its count dictates |
| `Slab.SlabAlloc.Free` | src/kernel/mem/alloc.c:182-216 | exactly that object is free again; NULL changes nothing |
| `Slab.SlabAlloc.Guarantee` | src/kernel/mem/alloc.c:45-47 | objects in use are aligned, past the header, inside the page their address leads back to, and pairwise disjoint |
| `KernelHeap.Kernel.MemAlloc` | src/kernel/mem/alloc.c:140-180 | over the page allocator: an object nobody holds, in a page that was free if a new slab was needed; refused if and only if no slab has room and no page is free |
| `KernelHeap.Kernel.MemFree` | src/kernel/mem/alloc.c:182-216 | exactly that object is free again; no page changes hands |
| `KernelHeap.Kernel.MemLock` | src/kernel/mem/alloc.c:117-127 | exactly the slabs with no object in use go back to the page allocator |
| `KernelHeap.Kernel.HeldAlone` | src/kernel/mem/alloc.c:49-53 | whatever is allocated and freed beside it, the page of an object in use is not free, and no other block of pages has any of the object's bytes |
| `KernelHeap.Kernel.ObjectsDisjoint` | src/kernel/mem/alloc.c:45-75 | objects in use of one allocator or of two overlap nowhere |
| `Tlb.QueueCovers` | src/kernel/mem/virt.c:123-143 | queueing a page covers it by the list or by flush-all, and uncovers none, at any page count |
| `Tlb.StepGood` | src/kernel/mem/virt.c:92-153 | every step of unmapper, handlers and hardware keeps the invariant; the handler's assertions hold |
| `Tlb.CommitReachesAll` | src/kernel/mem/virt.c:292-328 | after the commit no core has a translation for any page of the range |
| `Tlb.UnmapUnmaps` | src/kernel/mem/virt.c:292-328 | in every run, when a call is over exactly the pages asked for have lost their entries, no core has a translation for any of them, and the pool has gained exactly their frames, or nothing if they were not to be freed |
| `Tlb.UnmapCompletes` | src/kernel/lib/ipi.c:24-62 | a call is never stuck: from wherever it is, its core and the interrupt handlers bring it to its end |
| `Tlb.FreeFramesUnreachable` | src/kernel/lib/ipi.c:24-62 | in every run no core can reach a frame that is in the pool through the page-table entries that mapped it |

## Left out

- Weak memory ordering: all machines are sequentially consistent; fences are not modelled.
- Locks inside the runtime heap: each public call is atomic, so the unlocked fast path and the rechecks under the bin locks are not exercised by interleaving.
- `sys_heap_alloc` and `sys_heap_free` themselves: their answers are parameters; the length passed is in bytes, a multiple of the page size.
- `RECLAIM`: the code for returning pages inside large free chunks is commented out in the source.
- Augmented trees, `rb_replace_node`, postorder iteration and `rb_find_add`: they would add easier members than the operations modelled.
- String keys, string storage and the mixing functions of stb_ds: the hash is an arbitrary function and keys are values with equality; the default element in front of the array is not part of the model.
- Rehashing walks the slots of the old table in one loop instead of a loop over buckets and one over their slots; the order is the same.
- Timers, preemption counts and interrupt masks in `Scheduler`: an unpark or a call to the scheduler may happen at any point where a core runs a thread, which includes every tick. `AtomicWait` models where `atomic_wait` masks interrupts.
- Starting the cores: every core already runs its idle thread in the initial state. `thread_start` checks and stores in one step, since a thread is started by one owner.
- Thread reference counts and freeing of dead threads.
- `atomic_wait`: memory for more than 64 entries, with the return on failing to get it that leaves the state word PARKING, and the faults of user accesses are not modelled; a deadline is an unpark by some core at any time.
- Malloc.Arena.Copy: overlapping blocks are not allowed, as for `memcpy`.
- Buddy bitmap pages, the Limine memory map and reclaiming of boot memory: added ranges are inputs, pages are numbers, the bitmap is the set of pages whose bit is set.
- Slab.Init: the header size is the constant 40; alignments other than zero and powers of two are not covered, since `__builtin_align_up` is not defined for them.
- KernelHeap.Kernel.MemLock: the protection of the remaining pages is not modelled.
- Tlb.FreeFramesUnreachable: speaks of the page-table entries of ranges that are mapped and unmapped; the direct map, in which `virt_unmap` makes a frame visible again just before freeing it, and physical mappings, whose frames do not come from the pool, are not part of this model.
- `virt_unmap_direct` flushes before it clears the entry, and `virt_protect` and `virt_remove_global` only change permissions or the G bit: not part of this model.
- Interrupt vectors, APIC, page-table levels above the last and the encoding of entries: a page has an entry or none.
- Physical map bookkeeping, address-space gap search, timer arming, channels, handles, WASI, the JIT and formatting.
