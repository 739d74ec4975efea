# McKernel kernel core: a Dafny model and its proofs

McKernel is a lightweight kernel that runs beside Linux on many-core processors. This project models the parts of its
`kernel/` directory where the bookkeeping is hardest to get right, and proves what each of them keeps or computes:

- **Shared helpers** (`Seqs`): sequences without repetition, optional values and the first index of a run at which something holds.
- **Red-black trees** (`RbTree`, `RbLinks`, `RbInsertFix`, `RbEraseFix`, `RbUnlink`, `RbRoot`). Nodes live in an arena of
  parent, colour and child words that the methods rewrite as the C code does. A ghost tree says what the arena means; a zipper
  (`Ctx`) names the place a loop has reached. Insert and erase restore every red-black property for every tree, and the
  traversals are proved against the in-order, post-order and pre-order node sequences.
- **The address space** (`VmSpace`, `VmOrder`, `VmCarve`, `VmProtect`, `ProcessVm`). Ranges in such a tree, a lookup cache and
  reference counts. Its meaning is the partial function `At` from addresses to flags, memory object and object offset. Page-table
  operations may fail: their results come from `ptResults`, and an empty sequence means that they all succeed.
- **Priority lists** (`ListHead`, `Plist`): two intrusive rings over one set of nodes, spliced pointer by pointer.
- **Futexes** (`Futex`, `FutexProtocol`, `FutexSteps`, `FutexSafety`, `FutexWake`, `FutexRequeue`, `FutexCalls`). `Futex` says which waiters
  wake and requeue take. `FutexProtocol` is a state machine in which waiters, wakers, callers of `futex_wake_op` and requeuers
  interleave at single accesses, bucket locks are spin locks, and `unqueue_me` reads `lock_ptr` without a lock. A run is any
  sequence of events. `FutexSteps` says what one step leaves alone; the others state what holds in all runs, `FutexCalls`
  for whole calls from their arguments to their return.
- **The kernel heap** (`KmallocChunks`, `Kmalloc`): chunk headers, per-CPU free lists and remote free lists.
- **TLB shootdown** (`TlbFlush`): initiators and interrupt handlers interleaved over one flush entry.
- **Run queues** (`RunQueue`): `schedule()`, add, delete and migration, as functions on a state, as events of runs, and as
  methods with the source's loops.
- **Lock-less lists** (`Llist`): many adders and one deleter, interleaved at single loads, stores and compare-and-exchanges.
- **File page-in** (`FilePageIo`): `fileobj_get_page` and `fileobj_do_pageio` interleaved at their critical sections.
- **Core dumps** (`GenCore`): the counting, header and table passes, on arrays sized by the counting pass.

Two conventions recur. Invariants quantify over small named predicates (`Clear`, `OneReader`, `PairOk`) so that a proof
instantiates exactly what it names. State machines carry auxiliary fields that no step reads, marked as such where they are
declared: where a waiter is, what a CPU has flushed, what has been pushed and popped.

## Model

| member | source | states |
|---|---|---|
| `RbRoot.RbRoot.InsertColor` | kernel/rbtree.c:76-199 | For every red-black tree with a new red leaf, the loop ends with a valid red-black tree linked consistently in memory from the right root, and the same in-order node sequence. |
| `RbRoot.RbRoot.InsertRotate` | kernel/rbtree.c:122-162 | The rotating cases: red-black again above and below, in-order sequence unchanged. |
| `RbRoot.RbRoot.Rotate` | kernel/rbtree.c:66-74 | A rotation with its parent and colour writes turns exactly the stated subtrees around; no node changes but the two rotated, the root of the inner subtree and the parent above. |
| `RbRoot.RbRoot.EraseColor` | kernel/rbtree.c:205-365 | For every tree that is red-black but one black node short below one child of `parent`, the loop ends with a valid red-black tree and the same in-order sequence. |
| `RbRoot.RbRoot.EraseRedSibling` | kernel/rbtree.c:221-238 | The red-sibling case gives a black sibling one level down without changing order or black heights. |
| `RbRoot.RbRoot.EraseSiblingFlip` | kernel/rbtree.c:240-269 | The two-black-nephews case moves the missing black node one level up or ends the loop. |
| `RbRoot.RbRoot.EraseRefill` | kernel/rbtree.c:270-312 | The nephew cases restore every black height. |
| `RbRoot.RbRoot.EraseEasy` | kernel/include/rbtree_augmented.h:133-157 | Unlinking a node with a missing child removes just that node from the sequence and says where the fix-up must start. |
| `RbRoot.RbRoot.EraseInner` | kernel/include/rbtree_augmented.h:157-219 | Unlinking a node with two children: its successor takes its place; only that node leaves the sequence. |
| `RbRoot.RbRoot.Erase` | kernel/rbtree.c:396-402 | Erasing any node of any valid tree leaves a valid tree whose sequence is the old one without that node. |
| `RbRoot.RbRoot.LinkAndColor` | kernel/include/rbtree.h:82-89 | Linking at any free place and fixing up puts the node exactly there in the sequence. |
| `RbTree.LogarithmicHeight` | kernel/rbtree.c:30-44 | A red-black tree of n nodes has 2^height at most (n + 1)^2. |
| `RbRoot.RbRoot.First` | kernel/rbtree.c:422-432 | The first node in order, NULL for the empty tree. |
| `RbRoot.RbRoot.Last` | kernel/rbtree.c:498-508 | The last node in order, NULL for the empty tree. |
| `RbRoot.RbRoot.Next` | kernel/rbtree.c:511-540 | The in-order successor, NULL after the last node and for a node on no tree. |
| `RbRoot.RbRoot.Prev` | kernel/rbtree.c:595-621 | The in-order predecessor, NULL before the first node and for a node on no tree. |
| `RbRoot.RbRoot.NextPostorder` | kernel/rbtree.c:653-669 | The post-order successor. |
| `RbRoot.RbRoot.FirstPostorder` | kernel/rbtree.c:672-678 | The first node in post-order. |
| `RbRoot.PreorderDfs` | kernel/rbtree.c:439-457 | The first node of the pre-order sequence that meets the condition, NULL if none does. |
| `ProcessVm.ProcessVm.VmRangeInsert` | kernel/process.c:1350-1377 | Inserts exactly when no range overlaps; otherwise -EFAULT and no change. |
| `ProcessVm.ProcessVm.Lookup` | kernel/process.c:1558-1610 | The lowest range overlapping [start, end), NULL iff there is none; the cache answers as the tree would. |
| `ProcessVm.ProcessVm.Split` | kernel/process.c:923-1013 | Exactly the range cut in two, one more reference on its object; no change on error. |
| `VmSpace.CutSame` | kernel/process.c:958-994 | Cutting a range changes the mapping of no address. |
| `ProcessVm.ProcessVm.Join` | kernel/process.c:1015-1081 | Joins exactly when the ranges are adjacent and agree in flags, object and offset; cache slots of the merged range move to the survivor. |
| `VmSpace.GlueSame` | kernel/process.c:1025-1042 | Joining ranges that pass the test changes the mapping of no address. |
| `ProcessVm.ProcessVm.Free` | kernel/process.c:1083-1243 | One range gone and one reference dropped; the page-table window that is cleared holds the range, meets no other, and is the widest such window on the page sizes; no cache slot names the freed range. |
| `ProcessVm.WidenDown` | kernel/process.c:1106-1123 | The window starts at the largest page that does not reach below the lower neighbour's end, and never above the range. |
| `ProcessVm.WidenUp` | kernel/process.c:1124-1140 | The mirror image at the upper end. |
| `ProcessVm.ProcessVm.Remove` | kernel/process.c:1245-1348 | On success the map is the old one minus [start, end), pointwise; on error only addresses inside it may be gone; ranges stay disjoint and sorted, references match; the read-only flag is set iff a read-only address went. |
| `VmCarve.CarveReadOnly` | kernel/process.c:1300-1328 | Each range carved out records a read-only loss exactly when one happens. |
| `ProcessVm.ProcessVm.Add` | kernel/process.c:1463-1556 | Succeeds iff the range lies in the user region and is unmapped, page-table updates aside; then exactly its addresses are added and the caller's reference becomes the range's. Which error each failure returns; on failure no range and no reference changes; after an overlap the page table stays filled in and the new range's memory stays allocated, exactly as stated. |
| `ProcessVm.ProcessVm.NextRange` | kernel/process.c:1612-1631 | The range with the lowest address above. |
| `ProcessVm.ProcessVm.PreviousRange` | kernel/process.c:1633-1652 | The range with the highest address below. |
| `ProcessVm.ProcessVm.ExtendUp` | kernel/process.c:1654-1685 | Succeeds iff the new end is above the old, in the user region, and the addresses up to it are unmapped; otherwise -EINVAL, -EPERM or -ENOMEM in that order, and no change. On success only the end changes. |
| `ProcessVm.ProcessVm.ChangeProt` | kernel/process.c:1687-1746 | The range has exactly the read, write and execute bits asked for; every other field of its flags, and every other range, is unchanged. |
| `ProcessVm.ProcessVm.ProtectLoop` | kernel/syscall.c:2614-2691 | Exactly the addresses up to `mid` have the read, write and execute bits asked for and nothing else differs; success means `mid` is the end; -EACCES iff `mid` is mapped but may not take one of the bits, -ENOMEM iff it is not mapped. |
| `ProcessVm.ProcessVm.Mprotect` | kernel/syscall.c:2558-2711 | -EINVAL iff misaligned. With page-table operations that succeed: returns 0 iff the interval is in the user region and every address may take each bit asked for; then an address of it can be written iff write was asked for, likewise read, and nothing else differs. |
| `VmProtect.RoundingExact` | kernel/syscall.c:2579-2600 | The rounded length covers the request iff it is at most 2^64 - 4096; above that it is 0 and the call does nothing. |
| `ProcessVm.ProcessVm.SearchFreeSpace` | kernel/syscall.c:1755-1801 | For every 64-bit length: the hint if its wrapped interval is unmapped, else an aligned address at or above map_end that passes both tests; where no sum can wrap it is the least one, and -ENOMEM means there is none. |
| `ProcessVm.HintExact` | kernel/syscall.c:1768-1773 | An accepted hint is a free interval inside the user region iff its interval ends by user_end, or is refused because it is mapped and does not wrap; one that wraps is accepted whatever is mapped. |
| `ProcessVm.HintWraps` | kernel/syscall.c:1768-1773 | A mapped page is accepted as a hint for a length that wraps. |
| `ProcessVm.SlotExact` | kernel/syscall.c:1778-1787 | For lengths up to user_end those tests accept just the free slots that end by user_end; a longer request has no such slot, yet the tests accept every aligned address whose wrapped interval is unmapped. |
| `ProcessVm.GuardExact` | kernel/syscall.c:1778-1779 | The 64-bit guard is the mathematical one iff len is at most user_end. |
| `ProcessVm.ProcessVm.AccessOk` | kernel/process.c:4209-4251 | 0 iff the length is positive and every byte is mapped with the asked access; otherwise -EACCES if the first byte that fails is mapped, -EFAULT if not. |
| `Plist.Plist.Add` | kernel/plist.c:76-101 | The node goes behind all nodes of at most its priority; both rings stay rings, prio_list holding exactly the first node of each priority. |
| `Plist.Plist.Del` | kernel/plist.c:109-123 | Only that node leaves node_list; prio_list again holds exactly the first node of each priority, also when the node headed one or was last. |
| `Plist.FirstsInsert` | kernel/plist.c:85-98 | What a new node adds to the first nodes of the priorities. |
| `Plist.FirstsRemove` | kernel/plist.c:113-120 | What leaving does to them: the next node takes over, or none. |
| `Futex.FutexTable.Wake` | kernel/futex.c:307-345 | Wakes exactly the first min(max(nr_wake, 1), matching) matching waiters in queue order and returns their number; a waiter for another word, or without a bit in common, keeps its place and lock_ptr; the error cases change nothing. |
| `Futex.FutexTable.WakeOp` | kernel/futex.c:352-427 | The same on key1, then on key2 if the operation says so; a negative operation result changes nothing. |
| `Futex.FutexTable.Requeue` | kernel/futex.c:473-546 | Handles the first nr_wake + nr_requeue matches: the first nr_wake are woken, the rest rekeyed in order and appended to the other chain, or rekeyed in place within one bucket; returns their number; all others untouched. |
| `Futex.RestHits` | kernel/futex.c:327-339 | The matches left on a chain are the later ones, in their order. |
| `Futex.RestOthers` | kernel/futex.c:327-339 | Waiters that do not match keep their order. |
| `Futex.RequeueKeeps` | kernel/futex.c:436-455 | Requeueing keeps every waiter on one chain, with key and lock pointer naming that chain's bucket. |
| `FutexProtocol.StepKeeps` | kernel/futex.c:231-652 | Every event of every thread, be it in futex_wait, futex_wake, futex_wake_op or futex_requeue, keeps the protocol's invariant. |
| `FutexSafety.QueuedOnce` | kernel/futex.c:549-603 | In every run a queued entry is on one chain, once; while that bucket's lock is free its key hashes to it and lock_ptr names it, and a waiter whose lock_ptr names a bucket with a free lock is on its chain. |
| `FutexSafety.DeletesUnderLock` | kernel/futex.c:616-652 | In every run unqueue_me deletes only under the lock of the chain the entry is on, and up to and including its store of NULL (or of the new key) a waker or requeuer handles the entry of a waiter still in the call. |
| `FutexSafety.LateRead` | kernel/futex.c:242-254 | wake_futex reads the entry once more after its store of NULL: in every run the waiter is then still waiting in that call iff it has not made its unlocked read of lock_ptr since, and the entry still exists iff the waiter has not returned since. |
| `FutexSafety.ReturnsFirst` | kernel/futex.c:242-254 | A waiter about to make that read when the store is made can return before the late read. |
| `FutexSafety.LateReadRun` | kernel/futex.c:616-652 | Such a state is reached from any initial one. |
| `FutexSafety.UnqueueResult` | kernel/futex.c:605-652 | In every run unqueue_me returns 0 iff a waker cleared the entry first, and 1 otherwise. |
| `FutexWake.NoLostWakeUp` | kernel/futex.c:744-790 | The same law for one loop, of futex_wake or futex_wake_op: if it begins with no more matches on the chain than it is to wake, then from its end on, in every interleaving, no waiter that compared the word with v and matches is queued under the key, as long as the word keeps away from v; only a requeue can put one there. |
| `FutexWake.WakeCovers` | kernel/futex.c:327-410 | The law of one loop, which WakeCall and WakeOpCall state for whole calls: in every interleaving it clears the first max(n, 1) of the matches that were on the chain when it began, in order, and leaves the rest of the chain as it was; no match is left iff that count covers them all. |
| `FutexRequeue.RequeueCovers` | kernel/futex.c:506-531 | In every interleaving futex_requeue handles the first nr_wake + nr_requeue of the matches that were on the first chain when its loop began: the first nr_wake are woken in order, the others end on the second chain with its key and lock, in order behind the waiters there or, within one bucket, in their old places. |
| `FutexCalls.WakeCall` | kernel/futex.c:307-345 | In every interleaving, from the event that calls futex_wake(key, n, bits) to its return: it waits for the lock of the word's bucket, then clears just the first max(n, 1) of the waiters for key with a bit in common that are on the chain when it gets the lock, in order; the others keep their places and lock_ptr; nothing else of the call touches the queues. |
| `FutexCalls.WakeCallLosesNone` | kernel/futex.c:744-790 | No lost wake-up over such a call: if no more waiters match than n, then from the end of its loop on, past its return, no waiter that compared the word with v and matches is queued while the word keeps away from v, unless requeued there. |
| `FutexCalls.WakeOpCall` | kernel/futex.c:352-427 | The same for futex_wake_op with the call's own arguments: it starts over after each -EFAULT; another error wakes nobody; otherwise the first max(nr_wake, 1) waiters for key1 are cleared and, iff the result is positive, then the first max(nr_wake2, 1) for key2, all under both locks. |
| `FutexCalls.RequeueCall` | kernel/futex.c:473-546 | The same for futex_requeue: under both locks, if a comparison is asked for and the word at key1 differs, nobody is woken or moved; otherwise the waiters for key1 that are on the chain at the comparison are woken and moved as RequeueCovers says. |
| `FutexCalls.WaitCall` | kernel/futex.c:744-846 | In every interleaving a call futex_wait(key, val, bits) compares the word under the lock of its bucket. If it differs the result is -EAGAIN and the thread is never queued; otherwise it joins the end of that chain with its arguments under the same lock, and the result of unqueue_me, where 0 is the call's success, is 0 iff a waker cleared its lock_ptr, else 1. |
| `FutexCalls.ClearsStore` | kernel/futex.c:231-254 | What these laws count as clearing a waiter: a step of the thread that turns that waiter's lock_ptr from a lock to NULL, and no other step. |
| `FutexSteps.HeldChain` | kernel/futex.c:580-652 | While a thread holds a bucket lock, no other thread's step changes that chain or what its waiters wait for. |
| `FutexSteps.OtherStep` | kernel/futex.c:231-652 | Another thread's step leaves a waiter where it is; only the store of NULL removes it from the queues, and only requeueing changes what it waits for. |
| `FutexSafety.NoDeadlock` | kernel/futex.c:283-302 | Bucket locks are taken in ascending order: in every reachable state in which a thread is in a call, its next step, or that of a thread holding a lock, takes that thread further. |
| `Kmalloc.Heap.Kmalloc` | kernel/mem.c:2494-2553 | First fit by address; the block is 32-byte aligned, at least the rounded request and at most 32 bytes more; NULL iff nothing fits and no page is to be had; blocks in use are untouched; chunks still tile the pages. |
| `Kmalloc.IntExact` | kernel/mem.c:2494-2553 | The int arithmetic on sizes is that of the natural numbers iff the request is at most 2^31 - 32 bytes; above, the rounded size turns negative. |
| `Kmalloc.Heap.Kfree` | kernel/mem.c:2555-2588 | Only that block leaves use: its bytes join its CPU's free list, which ends consolidated, or it goes to the head of its owner's remote free list; every other list is unchanged; NULL does nothing. |
| `Kmalloc.Heap.InsertChunk` | kernel/mem.c:2407-2430 | The list gains the chunk and stays sorted by address. |
| `Kmalloc.Heap.ConsolidateList` | kernel/mem.c:2440-2466 | Ends with the same free bytes, sorted, no two free chunks adjacent; chunks of other lists and in use unchanged. |
| `Kmalloc.CoalescedUnique` | kernel/mem.c:2440-2466 | That outcome is unique: the bytes fix the list and every size. |
| `Kmalloc.Heap.ConsolidateFreeList` | kernel/mem.c:2469-2487 | The free bytes are the old free and remotely freed bytes of this CPU, consolidated; its remote list ends empty; other lists and blocks in use are unchanged. |
| `KmallocChunks.SplitKeeps` | kernel/mem.c:2520-2529 | Splitting a chunk keeps chunks disjoint and covers the same bytes, headers included. |
| `KmallocChunks.MergeKeeps` | kernel/mem.c:2463-2465 | So does merging two adjacent chunks. |
| `KmallocChunks.NewChunk` | kernel/mem.c:2537-2550 | Fresh pages join the tiling as one chunk. |
| `TlbFlush.AllFlushed` | kernel/mem.c:1197-1253 | When an initiator leaves its wait loop, it and every CPU of its snapshot have flushed all it asked for since the entry's fields were set. |
| `TlbFlush.CallFlushes` | kernel/mem.c:1168-1253 | From the event that makes a request to the return of that call: the caller and every CPU of the request's snapshot have flushed each of the request's addresses, or everything for address 0, since the call set the entry's fields. |
| `TlbFlush.WaitLeaves` | kernel/mem.c:1238-1253 | The initiator leaves its wait at its next step iff `pending` is 0. |
| `TlbFlush.HandlersDrain` | kernel/mem.c:1256-1298 | From every state that keeps the invariant and in which an initiator waits, the handlers' own steps bring `pending` to 0. |
| `TlbFlush.CallCanReturn` | kernel/mem.c:1168-1253 | From every reachable state every call under way can come to its return. |
| `TlbFlush.PendingCounts` | kernel/mem.c:1202-1219 | `pending` is the number of interrupted CPUs whose handler has not finished. |
| `TlbFlush.NoLateHandler` | kernel/mem.c:1256-1298 | A handler is pending or running only while the initiator holds the entry with its own array in it. |
| `TlbFlush.NoDoubleInterrupt` | kernel/mem.c:1208-1219 | No CPU is interrupted for the entry while an earlier interrupt is under way. |
| `RunQueue.BoundedWaiting` | kernel/process.c:3659-3738 | A thread that stays runnable and unpicked sees at most as many counted schedule() calls as there were entries ahead of it, whatever other threads do. |
| `RunQueue.ScheduleCloser` | kernel/process.c:3693-3738 | A counted call picks the thread or puts it one entry closer; a diverted or refused one leaves its place. |
| `RunQueue.ExecKeeps` | kernel/process.c:4000-4064 | In every run runq_len is the queue's length and each queued thread is on the one queue its cpu_id names. |
| `RunQueue.ReachStep` | kernel/process.c:3153-3154 | The cpu_set TLB shootdown reads keeps covering the queues under every event but two: adding a thread keeps it iff the CPU is in the set already, and the last release of a thread iff no other thread of the address space is queued on its CPU. |
| `RunQueue.ReachExact` | kernel/process.c:3498-3518 | So it covers them in every state of a run iff every add and every last release of the run meets its condition. |
| `RunQueue.SiblingExit` | kernel/process.c:3799-3803 | Of two threads on one CPU one exits: after its release the other runs there with an empty cpu_set. |
| `RunQueue.StartElsewhere` | kernel/host.c:692-709 | A first thread made on one CPU and started on another is outside the cpu_set. |
| `RunQueue.NoticeStep` | kernel/process.c:3253-3256 | A CPU with a pending migration request keeps its flag under every event but the idle loop's clearing of it, and under that iff no request has come in since do_migrate. |
| `RunQueue.NoticeExact` | kernel/process.c:3960-3997 | The same for every state of a run. |
| `RunQueue.RequestHidden` | kernel/process.c:3253-3256 | A request made between do_migrate and the clearing stays queued without a flag. |
| `RunQueue.OneQueue` | kernel/process.c:4000-4012 | No thread is on two queues. |
| `RunQueue.AddDoes` | kernel/process.c:4000-4012 | runq_add_thread: the thread is last on that CPU's queue, the length one more, the resched flag set and its cpu_id that CPU; no other thread and no other CPU differs. |
| `RunQueue.DeleteDoes` | kernel/process.c:4051-4064 | runq_del_thread: the queue loses that thread only, the others keep their order, and no other CPU differs. |
| `RunQueue.RequestDoes` | kernel/process.c:3960-3997 | sched_request_migrate: the request is last in line and both flags are set; no queue and no thread differs. |
| `RunQueue.MigrateDoes` | kernel/process.c:3490-3519 | One migration: the thread is last on the target's queue with that cpu_id, the source queue lost that thread only, both lengths follow, and no other thread or CPU differs. |
| `RunQueue.MigratesAll` | kernel/process.c:3467-3531 | Over all of do_migrate a thread is on some queue iff it was before; one acted on ends on its target and every other where it was. |
| `RunQueue.ScheduleDoes` | kernel/process.c:3693-3738 | schedule(): the previous thread goes to the end of the queue, or off it once exited; what runs next is the idle thread for a migration request or an exited thread, else the choice PickChosen describes; nothing else differs. |
| `RunQueue.ScheduleRefused` | kernel/process.c:3668-3682 | While preemption is off schedule() only sets the resched flag. |
| `RunQueue.PickChosen` | kernel/process.c:3711-3723 | The choice: the first thread being spawned, else the first that is running or can be woken by a signal, none iff there is neither. |
| `RunQueue.MigrateExact` | kernel/process.c:3474-3519 | do_migrate keeps the queues in order iff the thread it acts on is still on the source queue, and then that thread is last on the target's queue, with that cpu_id, and gone from the source; otherwise it faults. |
| `RunQueue.ExitedMigration` | kernel/process.c:3490-3496 | A thread that exits with a request pending breaks it: do_migrate applies list_del to an entry that schedule() has already taken off, and stores through its poison pointers. |
| `RunQueue.TargetElsewhere` | kernel/process.c:3476-3490 | The target is the least CPU of the affinity mask and never the source, so no queue lock is taken twice. |
| `RunQueue.Scheduler.Schedule` | kernel/process.c:3667-3738 | The code's rotation and scan compute the specified state and keep the invariant. |
| `RunQueue.Scheduler.PickNext` | kernel/process.c:3711-3723 | The scan returns the first thread being spawned, else the first that can run. |
| `RunQueue.Scheduler.DoMigrate` | kernel/process.c:3459-3534 | The requests are taken one by one and each maker is woken once, in order; the queue ends empty and the run queues in order, every thread acted on being on its target CPU and every other where it was, unless a request faults, which happens iff one acted on names a thread that has left its queue. |
| `RunQueue.HandledAllExact` | kernel/process.c:3467-3531 | do_migrate as a whole keeps the queues in order iff every request it acts on names a thread still on the source queue, and then each of those is on its target only and every other thread where it was; otherwise it faults. |
| `RunQueue.Scheduler.IdleTurn` | kernel/process.c:3252-3256 | With the flag set all requests are handled and acknowledged; the flag ends clear. |
| `Llist.AtomicStack` | kernel/llist.c:33-75 | In every run the list is an atomic stack: a successful compare-and-exchange pushes a batch or pops the top with its current successor, an empty answer was an empty stack, and what was added is what is left and what was returned. |
| `Llist.AddCall` | kernel/llist.c:33-43 | In every interleaving a call that adds batch b changes the stack at one event, putting b in front of it, and answers whether it was empty then. |
| `Llist.DelCall` | kernel/llist.c:59-75 | A call of llist_del_first changes the stack at one event at most: it returns the top it takes off, or NULL if the stack is empty then. |
| `Llist.AddAlone` | kernel/llist.c:38-40 | From every state that keeps the invariant an adder that runs alone returns within 6 steps. |
| `Llist.DelAlone` | kernel/llist.c:63-72 | So does the deleter within 7, from any state. |
| `Llist.PopKeeps` | kernel/llist.c:59-75 | The deleter's exchange succeeds only with the top and its current successor. |
| `Llist.PushKeeps` | kernel/llist.c:33-43 | The adder's exchange pushes its batch in order and reports whether the list was empty. |
| `Llist.Nodes.ReverseOrder` | kernel/llist.c:84-97 | The chain is relinked in place so that node k is the old node n - 1 - k; nodes outside it are untouched. |
| `FilePageIo.PageInSafe` | kernel/fileobj.c:466-550 | In every run no panic is reached, an offset has one page at most, at most one read is issued for a page, a page is filled iff its read or clearing is done, and references match the page-ins under way. |
| `FilePageIo.LookupExact` | kernel/fileobj.c:107-132 | The lookup on list (off / 4096) mod 512 finds a page iff that page holds the offset. |
| `FilePageIo.GetNew` | kernel/fileobj.c:615-669 | fileobj_get_page at an offset without a page: -ENOMEM and no change without memory; otherwise a new page at that offset that waits for its page-in, one more reference, and -ERESTART. |
| `FilePageIo.GetOld` | kernel/fileobj.c:616-691 | At an offset with a page the answer follows from its mode alone: -ERESTART or -ENOMEM while the read is to come, -ERANGE at the end of the file, -EIO after an error, else its address, one more reference on it, and mapped from then on. |
| `FilePageIo.StartActs` | kernel/fileobj.c:480-506 | What a page-in does first, by the mode of the page at its offset. |
| `FilePageIo.WaiterActs` | kernel/fileobj.c:485-506 | What a waiting page-in does once the other read is over. |
| `FilePageIo.ReplyDecides` | kernel/fileobj.c:517-543 | The reply decides the page: 0 bytes its end of file, a full page filled and done, anything else an error; the reader is done and its reference dropped. |
| `FilePageIo.ReadAnswers` | kernel/fileobj.c:527-691 | After any continuation a later fileobj_get_page at that offset answers by that reply: -ERANGE, -EIO or the address of the filled page. |
| `FilePageIo.PageInRun` | kernel/fileobj.c:466-550 | End to end, at an offset no page holds: the caller's steps issue the read, and after the reply fileobj_get_page answers with the page for a full read, -ERANGE for an empty one and -EIO otherwise. |
| `FilePageIo.ZeroFillRun` | kernel/fileobj.c:497-504 | The page of a zero-filled file is handed out without a read. |
| `FilePageIo.StartFinds` | kernel/fileobj.c:480-483 | In every run a page-in finds a page at its offset. |
| `FilePageIo.WaitEnds` | kernel/fileobj.c:485-495 | In every run a thread in the wait loop has a reader to wait for, and any reply to that reader ends the wait. |
| `FilePageIo.ModesForward` | kernel/fileobj.c:485-543 | In every run a page keeps its offset and its mode only moves forward. |
| `FilePageIo.StepForward` | kernel/fileobj.c:485-543 | Which mode changes one step can make, and which event makes each: taking up a page starts its read or clears it, the reply to its reader alone decides the outcome of the read, and a lookup maps it. |
| `FilePageIo.AddressMapped` | kernel/fileobj.c:614-689 | An address is handed out only for the page at that offset, mapped and filled. |
| `FilePageIo.FileObj.Get` | kernel/fileobj.c:614-689 | The code's branches give the specified state and result and keep the invariant. |
| `FilePageIo.FileObj.HashLookup` | kernel/fileobj.c:107-132 | The list walk finds the page at the offset, or none, or a page of invalid mode. |
| `GenCore.Generate` | kernel/gencore.c:274-547 | -EINVAL without an address space, -ENOMEM if one of the four allocations fails, else the first translation error; on any error nothing stays allocated. On success both arrays are filled exactly: headers as specified, and the table with the three front chunks and every range's chunks, and just the four blocks stay allocated. |
| `GenCore.GenerateAndFree` | kernel/gencore.c:538-563 | Whatever the outcome, gencore and the freecore after its success leave no block allocated. |
| `GenCore.CountsAgree` | kernel/gencore.c:311-331 | The counting pass reserves as many entries as the filling pass writes. |
| `GenCore.TableCount` | kernel/gencore.c:298-333 | The whole table has as many entries as the counting pass reserves for the ranges. |
| `GenCore.TablePass` | kernel/gencore.c:451-536 | Fills the table from entry 3 exactly to its end. |
| `GenCore.HeaderPass` | kernel/gencore.c:402-428 | Fills the program headers from entry 1 exactly to the last. |
| `GenCore.OffsetExact` | kernel/gencore.c:402-428 | p_offset equals the summed length of all earlier chunks, which is page-aligned, iff that sum is below 2^32. |
| `GenCore.OffsetWraps` | kernel/gencore.c:420-427 | Behind a range of 4 GiB the next range gets the same p_offset as the first. |
| `GenCore.ImageAt` | kernel/gencore.c:460-536 | Below 2^32 bytes, byte p_offset + (va - p_vaddr) of the file is, for a demand-paged range, the byte of memory at va, or a hole where va has no page; for any other range it is byte va - p_vaddr of its one chunk. |
| `GenCore.ImageIsMemory` | kernel/gencore.c:460-536 | Below 2^32 bytes, byte p_offset + (va - p_vaddr) of the file is the byte of memory at va for every demand-paged range and for every other user range that is mapped contiguously; by FixedExact for no others. |
| `GenCore.FrontAt` | kernel/gencore.c:439-449 | The ELF header is at offset 0, the program headers behind it, and the note at the offset its header names. |
| `GenCore.FirstErrorExact` | kernel/gencore.c:510-526 | gencore fails iff a dumped user range that is not demand-paged starts at an address whose translation fails other than with -EFAULT, and then with the first such error. |
| `GenCore.FixedExact` | kernel/gencore.c:510-536 | That one chunk holds the bytes of memory iff the page table maps the range contiguously from it, or has none of its pages when the chunk is a hole. |
| `GenCore.PagesAt` | kernel/gencore.c:462-509 | The chunks of a demand-paged range map every byte to its page or a hole, however pages and holes alternate. |

## Left out

- `Mprotect`: for a length above 2^64 - 4096 the code's rounded length is 0 and it returns 0 without doing anything; the contract is stated on the rounded length, and `VmProtect.RoundingExact` says when that covers the request.
- `SearchFreeSpace`: leastness is stated where no sum can wrap, that is for user_end + len up to 2^64: every request up to user_end for the user_end of x86_64 and arm64. Rounding an address up is not taken modulo 2^64.
- `Kmalloc`: sizes are natural numbers; `Kmalloc.IntExact` says for which requests the int arithmetic agrees.
- `Requeue`: nr_wake + nr_requeue is taken over unbounded integers, without 32-bit wrap-around.
- `ConsolidateFreeList`: a remote free is one atomic step, as is every heap operation; the interleaving inside the remote list's lock is not modelled.
- `DoMigrate`: interrupts sent to the target CPU.
- `ImageAt`: a page at physical address 0 counts as a hole, because the table writes both the same way.
- `ChangeProt`: the shortcut for private file mappings skips the page-table operation and then does what a successful one leads to, so it is one of the outcomes `ptResults` ranges over.
- `Add`: clearing the new memory, and -ENOMEM when the range structure cannot be allocated.
- futex_wake_op's operation on the word is any new value and any result; a page fault in it is the result -EFAULT.
- Futex key lookup, key references, timeouts and signals: a sleeping waiter may leave its sleep at any time, which covers them all; the retry in futex_wait is a new call.
- What wake_futex does with the late read: the wake-up of a thread on Linux or on McKernel, and how long its thread structure lives; also profiling, debug output and resource accounting.
- Weak memory: all state machines are sequentially consistent.
- Straight mappings, XPMEM ranges, page shifts and private data of ranges; stack growth; set_host_vma, which returns 0 before it does anything; the extra reference taken around clearing the page table.
- Context switching, timers and CPU status words in schedule().
- rb_replace_node, the `_safe` traversals and augmented callbacks: no further tree properties.
- The premapped zero-fill branch of fileobj_get_page, object creation and teardown.
- Note segment contents in core dumps; only the note's size enters the layout.
- `WidenDown`: the page sizes of x86_64; arm64 has contiguous sizes besides.
- Page-table walks, the page allocator, host communication, procfs, sysfs, ptrace and performance counters.

Nothing was executed: every statement above is about the model.
