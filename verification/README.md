# A model of the OSBasis kernel in Dafny

OSBasis is a small 32-bit x86 kernel. This project models its three cores and proves what
they promise:

- **Memory** (`kernel/memory.c`, `lib/kernel/bitmap.c`, `lib/kernel/list.c`): the self-mapped page
  tables, the page allocator that keeps a virtual bitmap, two physical pools and the mappings in
  step, and the arena allocator behind `sys_malloc` and `sys_free`.
- **Threads and devices** (`thread/thread.c`, `thread/sync.c`, `device/timer.c`, `device/ide.c`,
  `device/ioqueue.c`): the scheduler, semaphores, re-entrant locks, the disk channel and the keyboard
  queue as one transition system under arbitrary interleavings and interrupts; time slices; the
  cutting of disk requests into commands; the ring buffer.
- **File system** (`fs/file.c`, `fs/dir.c`, `fs/inode.c`, `fs/fs.c`): which inode owns which block,
  `file_write`, directories as lists of entries, `sys_mkdir` and `sys_rmdir` on blocks, inode bitmap
  and inode table, the layout of a partition, and path names with `sys_getcwd` and `sys_chdir`.

The largest results are statements about every run: `HeapProof.HeapSafe`, `SyncProof.NoLostWakeup`
and its neighbours, `KeyboardProof.KeyboardQueue` and `KeyboardProof.ReaderNeverStarves`,
`WaitOrder.FirstComeFirstServed`, `RoundRobin.TicksConserved`, `FsRuns.FsSafe` with
`FsRuns.ContentLasts` and `FsRuns.WritesConcatenate`, `Marks.BlocksConserved`,
`DirTree.CwdAfterAnyRun`. Steps of a run are defined by what an operation
does, and the methods that model the source are proved to do exactly that (`FsRuns.Execute`,
`Mount.Mounted`, `PageTables.AddPage`).

## How the model is built

| files | what they hold |
|---|---|
| Basics | optional values, distinct sequences, the stop state of ASSERT and PANIC |
| Bitmap | first fit on bits, and the byte array that refines it |
| IntrusiveList | the linked list, proved to act on the sequence of its elements |
| SelfMap, Pages, PageTables | page tables word by word; the page allocator on page numbers; that the words realise its maps |
| HeapModel, HeapProof, Heap | the arena allocator on values, its invariant, the imperative form |
| Scheduler, ThreadOps | scheduling as functions on values, and the imperative form that refines them |
| Sync, SyncProof, WaitOrder, DiskProgress, KeyboardProof, TwoReaders, RoundRobin | the transition system, its invariant and theorems, the order of waiting, requests to the disk, the keyboard queue, a run with two readers, time |
| Transfer, Ioqueue | disk requests; the ring buffer and its bytes |
| Entries, Sectors, Volume | directory entries, the bytes of sectors, block ownership |
| FileWrite, DirModel, Directory, Enumeration, FileSystem, FsRuns, Marks | the file-system operations, their runs, and the blocks they lose |
| Layout, InodeTable | partition layout, the inode table |
| Path, DirTree, Mount, MountFiles | path names over a tree, the tree through mkdir, rmdir and files, and the mounted partition with inode bitmap and inode table |

ASSERT is compiled in (the Makefile does not define NDEBUG), so a failing ASSERT is a final state:
methods return a `Halt` naming the file and the line. Where an assertion cannot fail the method
contains it as an `assert` with its line. One consequence is that `bitmap_scan` never returns -1 for
one bit: on a full bitmap it stops at its own ASSERT, and the failure branches behind it are dead.

Where the code departs from what its callers expect, the model follows the code and states the exact
condition:

- `Marks.LosesIff`: which operations leave marked blocks that no inode owns.
- `FileWrite.BlocksKeptIff`, `FileWrite.AppendsIff`: growth of a file that already has an index block.
- `Directory.InsertOrderIff`, `Directory.DeleteDirEntry`: directories with an index block.
- `DirTree.RmdirIff`, `DirTree.ParentIff`: `rmdir` through a path that ends in ".".
- `Mount.Mounted.SysMkdir`, `MountFiles.FileCreate`, `DirTree.LinkIff`, `InodeTable.SyncOpenIff`: inode numbers from 256 on.
- `Paths.ResolvesIff`: a regular file in the middle of a path.
- `Paths.OverrunIff`: `rmdir` with a search record that was never cleared.
- `Mount.Mounted.SysGetcwd`, `Mount.ReadBackIff`: removed directories, exact buffers, inodes nobody has open.
- `TwoReaders.LosesIff`, `KeyboardProof.StarvesOnlyIfPopped`: several readers of the keyboard.
- `SelfMap.LoaderShares`: the page table that the kernel's directory names twice.
- `Layout.LayoutFitsIff`, `Layout.RootMarkedIff`, `Layout.BeyondIff`: small partitions and the tail of
  the block bitmap.
- `Sectors.EntryRoundTripIff`: names of 16 characters.
- `Pages.MallocFreeRestores`: page tables made on the way.
- `Pages.PageAllocator.constructor`: memory beyond 258 MB, whose pages are counted in 16 bits.

## Model

| member | source | states |
|---|---|---|
| Bitmap.FitFromExact | lib/kernel/bitmap.c:25-69 | first fit is the least start of cnt free bits lying wholly inside the bitmap, and there is none exactly when no such run exists |
| Bitmap.TakenStaysTaken | lib/kernel/bitmap.c:25-83 | once the found bits are set, no later scan of any length returns a range that touches them |
| Bitmap.OneBit | lib/kernel/bitmap.c:25-69 | a scan for one bit finds a free bit unless the bitmap is full |
| Bitmap.ByteMap.Test | lib/kernel/bitmap.c:14-22 | testing a bit of the byte array reads that bit of the bit sequence |
| Bitmap.ByteMap.Set | lib/kernel/bitmap.c:72-83 | setting or clearing a bit changes that bit and no other |
| Bitmap.FirstZero | lib/kernel/bitmap.c:36-44 | the lowest clear bit of a byte other than 0xff |
| Bitmap.ByteMap.FirstFree | lib/kernel/bitmap.c:25-44 | skipping 0xff bytes and then bits yields the first free bit; a full bitmap stops at line 33 |
| Bitmap.ByteMap.Scan | lib/kernel/bitmap.c:25-69 | the scan returns exactly the first fit or -1, and stops at line 33 exactly on a full bitmap |
| IntrusiveList.List.constructor | lib/kernel/list.c:9-14 | a new list is empty, its sentinels linked to each other |
| IntrusiveList.List.InsertBefore | lib/kernel/list.c:17-26 | the element enters the sequence right before the given one; both link directions stay consistent |
| IntrusiveList.List.Push | lib/kernel/list.c:29-31 | the element becomes the first |
| IntrusiveList.List.Append | lib/kernel/list.c:34-43 | the element becomes the last |
| IntrusiveList.List.Remove | lib/kernel/list.c:46-53 | exactly the given element leaves the sequence |
| IntrusiveList.List.Pop | lib/kernel/list.c:55-60 | the first element is returned and removed |
| IntrusiveList.List.Search | lib/kernel/list.c:63-75 | true exactly when the element is in the sequence |
| IntrusiveList.List.Len | lib/kernel/list.c:110-118 | the number of elements |
| IntrusiveList.List.Empty | lib/kernel/list.c:121-123 | true exactly when there is no element |
| IntrusiveList.List.Backward | lib/kernel/list.c:9-60 | the walk along front from the tail yields the elements in reverse order |
| SelfMap.PtePtrReachesPte | kernel/memory.c:91-97 | with entry 1023 of the directory pointing to itself, the hardware walk of pte_ptr(v) ends at v's page-table entry, for every v whose directory entry is present |
| SelfMap.PdePtrReachesPde | kernel/memory.c:100-103 | the walk of pde_ptr(v) ends at v's directory entry, present or not |
| SelfMap.WriteEntry | kernel/memory.c:119-150 | writing v's table entry changes the translation of exactly the ordinary addresses whose directory entry is present, names the same table and has the same table index |
| SelfMap.DependsIff | kernel/memory.c:91-103 | an address's translation depends on v's table entry if and only if it shares that entry |
| SelfMap.UnsharedPage | kernel/memory.c:119-150 | in a directory that names no table twice only v's own page shares its entry |
| SelfMap.LoaderShares | boot/loader.S:304-345 | the directory the loader leaves meets the conditions of page_table_add; in it two addresses share an entry if and only if they are on one page, or on the same page of the first 4 MB seen from 0 and from 3 GB |
| SelfMap.FirstHeapPageAliases | boot/loader.S:304-345 | mapping the first heap page 0xc0100000 maps 0x00100000 as well |
| SelfMap.InstallTable | kernel/memory.c:138-149 | a zeroed new page table behind an absent directory entry changes no translation, also in the loader's directory |
| SelfMap.Mmu.StorePte | kernel/memory.c:91-97 | a store through pte_ptr(v) lands in v's page-table entry: exactly the addresses that share it change, no directory entry does |
| SelfMap.Mmu.ZeroTable | kernel/memory.c:143-146 | clearing a page through the self map zeroes all 1024 entries of the new table and nothing else |
| SelfMap.Mmu.PageTableAdd | kernel/memory.c:119-150 | afterwards v's entry is p with the user, write and present bits, v's page translates to p, as does exactly what shares its entry, and every other ordinary address as before; the directory gains at most the new table, whose other entries are zero, and no other word of memory changes; a present entry stops at line 130 |
| SelfMap.Mmu.PageTableRemove | kernel/memory.c:542-548 | exactly the present bit of v's entry is cleared: the addresses that share it, and no others, lose their translation |
| SelfMap.Mmu.AddrV2p | kernel/memory.c:246-250 | for a mapped address the value computed through the self map is the hardware translation |
| PageTables.PoolShares | kernel/memory.c:119-150 | among the pages of a virtual pool, which use neither entry 0 nor the self map, only a page itself shares its entry, also in the kernel's directory |
| PageTables.AddPage | kernel/memory.c:119-150 | page_table_add on memory changes translations and directory exactly as Pages changes its maps |
| PageTables.RemovePage | kernel/memory.c:543-548 | page_table_pte_remove on memory removes exactly one page of the map |
| PageTables.KernelStart | boot/loader.S:304-345 | the directory the loader leaves, with no page-table entry present for the pool, is what the page allocator starts from |
| PageTables.ProcessStart | userprog/process.c:62-84 | the directory create_page_dir leaves is what a process's page allocator starts from |
| Pages.PageAllocator.constructor | kernel/memory.c:253-315 | for every memory size below 4 GB, counted modulo 256 MB from 2 MB on because the page count has 16 bits: the kernel pool starts at 2 MB, the user pool where the kernel's half of the pages ends, each bitmap has whole bytes and leaves out at most seven pages of its half, the virtual bitmap is as long as the kernel pool's, all bits are clear; directory entries 0 and 768 name the same table |
| Pages.PageAllocator.ForProcess | userprog/process.c:62-98 | a process starts consistent: an empty virtual bitmap from 0x8048000 to 3 GB, the kernel's page tables above, the same two pools |
| Pages.KernelStays | userprog/process.c:62-98 | what a process takes from the shared pools was not the kernel's, and the kernel's pages and tables stay in order |
| Pages.PageAllocator.Palloc | kernel/memory.c:106-116 | the first free frame is marked and belongs to nothing else; it stops exactly when the pool is full |
| Pages.PageAllocator.PageTableAdd | kernel/memory.c:119-150 | the page is mapped, with the kernel pool's first free frame for a missing page table; it stops only when that pool is full, with nothing changed; the repeated-entry assertions cannot fire |
| Pages.PageAllocator.MapPage | kernel/memory.c:168-180 | one page more is mapped, to one frame that was free in the right pool |
| Pages.PageAllocator.VaddrGet | kernel/memory.c:54-88 | the first fit of n virtual pages is marked, none of which was mapped; NULL only when there is no fit; a stop only on a full bitmap or for a process whose first fit reaches the last page below 3 GB |
| Pages.PageAllocator.MallocPage | kernel/memory.c:153-182 | the first fit of n pages is mapped, each to its own free frame; a request outside 1..3839 stops at line 157; any other stop comes from a full virtual bitmap, a first fit too high for a process, or a pool it draws from being full, and then only the first pages are mapped and at most one more frame is taken |
| Pages.PageAllocator.FreePage | kernel/memory.c:529-548 | one mapping disappears and its frame's bit is cleared in the pool it came from; the range assertions cannot fire |
| Pages.PageAllocator.MfreePage | kernel/memory.c:483-566 | n pages lose mapping, frame bit and virtual bit, nothing else changes; zero pages stop at line 487 |
| Pages.MallocFreeRestores | kernel/memory.c:153-182 | malloc_page followed by mfree_page restores the virtual bitmap, the mappings and the user pool always, and the whole state exactly when no page table was missing |
| HeapProof.MallocKeeps | kernel/memory.c:330-436 | every successful sys_malloc keeps the heap invariant and makes exactly one new live block, of the size asked for |
| HeapProof.FreeKeeps | kernel/memory.c:439-481 | every sys_free of a live pointer keeps the heap invariant and ends exactly that block's life |
| HeapProof.InvApart | kernel/memory.c:320-327 | the invariant implies that live blocks, arena headers and free-list nodes are pairwise disjoint |
| HeapProof.HeapSafe | kernel/memory.c:320-481 | in every run of sys_malloc and sys_free that frees only live pointers: no overlap; each live block is of the smallest class, or has the smallest number of pages, that its size allows; free lists hold exactly the blocks that are not live; cnt is the number of an arena's listed blocks and stays below blocks_per_arena |
| HeapProof.NothingLive | kernel/memory.c:468-477 | an arena whose count has reached blocks_per_arena holds no live block, so giving its page back is safe |
| HeapProof.ListOrder | kernel/memory.c:424-433 | a class's free list is a queue: while it lasts, successive requests of the class get its blocks in list order |
| HeapProof.FreedReusedLast | kernel/memory.c:465-466 | a freed block whose arena stays is handed out again only after all blocks that were free before it |
| HeapProof.BlocksAre | kernel/memory.c:412-418 | block i of a new arena stands at place i of the list |
| HeapModel.DescFits | kernel/memory.c:383-388 | the descriptor chosen is the smallest that is large enough |
| HeapModel.BlockFits | kernel/memory.c:320-327 | a block lies behind the header inside its arena's page, so masking its address gives the arena |
| HeapModel.BlocksTile | kernel/memory.c:319-322 | the blocks of an arena lie side by side from byte 12 on, and the page has no room for one more |
| KernelHeap.Allocator.constructor | kernel/memory.c:569-579 | the seven descriptors get the sizes 16, 32, 64, 128, 256, 512 and 1024, 255, 127, 63, 31, 15, 7 and 3 blocks per arena, and empty lists |
| KernelHeap.Allocator.FindDesc | kernel/memory.c:383-388 | the loop finds the first descriptor that is large enough |
| KernelHeap.Allocator.AddArena | kernel/memory.c:404-421 | all blocks of the new page are listed in order; the assertion on line 416 cannot fire |
| KernelHeap.Allocator.SysMalloc | kernel/memory.c:330-436 | returns a block as HeapModel describes it and keeps heap, pages and mappings consistent; above 1024 bytes its arena has the n pages with (n - 1) * 4096 < size + 12 <= n * 4096; pages are mapped only for a new arena, exactly those it needs; NULL only for a size of 0, a size of at least the pool, or no fit for the pages needed; a stop only when a bitmap is full, size + 12 exceeds 3839 pages, or a process's first fit reaches the last page below 3 GB |
| KernelHeap.Allocator.UnlistArena | kernel/memory.c:470-475 | exactly the arena's blocks leave the list; the assertion on line 473 cannot fire |
| KernelHeap.Allocator.ReleaseArena | kernel/memory.c:460-477 | exactly the arena's pages are unmapped and all other arenas stay mapped |
| KernelHeap.Allocator.SysFree | kernel/memory.c:439-481 | frees as HeapModel describes and keeps everything consistent; exactly the pages of an arena that goes are unmapped, and none if none goes; NULL stops at line 440 |
| Scheduler.UnblockKeeps | thread/thread.c:70-85 | waking a sleeping thread trips no assertion and keeps the ready list exact |
| Scheduler.ScheduleKeeps | thread/thread.c:91-115 | schedule never pops an empty list, always finds idle asleep when it wakes it, and leaves exactly one running thread |
| Scheduler.BlockKeeps | thread/thread.c:58-67 | only the caller (and idle) changes its sleep state, also when idle blocks itself |
| Scheduler.YieldKeeps | thread/thread.c:38-46 | yielding keeps the invariant and puts nobody to sleep |
| Scheduler.TimerKeeps | device/timer.c:49-62 | a tick keeps the invariant and puts nobody to sleep |
| Scheduler.StartKeeps | thread/thread.c:181-197 | starting a thread keeps the ready list exact |
| Scheduler.WokenNext | thread/thread.c:70-85 | a woken thread is next in line behind the running one: if that blocks or yields, it runs; all others keep their order, and nothing but its status changes |
| Scheduler.BlockedLeaves | thread/thread.c:58-67 | a thread that blocks leaves the line and the next one runs, idle when there is none |
| Scheduler.YieldRotates | thread/thread.c:38-46 | a thread that yields goes to the end of the line and keeps what is left of its slice |
| Scheduler.TickRotates | device/timer.c:49-62 | the interrupt that finds no ticks left sends the thread to the end of the line with its priority as new slice, any other takes one tick and moves nobody |
| Scheduler.StartedLast | thread/thread.c:181-197 | a started thread is last in line, with its priority as slice |
| ThreadOps.Threads.constructor | thread/thread.c:200-221 | after initialisation main runs with priority 31 and idle is ready with priority 10 |
| ThreadOps.Threads.ThreadUnblock | thread/thread.c:70-85 | the statements compute the transition; a sleeping thread becomes next in line, before all that were ready, and the list stays exact |
| ThreadOps.Threads.ScheduleNext | thread/thread.c:91-115 | the statements compute the transition; no assertion fires |
| ThreadOps.Threads.ThreadBlock | thread/thread.c:58-67 | the statements compute the transition and keep the invariant; the first ready thread runs, idle if there is none |
| ThreadOps.Threads.ThreadYield | thread/thread.c:38-46 | the statements compute the transition; the first ready thread runs and the caller is last; the assertion on line 41 cannot fire |
| ThreadOps.Threads.TimerHandler | device/timer.c:49-62 | the statements compute the transition, with 32-bit counters, and keep the invariant |
| SyncProof.StepKeeps | thread/sync.c:22-83 | every atomic step of every thread and every interrupt keeps the invariant of scheduler, semaphores, locks, channels and keyboard queue together |
| SyncProof.UpWaits | thread/sync.c:41-52 | sema_up pops the first waiter, which becomes the one that re-tests the value |
| SyncProof.SleepKeeps | thread/sync.c:22-33 | a thread that finds the semaphore taken is on no list yet, joins the wait list and sleeps |
| SyncProof.NoAssertFires | thread/sync.c:22-83 | for correctly paired users no assertion of the library, the scheduler, the interrupt paths or the keyboard queue fires in any run |
| SyncProof.MutualExclusion | thread/sync.c:55-83 | in every reachable state at most one thread is between its outermost acquire and the matching release |
| SyncProof.LockBooks | thread/sync.c:55-83 | the semaphore is 0 exactly while somebody owns the lock, and outside the acquire and release windows holder_repeat_nr is the holder's number of unmatched acquires |
| SyncProof.NoLostWakeup | thread/sync.c:22-52 | whenever a semaphore is positive with sleepers, a thread popped from that very list is running or ready and about to re-test |
| SyncProof.ListDiscipline | thread/thread.c:29-115 | exactly one running thread; ready list and wait lists hold exactly the ready and the sleeping threads, and no thread is on two lists |
| SyncProof.ChannelProtocol | device/ide.c:149-242 | at most one command per channel is outstanding, its issuer holds the channel lock, and expecting_intr plus disk_done is 1 while it is and 0 otherwise, whatever surplus interrupts come |
| SyncProof.EnterKeeps | device/ioqueue.c:37-41 | ioq_wait: by mutual exclusion of the queue's lock no other consumer is registered, so its assertion cannot fire; the thread sleeps as the consumer |
| SyncProof.KeyKeeps | device/ioqueue.c:72-84 | the keyboard handler: the consumer it wakes is asleep, so the assertions of thread_unblock cannot fire |
| WaitOrder.StepQueues | thread/sync.c:22-52 | a step changes a wait list only by a thread that finds the value 0 and falls asleep joining at the end, or by the first thread leaving and becoming next in line to run |
| WaitOrder.FirstComeFirstServed | thread/sync.c:22-52 | over every run and for every semaphore: the threads woken, followed by those still waiting, are those that waited at the start, followed by those that came, in the same order |
| DiskProgress.RequestsServedWhole | device/ide.c:149-225 | in every run a request advances in chunks of 256 sectors or to its end, has a command under way only while sectors are left, and releases its channel only when all have been moved |
| KeyboardProof.KeyboardQueue | device/ioqueue.c:51-84 | in every run with any number of readers: at most 63 bytes, bytes delivered in put order without loss or duplication, ioq->consumer is exactly the thread asleep in ioq_wait, it holds the queue's lock and is on no list |
| KeyboardProof.StepPasses | device/ioqueue.c:51-84 | a key is kept exactly when fewer than 63 bytes wait; a byte is taken exactly when a thread in ioq_getchar finds one, and is the next of those put |
| KeyboardProof.KeysInOrder | device/ioqueue.c:51-84 | over every run the bytes put grow by exactly the keys that found room, in order, and those taken are the oldest of them |
| KeyboardProof.ReaderNeverStarves | device/ioqueue.c:51-84 | when one thread does all the reading, in every run a thread asleep in ioq_wait has an empty queue before it: no wakeup is lost |
| KeyboardProof.StarvesOnlyIfPopped | device/ioqueue.c:51-69 | for any number of readers, a thread that sleeps in ioq_wait although there are bytes has been popped from the wait list of the queue's lock since its test for emptiness |
| TwoReaders.WakeupLost | device/ioqueue.c:54-58 | a run from boot with two readers at whose end one of them sleeps in ioq_wait before a byte |
| TwoReaders.LosesIff | device/ioqueue.c:51-84 | a run from boot with at most k readers can leave one asleep before a byte if and only if k is at least two |
| RoundRobin.Slice | device/timer.c:49-62 | the running thread keeps the processor for its ticks and the next interrupt rotates the ready list |
| RoundRobin.RoundRobinLatency | device/timer.c:49-62 | with only timer interrupts the thread at position k runs after exactly the sum of (ticks + 1) over the running thread and the k threads before it, and not earlier |
| RoundRobin.WokenLatency | thread/thread.c:81 | a woken thread runs after exactly the running thread's ticks + 1 interrupts, and every other ready thread waits longer by exactly its ticks + 1 |
| RoundRobin.Round | device/timer.c:49-62 | when the first k threads in line have had their slices they stand behind the others in the same order, each with its priority as new slice; after a whole round the line is as it was |
| RoundRobin.TicksConserved | device/timer.c:49-62 | in every run the elapsed ticks of all threads add up to the global ticks, modulo 2^32 |
| Transfer.NextChunk | device/ide.c:160-167 | a chunk has 1 to 256 sectors and its 8-bit count, 256 written as 0, is read back as that number |
| Transfer.CoversOnce | device/ide.c:149-225 | the commands of a request name every sector of it exactly once, in order, and no other |
| Transfer.IdeRead | device/ide.c:149-186 | byte j of sector lba + i arrives at place 512 * i + j of the buffer; it stops exactly for an empty request or a command starting at or beyond max_lba |
| Transfer.IdeWrite | device/ide.c:188-225 | sector lba + i becomes bytes 512 * i to 512 * i + 511 of the buffer for every sector whose command starts below max_lba, and no other sector changes; it stops as ide_read does |
| Transfer.ReadBack | device/ide.c:149-225 | reading the sectors written gives the buffer back |
| Ioqueue.Ring.Put | device/ioqueue.c:72-84 | the byte becomes the youngest of the contents, around the end of the buffer as well |
| Ioqueue.Ring.Get | device/ioqueue.c:51-69 | the oldest byte is returned and leaves the contents |
| Ioqueue.Ring.Full | device/ioqueue.c:25-28 | full means 63 bytes |
| Ioqueue.Ring.Empty | device/ioqueue.c:31-34 | head and tail meet exactly when there is no byte |
| Ioqueue.Keyboard.Key | device/keyboard.c:178-184 | the byte joins those put exactly when fewer than 63 wait, nothing is taken, and the ring holds what has been put and not taken |
| Ioqueue.Keyboard.Take | device/ioqueue.c:60-69 | the byte returned is the next of those put, and leaves the ring |
| Ioqueue.FetchOk | device/ioqueue.c:60-69 | taking the oldest byte keeps put, taken and contents in agreement and takes the next of those put |
| Ioqueue.KeptOk | device/keyboard.c:178-184 | a byte is kept exactly when fewer than 63 are waiting, and put, taken and contents stay in agreement |
| Sectors.TableRoundTrip | fs/file.c:355-378 | an index block read back is the table that was written |
| Sectors.TableLayout | fs/file.c:355-378 | entry i of an index block lies in its bytes 4 * i to 4 * i + 3, low byte first |
| Sectors.EntryLayout | fs/dir.h:21-25 | the 24 bytes of an entry: the name padded with zeros, the inode number low byte first, the type 0, 1 or 2 |
| Sectors.EntryRoundTrip | fs/dir.h:21-25 | a 24-byte directory entry read back is the one written, for names of at most 15 bytes |
| Sectors.EntryRoundTripIff | fs/dir.c:103-112 | for every name create_dir_entry accepts, the entry read back is the one written if and only if the name has at most 15 bytes or the inode number is divisible by 256 |
| Sectors.PatchSlot | fs/dir.c:199-201 | copying an entry into a block changes that slot and no other |
| Volume.PlacedKeeps | fs/file.c:251-381 | giving an inode newly allocated blocks, directly or behind an index block, leaves no block with two owners and every owned block marked |
| Volume.DataKeeps | fs/file.c:392-414 | overwriting a data block moves no block of any inode and changes no byte of another inode |
| Volume.IsolatedContent | fs/file.c:226-420 | a file that an operation is not about keeps its blocks and every byte |
| FileWrite.Partition.constructor | fs/fs.c:72-185 | a formatted partition: the root directory owns block 0 and nothing else is owned; its block is marked, and the ownership invariant holds, if and only if there are at least eight blocks |
| FileWrite.Partition.MarkTail | fs/fs.c:129-145 | the block bitmap as written: all bits behind the last block set, but for the first of them |
| FileWrite.Partition.AllocBlock | fs/file.c:63-72 | the first free block is marked; it stops exactly on a full bitmap |
| FileWrite.Partition.FirstBlock | fs/file.c:251-264 | a new file gets its first block; line 262 stops exactly when that block's number is divisible by 256 |
| FileWrite.Partition.GrowDirect | fs/file.c:293-313 | blocks has to will - 1 are new direct blocks, the lowest free ones in ascending order and no more, recorded in the inode and in all_blocks |
| FileWrite.Partition.GrowAcross | fs/file.c:314-356 | as before across the twelfth block: a new index block whose table on disk lists the blocks behind it |
| FileWrite.Partition.GrowIndirect | fs/file.c:357-379 | every block behind the index block is replaced by a new one, also those in use before, and twelve more blocks are taken |
| FileWrite.Partition.Plan | fs/file.c:266-381 | exactly the blocks the new size calls for are present; none of the assertions in the three situations can fire |
| FileWrite.Partition.WriteChunk | fs/file.c:393-413 | one turn of the loop stores its chunk at the end of the file and changes no earlier byte |
| FileWrite.Partition.WriteLoop | fs/file.c:389-414 | only data blocks of the file are written and all bytes of the buffer follow the old ones, i_size grows by count, fd_pos ends one behind it |
| FileWrite.StoredKeeps | fs/file.c:389-414 | storing bytes in an inode's data blocks moves no block of any inode and touches no other inode |
| FileWrite.WroteAppends | fs/file.c:226-420 | first block, planning and write loop, described by what they do to bitmap, inodes and sectors, keep block ownership and append |
| FileWrite.Partition.FileWrite | fs/file.c:226-420 | refuses exactly what exceeds 71680 bytes, stops at exactly 71680; else it appends as described, or stops only for want of a free block or for an unlucky first block |
| FileWrite.AppendContent | fs/file.c:226-420 | unless the file has an index block and needs another block, the new content is the old content followed by the buffer |
| FileWrite.BlocksKeptIff | fs/file.c:357-379 | the old blocks stay the file's blocks if and only if it is not the case that the file has more than 12 blocks and the write needs another |
| FileWrite.AppendsIff | fs/file.c:357-379 | on a disk whose free sectors are zero the write appends if and only if it is outside the third situation or all old bytes from 6144 on are zero |
| FileWrite.OldBlockLost | fs/file.c:357-379 | 512 bytes written to a file of 6200 whose byte 6144 is not zero, with zeroed free sectors: the content is not the old one followed by the buffer |
| DirModel.SearchExact | fs/dir.c:27-89 | a non-empty name is found exactly when a live entry carries it, and a proper name finds that entry |
| DirModel.RemoveUndoesInsert | fs/dir.c:115-322 | taking out the entry with the inserted number gives the original list of entries |
| Directory.AllBlocks | fs/dir.c:36-46 | all_blocks holds the sector of every block of the inode |
| Directory.SearchDirEntry | fs/dir.c:27-89 | the first slot in block order with that name, or nothing |
| Directory.FilledKeeps | fs/dir.c:196-204 | an entry put into a free slot is one more entry after the dots, and the directory stays in order |
| Directory.AddedKeeps | fs/dir.c:142-191 | an entry put into a new block is one more entry after the dots, and the directory stays in order |
| Directory.SyncDirEntry | fs/dir.c:115-211 | for every directory in whatever order and every name create_dir_entry accepts: the entry goes into the first free slot of the direct blocks, else the first missing direct block, else behind a new index block, i_size grows by 24, ownership is kept, no other inode is touched; in a directory in order with room exactly one entry more; it fails only for want of a free block or a size that is no multiple of 24 |
| Directory.InsertedKeeps | fs/dir.c:115-211 | in a directory in order an insertion adds exactly the entry, and makes an index block exactly when all twelve direct blocks are full, unless they are and there is one already |
| Directory.InsertedLoses | fs/dir.c:158-179 | in the excepted case the old index block is forgotten: the directory lists the entries of the direct blocks and the new one, every other is lost |
| Directory.InsertOrderIff | fs/dir.c:115-211 | an insertion keeps the directory in order if and only if there is no index block yet or a place left in the direct blocks |
| Directory.InsertedOwn | fs/dir.c:115-211 | every completed insertion keeps block ownership and touches no other inode |
| Directory.ScanBlock | fs/dir.c:249-267 | counts the live entries besides the dots, notices ".", finds the wanted entry; line 261 stops exactly when two entries have the number |
| Directory.EmptiedKeeps | fs/dir.c:308-314 | clearing a slot takes exactly that entry out and keeps the dots |
| Directory.DroppedKeeps | fs/dir.c:276-284 | freeing a block takes exactly its only entry out |
| Directory.DeleteDirEntry | fs/dir.c:214-322 | on every directory: what a completed deletion does, with ownership kept and no other inode touched; on a directory in order it hangs exactly when the entry is alone in a block behind the index block, else it is true exactly when an entry other than the dots has the number, and then exactly that entry is gone, i_size is 24 less and a block left empty is freed; no assertion fires; in any case it is true exactly when some block has an entry with the number besides the dots |
| Directory.DeletedKeeps | fs/dir.c:214-322 | a completed deletion takes exactly that entry out and keeps the directory in order |
| Directory.DeletedOwn | fs/dir.c:214-322 | every completed deletion keeps block ownership and touches no other inode; a block is free afterwards exactly if it was or the directory had it and has it no more |
| Enumeration.ScanSlots | fs/dir.c:357-373 | the scan stops at the live entry whose offset is dir_pos; line 367 cannot fire |
| Enumeration.Handle.DirRead | fs/dir.c:324-377 | returns the live entry number dir_pos / 24 and advances, or NULL at the end |
| Enumeration.EnumeratesAll | fs/dir.c:324-377 | successive calls return every live entry exactly once in order, then NULL, after exactly i_size / 24 entries |
| FileSystem.ReleaseKeeps | fs/inode.c:180-229 | releasing an inode keeps block ownership and touches no other inode |
| FileSystem.InodeRelease | fs/inode.c:180-229 | clears exactly the bits of the inode's direct blocks, index block and blocks behind it; stops exactly when it owns the root directory's block |
| FileSystem.EmptyExact | fs/dir.c:380-384 | i_size equals two entries exactly when only the dots are left, and then only the first sector is in use |
| FileSystem.DirRemove | fs/dir.c:387-407 | the child's entry leaves the parent and the child its blocks, also when both are the same directory; all other inodes are untouched; the exact conditions for stopping and hanging |
| FileSystem.DeleteUndoesInsert | fs/dir.c:115-322 | deleting what was inserted gives entries and i_size back whatever blocks were allocated or freed meanwhile |
| FileSystem.NewDirectory | fs/fs.c:592-624 | a new inode with one block holding "." and ".."; a stop only for want of a block or at line 605 |
| FileSystem.NewDirKeeps | fs/fs.c:592-624 | the new directory is in order, lists exactly the dots and touches nothing else |
| FileSystem.Mkdir | fs/fs.c:592-646 | for every name create_dir_entry accepts, the new directory is made and its entry inserted, with block ownership kept |
| FileSystem.MadeDirKeeps | fs/fs.c:592-646 | in a parent with room: the parent gains exactly the new entry, the new directory holds exactly the dots, nothing else changes |
| FsRuns.FormattedOk | fs/fs.c:72-185 | a formatted partition satisfies the file-system invariant |
| FsRuns.StepKeeps | fs/file.c:226-420 | what write, insertion, deletion, creation, mkdir and release do to bitmap, inodes and sectors keeps ownership, files and directories in order |
| FsRuns.OthersUntouched | fs/file.c:226-420 | each operation leaves every byte of every other file and every entry of every other directory as it was |
| FsRuns.FsSafe | fs/file.c:226-381 | over every sequence of such operations, with any names and numbers inserted: no block has two owners, every owned block is marked, every file has exactly the blocks its size calls for, every directory is in order unless it has lost an index block or was given an entry it cannot tell apart |
| FsRuns.ContentLasts | fs/file.c:226-420 | a file's content survives any stretch of a run that does not name it |
| FsRuns.WritesConcatenate | fs/file.c:226-420 | over every run whose writes to a file stay outside the third situation the file is its old content followed by all buffers in order |
| FsRuns.Perform | fs/file.c:226-420 | each request, carried out by the method that models it, is a step of such a run exactly when it is due - not a write beyond 71680 bytes, a deletion of what is not there, a new inode under a used number or the release of a missing one - and else changes nothing; it stops the kernel only for a full bitmap or one of the exact reasons of the operation |
| FsRuns.Execute | fs/file.c:226-420 | any sequence of requests carried out on a partition: exactly the requests that are due form such a run, up to the request that stops the kernel, for which there is a reason |
| Marks.LosesIff | fs/file.c:357-379 | an operation loses blocks if and only if it is a write to a file with an index block that needs another block, or an insertion into a directory whose direct blocks are full and which has an index block |
| Marks.LostAccounts | fs/file.c:357-379 | in the third situation of file_write the blocks lost are the first twelve taken and the old ones behind the index block, as many as the file had |
| Marks.InsertAccounts | fs/dir.c:158-179 | an insertion that makes a new index block loses the old one and what lies behind it; any other marks exactly the blocks the directory gains |
| Marks.StepLoses | fs/inode.c:180-229 | every operation turns exactly that many blocks into marked blocks without an owner, and no such block is ever recovered |
| Marks.BlocksConserved | fs/file.c:226-420 | over every run the marked blocks without an owner are those of the first state and exactly as many more as its operations have lost |
| Marks.EveryBlockOwned | fs/fs.c:129-145 | from a formatted partition, as long as no operation loses blocks, a block is marked exactly if some inode owns it or it lies behind the last block |
| Layout.LayoutFits | fs/fs.c:72-108 | the metadata regions and the data area follow each other without gap or overlap, the bitmap has a bit per block and no sector too many, every block lies inside the partition, and at most one sector is left over, plus one per 4095 sectors of bitmap |
| Layout.LayoutFitsIff | fs/fs.c:72-90 | the block bitmap fits the partition if and only if it has at least 611 sectors |
| Layout.BlocksFree | fs/fs.c:129-145 | exactly the root directory's bit, from eight blocks on, and the bits behind bit block_bitmap_bit_len are set; every other block is free |
| Layout.RootMarkedIff | fs/fs.c:129-145 | the bitmap written by partition_format marks the root directory's block if and only if there are at least eight blocks |
| Layout.BeyondIff | fs/fs.c:129-145 | a free bit stands for a sector beyond the partition if and only if the number of blocks is no multiple of 4096 and no sector is left over |
| InodeTable.InodeRoundTrip | fs/inode.c:53-58 | an inode's 76 bytes read back give number, size and sectors |
| InodeTable.InodeLayout | fs/inode.h:8-17 | the 76 bytes of an inode: i_no, i_size and i_sectors at their offsets 0, 4 and 16, low byte first, zeros elsewhere |
| InodeTable.InodeLocate | fs/inode.c:18-40 | every inode below 4096 lies in the table whole, in one sector or two as reported |
| InodeTable.InodeSync | fs/inode.c:43-76 | exactly the 76 bytes at the number modulo 256 become the inode's, in one sector or across two |
| InodeTable.InodeDelete | fs/inode.c:156-177 | exactly the 76 bytes under the inode's full number become zero |
| InodeTable.InodeRead | fs/inode.c:92-114 | the inode is decoded from its own 76 bytes |
| InodeTable.SyncStores | fs/inode.c:43-76 | the inode can be read back under its number modulo 256 and no other inode's bytes change |
| InodeTable.SyncOpenIff | fs/inode.c:43-123 | a fresh inode_open restores what inode_sync wrote exactly for numbers below 256 |
| Paths.SplitJoin | fs/fs.c:248-261 | splitting a joined path gives its names back |
| Paths.PathParse | fs/fs.c:248-261 | returns the first name of the path and the rest; repeated slashes do not count |
| Paths.ChildFound | fs/fs.c:756-794 | in a well-formed tree look-up by number and look-up by name find the same entry |
| Paths.WalkPath | fs/fs.c:307-347 | walking a directory's path from the root leads to it |
| Paths.SearchFindsPath | fs/fs.c:283-348 | search_file on a directory's path returns the directory, with its parent open |
| Paths.LastSlash | lib/string.c:77-87 | the index of the last slash, or none |
| Paths.ReversePath | fs/fs.c:833-840 | the last-slash loop turns the leaf-first path into the root-first path |
| Paths.ChildName | fs/fs.c:756-794 | the name in the first slot with the number |
| Paths.CwdRoundTrip | fs/fs.c:798-862 | whatever path led to a directory, the path that sys_getcwd reports for it leads to it again |
| Paths.SearchStays | fs/fs.c:283-348 | a directory found is one of the tree, unless the path is nothing but slashes: then the number is whatever was on the stack |
| Paths.ResolvesIff | fs/fs.c:308-339 | the search agrees with path resolution if and only if no proper prefix of the path is a regular file |
| Paths.FileWithChild | fs/fs.c:331-334 | "/f/x" finds the regular file f |
| Paths.OverrunIff | fs/fs.c:307-347 | with whatever searched_path holds at the start, the search stops on line 310 if and only if some name is looked up with no less than 512 characters in the record, and is otherwise the same search |
| Paths.ClearRecord | fs/fs.c:283-348 | with a cleared record the assertion on line 310 cannot fire |
| Paths.StaleRecord | fs/fs.c:715-718 | "/a/b" with 510 characters left in the record stops on line 310 |
| Mount.Mounted.constructor | fs/fs.c:72-185 | a formatted partition of at least eight blocks: blocks, tree, inode bitmap and inode table agree |
| Mount.Mounted.InodeAlloc | fs/file.c:52-60 | the first free inode number is marked; it stops exactly on a full bitmap |
| Mount.FreeNumber | fs/file.c:52-60 | a number whose bit is clear belongs to no inode and occurs in no directory |
| Mount.Mounted.SysMkdir | fs/fs.c:582-650 | with the number from the inode bitmap and both inodes written back: one leaf more in the tree; a fresh inode_open finds the new directory if and only if its number is below 256, and its inode stands in slot number modulo 256; all stays in order if and only if, besides, the parent had room |
| Mount.MkdirMounts | fs/fs.c:582-650 | the same of values, for the numbers, the tree and the table |
| Mount.Mounted.SearchPath | fs/fs.c:283-348 | the search through the blocks is the search in the tree, with the stop on line 310 for a record that was not cleared |
| Mount.Mounted.SysChdir | fs/fs.c:846-862 | the working directory becomes what search_file finds, exactly when that is a directory |
| Mount.Mounted.SysRmdir | fs/fs.c:715-740 | removes the found directory exactly when it is empty; the exact conditions for stopping, with what the uncleared record holds, and for hanging; blocks, tree, inode bitmap and inode table stay in order if and only if nothing was removed through a path ending in "." |
| Mount.Mounted.RemoveFound | fs/dir.c:387-407 | the removal of entry and blocks, with inode table and inode bitmap; the assertion on line 182 of fs/inode.c cannot fire for a directory of the tree |
| Mount.ReadBackIff | fs/inode.c:180-182 | the number read back for a directory just made is its own, as inode_release asserts, if and only if it is below 256 |
| Mount.Mounted.ParentNumber | fs/fs.c:743-754 | the number of the parent, read from the directory's first sector; line 747 stops exactly for a directory that has been removed, line 752 cannot fire |
| Mount.Mounted.NameIn | fs/fs.c:756-794 | the name in the first slot, in block order, with the number, as in the tree |
| Mount.Mounted.Climb | fs/fs.c:822-830 | the climb through the blocks terminates with the depth as measure, fits the 512-byte buffer and collects the names leaf first |
| Mount.Mounted.SysGetcwd | fs/fs.c:798-843 | the root-to-leaf path of the working directory, the stop on line 831 exactly when it is longer than the buffer, or on line 747 exactly when the directory has been removed; the bytes written do not fit exactly when the path is as long as the buffer, or for the root in less than two bytes |
| MountFiles.SlotIff | fs/inode.c:43-76 | a directory that could be read can still be read after another inode has been stored if and only if its number is not the other's modulo 256 |
| MountFiles.FileCreate | fs/file.c:100-172 | with the number from the inode bitmap and both inodes written back: the file's entry is inserted; of the directories exactly the one, if any, with the file's number modulo 256 is read back as the file; all stays in order if and only if there is none and the parent had room |
| MountFiles.FileMounts | fs/file.c:100-172 | the same of values, for blocks, tree, numbers and table |
| MountFiles.RemoveFile | fs/fs.c:537-542 | entry, blocks, number and slot of a file are given up and all stays in order; it hangs exactly when delete_dir_entry does and stops exactly when the slot carries another number |
| MountFiles.SysUnlink | fs/fs.c:494-544 | removes the file that the path finds and nothing else; the exact conditions for stopping and hanging; all stays in order |
| DirTree.TreeLookups | fs/dir.c:27-89 | look-ups by name and by number in a directory's blocks are look-ups in the tree |
| DirTree.MkdirIsMade | fs/fs.c:592-646 | what sys_mkdir does to the blocks is one new leaf in the tree |
| DirTree.MkdirKeepsTree | fs/fs.c:547-664 | mkdir with a number below 256 keeps the tree well-formed |
| DirTree.ParentIff | fs/fs.c:307-347 | for every path that finds a directory, search_file leaves its parent open if and only if the path does not end in "." or "..", or it is the root |
| DirTree.RmdirIsRemoval | fs/dir.c:387-407 | what dir_remove does to the blocks is the removal of an entry and a directory in the tree |
| DirTree.RmdirIff | fs/fs.c:715-740 | for every path sys_rmdir keeps the tree well-formed if and only if it does not remove a directory through a path ending in "." |
| DirTree.DotRemoved | fs/fs.c:715-740 | "/a/." removes the empty directory a and leaves its entry in the root |
| DirTree.InsertIsFiled | fs/dir.c:115-211 | an insertion of a file's entry into the blocks is one more file in the tree |
| DirTree.DeleteIsUnfiled | fs/dir.c:214-322 | a deletion of a file's entry from the blocks is one file fewer in the tree |
| DirTree.EditedKeeps | fs/dir.c:115-322 | a directory that gains or loses files and keeps its subdirectories leaves the tree well-formed |
| DirTree.LinkIff | fs/file.c:100-172 | file_create keeps the tree that the inode table holds well-formed if and only if no directory has the file's number modulo 256 |
| DirTree.DirectoryLost | fs/file.c:151-155 | a run: with "/a" and "/a/b" as 1 and 2, a file with number 257 makes "/a/b" unfindable |
| DirTree.RmdirKeepsTree | fs/fs.c:715-740 | removing an empty directory from its parent keeps the tree well-formed |
| DirTree.CwdAfterAnyRun | fs/fs.c:798-862 | after any run of mkdir, rmdir by path, file creation, writing and unlinking from a formatted partition in which nothing is removed through a path ending in "." and no file is stored in a directory's slot, the getcwd path of every directory leads back to it |

## Left out

- Boot code, interrupt entry, context switch and port I/O: switching threads is a change of the running thread, disabling interrupts makes a step atomic.
- Update in place inside `thread/sync.c` and the waiting part of `device/ide.c`: threads interleave between their statements, so they are a transition system on values; `inode_sync`, `ide_read` and `ide_write` take and return the disk as a value.
- Keyboard decoding, console, printing, system-call tables, the shell and the process loader: only easy properties.
- `partition_scan`, `identify_disk`, `busy_wait` and the PANIC of a failing drive: hardware probing and timing; a command always completes.
- File descriptors, `file_open`, `sys_open`, `sys_lseek`, `sys_stat`: they add bookkeeping around the operations modelled here.
- `file_read`: its remainder within a sector is computed from the file size, so it has no round trip beyond one block.
- NULL returns of `sys_malloc` inside the file system: these early exits happen before anything has changed.
- The contents of memory: `memset` of new blocks and pages, and the two links in a free block; addresses and sizes are modelled, bytes are not.
- The TLB, and sharing of one physical page by several address spaces; `get_a_page` and `get_kernel_pages`.
- The pool locks around `sys_malloc` and `sys_free`: the heap is modelled for one caller at a time.
- Writes of bitmaps back to the disk, and of inodes by `file_write`: the bitmaps and the open inodes in memory are the truth there, the sectors of a Vol are data and index blocks. `file_write` narrows the bit index of such a write to 8 bits. For directories the inode table on disk is modelled, as a map beside the data sectors; `Layout.LayoutFits` keeps the two apart.
- The open-inode list: `inode_open` and `inode_close` share one copy per inode, which Vol takes for granted; opening concurrently is not modelled.
- A producer that sleeps on the keyboard queue: the keyboard handler drops a byte rather than wait.
- `list_traversal` and `print_list`, which call back into other modules.
- `path_depth_cnt`, whose name buffer is not cleared before the first component.
- Mount.Mounted.SearchPath: names of more than 15 characters overflow the name buffer and are excluded.
- Mount.Mounted.SysChdir: as SearchPath, through which it goes.
- Mount.Mounted.SysRmdir: as SearchPath; what a path appended to a nearly full record writes behind it is not modelled; a path of nothing but slashes finds what was on the stack and is excluded.
- Mount.Mounted.SysMkdir: starts when the path search is over, with the parent and a name that is not in it; names of 16 characters, for which the entry does not read back, are excluded.
- Mount.Mounted.constructor: partitions of fewer than eight blocks, whose root block is not marked, are excluded here and covered by `FileWrite.Partition.constructor`.
- Mount.Mounted.SysGetcwd: paths of 512 characters and more overflow the local buffer and are excluded, and so is a working directory whose freed number has become a file's.
- Mount.Mounted.Climb: as SysGetcwd, of which it is the loop.
- FileWrite.Partition.FileWrite: the buffer is a sequence, so that count plus i_size does not wrap around 2^32.
- Sectors.EntryRoundTrip: 16-character names are excluded; `Sectors.EntryRoundTripIff` covers them.
- Directory.SyncDirEntry: that the listing gains exactly the entry is stated for names of at most 15 characters, because longer ones do not read back.
- PageTables.KernelStart: the loader writes only 256 entries of the first page table; that the others are not present is assumed, as the kernel does.
- MountFiles.SysUnlink: as SearchPath; a file that is open, which sys_unlink refuses, is excluded.
- MountFiles.RemoveFile: a file that is open is excluded.
- MountFiles.FileCreate: starts when the path search is over; names of 16 characters are excluded; the descriptor tables are not modelled.
- DirTree.CwdAfterAnyRun: numbers of new directories below 256, as `Mount.Mounted.SysMkdir` requires for them to be readable.
- KeyboardProof.ReaderNeverStarves: for one reader; `TwoReaders.LosesIff` says what happens with several.
- FileSystem.InodeRelease: the assertion on the number read back is stated with the inode table, by `Mount.Mounted.RemoveFound` and `Mount.ReadBackIff`.
- IntrusiveList.List.Pop: an empty list, from which list_pop would unlink the tail sentinel, is excluded; its callers rule it out.
- SyncProof.NoAssertFires: nesting of one lock beyond 2^32 - 1 acquires is excluded, and idle's `hlt` is a step that may happen at any time.
- Pages.PageAllocator.MallocPage: after exhaustion of the physical pool the kernel has stopped, and nothing is restored.
