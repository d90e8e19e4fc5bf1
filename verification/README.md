# Linux 0.11, modelled and proved

A Dafny model of the parts of the Linux 0.11 kernel whose correctness rests on invariants: copy-on-write
paging, the buffer cache with its request queues, file storage, directories, the console, the kernel
allocator, exec's argument pages, and the scheduling primitives. `dafny verify dfyconfig.toml` checks it.

Each subsystem has the same three layers. A *model* module holds the state as a value and what each kernel
function does to it, branch by branch. *Proof* modules say what that means: invariants over every run,
refinement of a simpler system, round trips. A *class* does the work as the kernel does it, on arrays, linked
lists and fields with loops, and each of its methods ends in the state that the model names.

| subsystem | model and proofs | the code in place |
|---|---|---|
| paging | PageModel, PageInvariant, PageSteps, PageEntries, PageTables, PageFaults, PageRuns, PageRefinement, PageMemory, PageTheorems, PageLeaks, PageStale | Memory |
| buffer cache and devices | Elevator, BufferProtocol, BufferProofs, BufferTheorems | BufferCache, BufferQueues, BufferLinks, RequestList, RamDisk |
| files | FileModel, FileTrees, FileBytes, FileTruncate | FileSystem |
| directories and links | LinkModel, LinkCounts, LinkProofs, LinkNames | Namei |
| console | ConsoleModel, ConsoleScreen, ConsoleProofs, ConsoleLanguage | Console |
| kernel malloc | MallocModel, MallocSteps | Malloc |
| exec arguments | ExecModel | Exec |
| sleeping, timers, scheduling, pipes | SleepQueue, Timers, Scheduler, Pipe | the classes in the same modules |

Common and NumberLists hold the types and list operations that several subsystems share.

Time and concurrency enter as the kernel has them: it is not preemptive, so the buffer cache interleaves only
where a task sleeps and where a device completes a request; the class BufferCache.Cache is given a schedule of
what the others do at each of its sleeps, and its results hold for every schedule. Paging, directories, timers,
pipes and the sleep queue are sequences of atomic calls in any order.

## Findings

Where the code does not do what it is for, the model follows the code, a lemma shows the failure, and another
says exactly when the code is right.

- Page sharing can show (mm/memory.c:221-238, 292-334). un_wp_page gives the copy of a written page an entry
  with a clear dirty bit; when nothing is stored in it afterwards, try_to_share takes it for the program's own
  page. A system call that has write_verify check a buffer is enough. PageStale.SharingCanShow runs there from
  boot, for every program and every word; PageTheorems.NextRefines and VerifyClean give the exact condition,
  which is the predicate Stale: the step copies or installs a page, at an address loaded from the program, whose
  bytes are not the program's. Without such a step sharing is invisible (SharingInvisible).
- A script run with an empty argv gets an argc one too small (fs/exec.c:262-281), so its file name appears as
  the first environment string. ExecModel.CountIsRight: this happens for exactly those calls.
- ESC 7 and ESC 8 compare the cursor's column, not the character, with '7' and '8' (kernel/chr_drv/console.c:505-508):
  the cursor is saved in column 55 and restored in column 56, by any otherwise meaningless escape.
  ConsoleProofs.SavingDependsOnTheColumn says so for all inputs.
- add_timer does not take the new entry's delta off its successor (kernel/sched.c:303-313): later timers become
  due later by that much. Timers.InsertMeaning states by how much; that no timer is ever early is NeverEarly.
- insert_into_queues writes through a null pointer when the hash chain is empty (fs/buffer.c:163). The model
  makes that store only when there is a buffer to store into.
- sys_mkdir frees the new directory's zone twice when add_entry fails (fs/namei.c:551-557). The model calls
  that a panic; LinkNames.MkdirMeaning says when it happens.

## Model

| member | source | states |
|---|---|---|
| PageTheorems.RunRefinesPrivate | mm/memory.c:150-397 | over every run of forks, execs, exits, reads, writes, write_verify calls and kernel page steps, the pages that each task in a slot above 0 sees in paged memory are what replaying the run's events on private memories gives; the frame invariant holds throughout |
| PageTheorems.SharingInvisible | mm/memory.c:292-363 | while no step of the run is stale, page sharing shows nowhere: every page a task is given is its program's, or zeros, as if it had been loaded |
| PageTheorems.NextRefines | mm/memory.c:221-397 | one step does to the views what its events do to private memories, and unwritten pages keep showing the program exactly when the step is not stale |
| PageTheorems.VerifyClean | mm/memory.c:261-272 | write_verify keeps unwritten pages equal to the program if and only if it does not copy a page whose bytes differ from the program |
| PageTheorems.FramesAccounted | mm/memory.c:57-131 | in every state reachable from boot there is no panic, each byte of mem_map is the number of page-table, directory and kernel references to its frame, fewer than 64, and a user-writable entry is the only reference to its frame |
| PageTheorems.WriteIsolated | mm/memory.c:221-259 | in every reachable state a task's write, with all its faults, changes nothing that another task sees |
| PageTheorems.BootInv | mm/memory.c:399-411 | the state that mem_init leaves meets the invariant, and no task sees a page |
| PageStale.SharingCanShow | mm/memory.c:221-238 | the sharing property fails: from boot, for every program and every word, seven steps make a task start from a page that another task wrote |
| PageStale.StaleShareShows | mm/memory.c:292-334 | after any stale write_verify of a task, a task of the same program that faults the page in while that task is the highest one to offer it is shown its bytes |
| PageInvariant.CountBound | mm/memory.c:57 | frames are shared at one task-relative offset only, so a count stays below the number of task slots and the unsigned char cannot wrap |
| PageRefinement.ForkSteps | kernel/fork.c:43-139 | fork is all or nothing: the child's entries are exactly its parent's, write-protected, low pages and those of task 0 included; it sees its parent's pages, nobody else's entries lose more than the write bit, and nobody notices; or every view and every count is as before |
| PageRefinement.ForkUndone | kernel/fork.c:60-63 | when copy_page_tables runs out of frames half way, freeing what was copied restores every count and every view |
| PageTables.CopyTablesSteps | mm/memory.c:150-189 | copy_page_tables gives the child an entry exactly where its parent has one, the same but for the write bit, for task 0 those below its limit of 160 pages and none beyond; at most it takes the write bit from anybody else's entries |
| PageTables.FreeTablesSteps | mm/memory.c:105-131 | free_page_tables leaves no table in its range, nothing changed outside it, and the counts right |
| PageFaults.ShareSteps | mm/memory.c:344-363 | share_page maps the page of the highest slot that offers a clean one, and fails for lack of memory only when one is offered |
| PageFaults.NoPageSteps | mm/memory.c:365-397 | do_no_page makes exactly the faulting page present: borrowed, or the program's page below end_data, or zeros; or it changes no view |
| PageFaults.WriteVerifySteps | mm/memory.c:261-272 | write_verify leaves a present page writable with the bytes it had, or changes nothing for lack of memory |
| PageFaults.UnWpSteps | mm/memory.c:221-238 | un_wp_page gives the task a writable page of its own with the same bytes, or changes nothing for lack of memory |
| PageFaults.SharingIsLoading | mm/memory.c:292-363 | in a state whose unwritten pages show the program, a borrowed page shows what loading it would |
| PageFaults.SpaceMeaning | mm/memory.c:365-397 | a live task can fault exactly at the pages of the tables that its data limit reaches into, so at every page below it |
| PageMemory.ForkFree | kernel/fork.c:43-139 | fork fails if and only if no slot is empty or there are fewer free frames than one for the task structure and one for each page table of the parent |
| PageMemory.CopyTablesFree | mm/memory.c:150-189 | copy_page_tables fails if and only if there are fewer free frames than the parent has page tables |
| PageMemory.NoPageFree | mm/memory.c:365-397 | do_no_page fails if and only if there are too few free frames for the page, unless it is borrowed, and for its table |
| PageMemory.UnWpFree | mm/memory.c:221-238 | un_wp_page fails if and only if the page is shared and no frame is free |
| PageLeaks.NothingLeaks | mm/memory.c:57-131 | after any run from boot without kernel allocations, once every task is gone, every frame that mem_init made available is free |
| PageLeaks.ExitMeaning | kernel/exit.c:132-165 | an exited task is a zombie that runs no program and has no page and no page table left; the frames it alone referred to are free |
| PageLeaks.NextOwners | mm/memory.c:57-131 | no step but the kernel's own get_free_page leaves the kernel with one more frame that is no task structure |
| PageEntries.WritableAlone | mm/memory.c:221-230 | a writable entry is the only reference to its frame |
| PageSteps.AllocStep | mm/memory.c:63-83 | get_free_page changes no table and no view; the frame is zeroed and nobody's; 0 means that no byte of mem_map is 0 |
| PageSteps.FreePageMeaning | mm/memory.c:89-99 | free_page panics if and only if the page is beyond memory or free already; else a paged frame has one user less and a low one is left alone |
| PageModel.LastFree | mm/memory.c:63-83 | the backward scan finds the last zero byte of mem_map, or there is none |
| Memory.PhysicalMemory.constructor | mm/memory.c:399-411 | mem_init leaves a boot state |
| Memory.PhysicalMemory.GetFreePage | mm/memory.c:63-83 | the array operation is the model's allocation |
| Memory.PhysicalMemory.Free | mm/memory.c:89-99 | free_page on the array is the model's, with its two panics |
| Memory.PhysicalMemory.FreePageTables | mm/memory.c:105-131 | the loops over tables and entries are the model's |
| Memory.PhysicalMemory.CopyPageTables | mm/memory.c:150-189 | the loops over tables and entries are the model's, with the same failure |
| Memory.PhysicalMemory.PutPage | mm/memory.c:197-219 | put_page on memory is the model's |
| Memory.PhysicalMemory.UnWpPage | mm/memory.c:221-238 | un_wp_page on memory is the model's |
| Memory.PhysicalMemory.VerifyWrite | mm/memory.c:261-272 | write_verify on memory is the model's |
| Memory.PhysicalMemory.SharePage | mm/memory.c:344-363 | the walk over the slots is the model's |
| Memory.PhysicalMemory.DoNoPage | mm/memory.c:365-397 | do_no_page on memory is the model's |
| Memory.PhysicalMemory.CopyProcess | kernel/fork.c:43-139 | the memory part of fork is the model's, undoing included |
| Memory.PhysicalMemory.DoExit | kernel/exit.c:132-165 | the memory part of exit is the model's |
| Elevator.NoStarvation | kernel/blk_drv/ll_rw_blk.c:64-86 | however requests arrive, a queued request sees at most as many completions as its measure said when it was counted |
| Elevator.StepWait | kernel/blk_drv/ll_rw_blk.c:64-86 | no arrival raises a queued request's measure, and every completion lowers it |
| Elevator.WaitBounded | kernel/blk_drv/ll_rw_blk.c:64-86 | the measure lies between 0 and 4 times the number of (device, sector) pairs |
| Elevator.AlwaysShaped | kernel/blk_drv/ll_rw_blk.c:78-84 | through arrivals, completions and the head moving to its second sector, the queue is at most two ascending runs |
| Elevator.ShapeMeaning | kernel/blk_drv/blk.h:40-43 | in each of the two runs reads come before writes, then lower devices, then lower blocks |
| Elevator.RankOrders | kernel/blk_drv/blk.h:40-43 | IN_ORDER is the order of a finite rank |
| Elevator.InsertProper | kernel/blk_drv/ll_rw_blk.c:78-84 | add_request keeps the queue free of duplicate blocks |
| RequestList.RequestQueue.AddRequest | kernel/blk_drv/ll_rw_blk.c:64-86 | the splice into the linked list is the model's insertion |
| RequestList.RequestQueue.Walk | kernel/blk_drv/ll_rw_blk.c:78-82 | the walk stops where the model inserts |
| RequestList.RequestQueue.EndRequest | kernel/blk_drv/blk.h:109-125 | end_request pops the head of the linked list |
| RamDisk.DeviceRefinesProtocol | kernel/blk_drv/ramdisk.c:23-47 | do_rd_request, copying bytes until its queue is empty, does what as many completions of the protocol do, when the requests lie on the disk |
| RamDisk.HandleServes | kernel/blk_drv/ramdisk.c:28-46 | one round for a request on the disk is one completion of the protocol |
| RamDisk.Disk.DoRequest | kernel/blk_drv/ramdisk.c:23-47 | the loop over the queue handles every request in order and leaves the queue empty; the buffer of a request beyond the disk ends unlocked and not up to date, with the bytes it had |
| RamDisk.BeyondIsRefused | kernel/blk_drv/ramdisk.c:31-34 | a request beyond the disk, or for another minor device, does nothing but mark its buffer: the rest is as if it had not been queued |
| BufferCache.Cache.Bread | fs/buffer.c:267-281 | in every interleaving bread returns a buffer of the block, held by the caller and not locked, that shows the last bytes stored for the block; it fails only for a device that does not exist, and does not sleep when the block is cached, up to date and unlocked |
| BufferCache.Cache.Getblk | fs/buffer.c:206-251 | getblk returns an unlocked buffer for the block, held once more by the caller, and nothing that the caller relies on changed; it does not sleep when the block is cached and unlocked, or not cached and some buffer is idle, clean and unlocked |
| BufferCache.Cache.GetHashTable | fs/buffer.c:183-196 | the buffer found before the sleep is still the block's after it, so the second test never fails |
| BufferCache.Cache.PickVictim | fs/buffer.c:213-223 | of the buffers nobody holds no one is cheaper than the victim, a dirty one counting as dearer than any clean one and then a locked one as dearer than an unlocked one, and it is the first such on the free list; none is found only when all are held |
| BufferCache.Cache.TakeVictim | fs/buffer.c:228-250 | a victim is claimed only when it is still free, clean and the block is still not cached; otherwise the search starts over |
| BufferCache.Cache.LlRwBlock | kernel/blk_drv/ll_rw_blk.c:145-155 | a read leaves the buffer queued or up to date; a write that did not sleep leaves it clean and the others untouched |
| BufferCache.Cache.MakeRequest | kernel/blk_drv/ll_rw_blk.c:103-143 | make_request on an unlocked buffer, with its early return and its wait for a slot |
| BufferCache.Cache.TryEnqueue | kernel/blk_drv/ll_rw_blk.c:121-143 | a request is queued unless all 32 slots, or for a write the first 21, are taken; the buffer is then marked clean and in the queue, and no other changes |
| BufferCache.Cache.SyncDev | fs/buffer.c:59-82 | sync_dev, when it did not sleep, leaves no buffer of the device dirty and no identity changed |
| BufferCache.Cache.Brelse | fs/buffer.c:253-261 | brelse drops one hold and disturbs nothing else the caller relies on |
| BufferCache.Cache.WaitOnBuffer | fs/buffer.c:36-42 | wait_on_buffer returns with the buffer unlocked, and without sleeping when it was |
| BufferTheorems.CacheCoherent | fs/buffer.c:183-281 | in every state that guarded actions reach, up-to-date buffers show the last bytes stored, no two buffers are for one block, and every queue is two runs |
| BufferTheorems.NothingLost | kernel/blk_drv/ll_rw_blk.c:70-71 | when no buffer is dirty and no request is queued, the disk holds the last bytes stored for every block |
| BufferTheorems.IdentityStable | fs/buffer.c:231-250 | no action changes the device or block of a buffer that is held or locked |
| BufferTheorems.OthersAreReliable | fs/buffer.c:36-42 | whatever another task or a device does while a task sleeps keeps what the task relies on |
| BufferTheorems.QueueFollows | kernel/blk_drv/ll_rw_blk.c:64-86 | every action changes a device's queue as the elevator's operations do |
| BufferTheorems.SlotsNeverShared | kernel/blk_drv/ll_rw_blk.c:110-131 | in every reachable state queued requests are in different elements of request[], at most 32, and no write is in the last 11 |
| BufferTheorems.RequestsAreServed | kernel/blk_drv/ll_rw_blk.c:64-143 | in a run of the whole protocol a waiting request sees at most as many completions of its device as its measure says |
| BufferProofs.ActKeepsInv | fs/buffer.c:183-281 | every action keeps uniqueness, the ring, the request bookkeeping, coherence and the account of pending writes |
| BufferTheorems.InitialInv | fs/buffer.c:348-381 | buffer_init's state meets the invariant |
| BufferLinks.CarryOut | fs/buffer.c:131-164 | over every run the hash chains and the free list of the buffer heads represent the protocol's buffers |
| BufferLinks.OnItsChain | fs/buffer.c:128-164 | a represented buffer is on the chain of its own block and on no other |
| BufferLinks.ClaimBuffer | fs/buffer.c:246-249 | remove_from_queues, the new key and insert_into_queues are the protocol's claim |
| BufferLinks.FindCached | fs/buffer.c:166-174 | the walk along one chain decides whether the block is cached at all |
| BufferQueues.Queues.constructor | fs/buffer.c:348-381 | buffer_init links one ring through all buffers and leaves all chains empty |
| BufferQueues.Queues.FindBuffer | fs/buffer.c:166-174 | the walk along one chain finds the block's buffer among all buffers, or there is none |
| BufferQueues.Queues.RemoveFromQueues | fs/buffer.c:131-147 | the buffer is off its chain and off the ring, and both are still well linked |
| BufferQueues.Queues.InsertIntoQueues | fs/buffer.c:149-164 | the buffer is last on the ring and first on the chain of its block |
| BufferQueues.Queues.Reassign | fs/buffer.c:246-249 | after a change of identity there is one ring through all buffers again and every buffer is on exactly its own chain |
| FileSystem.Device.FileWrite | fs/file_dev.c:48-90 | file_write leaves its file as the old bytes, zero-extended to the start and overwritten by the first n bytes of the buffer, no other file changed; it stops short only on a full device |
| FileSystem.Device.SysRead | fs/read_write.c:55-78 | a read returns exactly the slice of the file from f_pos, cut at i_size |
| FileSystem.Device.FileRead | fs/file_dev.c:17-46 | file_read returns the file's bytes, with zeros for holes |
| FileSystem.Device.Bmap | fs/inode.c:72-148 | bmap and create_block walk and build the tree as the model does |
| FileSystem.Device.AllocateBlock | fs/bitmap.c:75-105 | new_block takes the first clear bit and clears the block |
| FileSystem.Device.FreeBlock | fs/bitmap.c:47-73 | free_block clears the zone's bit and no other |
| FileSystem.Device.Truncate | fs/truncate.c:47-64 | truncate clears exactly the bits of the inode's tree; the file is empty and every other file is as it was |
| FileBytes.WrittenContent | fs/file_dev.c:48-90 | writing bytes at a position, as the write relation says it, is overwriting in the reference model of a file, for every file of the device |
| FileBytes.WrittenTwice | fs/file_dev.c:57-84 | two adjoining chunks written one after the other are one write of both |
| FileBytes.PutChunkStep | fs/file_dev.c:64-82 | a chunk put into a mapped block writes those bytes of that file and nothing else |
| FileBytes.EmptyDevice | fs/bitmap.c:75-105 | a device without files meets the invariants |
| FileTrees.CreateStep | fs/inode.c:72-138 | create_block gives the place a zone or the device is full; the invariant holds either way, no byte of any file changes, and only that place and empty index places above it change |
| FileTrees.CreateBlockLeavesOthers | fs/inode.c:72-138 | create_block for a block leaves the zone of every other block of every file as it was |
| FileTrees.NewBlockStep | fs/bitmap.c:75-105 | a new zone is that of the first clear bit, was unused, is marked used and is no tree's; on failure every zone is used |
| FileTruncate.TruncateStep | fs/truncate.c:47-64 | after truncate used bits are those of the other trees, and the other trees and bytes are unchanged |
| FileModel.PathOfInjective | fs/inode.c:72-138 | different block numbers have different places in the 7/512/512*512 tree |
| FileTrees.Layout | fs/inode.c:72-138 | where a block's zone number stands on the disk: the first seven in the inode, 512 in the block of the eighth number, the rest in the 512 blocks named in the block of the ninth, as little-endian 16-bit words |
| ConsoleProofs.MovingOriginIsCopying | kernel/chr_drv/console.c:107-168 | for every byte stream the moving-origin driver and the copying driver that show the same screen keep showing the same |
| ConsoleProofs.StreamShows | kernel/chr_drv/console.c:445-605 | con_write on video memory shows what a plain terminal of rows shows, for every byte stream, and keeps the driver's invariant |
| ConsoleProofs.WriteShows | kernel/chr_drv/console.c:445-605 | one byte does to the screen what it does to the plain terminal, whatever the parser state |
| ConsoleProofs.ScrollUpShows | kernel/chr_drv/console.c:107-168 | scrolling up moves the rows of the region up by one and clears the last, by either method, at the end of video memory too |
| ConsoleProofs.ScrollDownShows | kernel/chr_drv/console.c:170-202 | scrolling down moves the rows of the region down by one and clears the first |
| ConsoleProofs.EditShows | kernel/chr_drv/console.c:336-389 | inserting and deleting characters and lines are what they are on rows |
| ConsoleProofs.EraseDisplayShows | kernel/chr_drv/console.c:239-266 | csi_J erases the cells before or after the cursor in reading order, or all |
| ConsoleProofs.EraseLineShows | kernel/chr_drv/console.c:268-297 | csi_K erases the part of the row before or after the cursor, or all of it |
| ConsoleProofs.TabShows | kernel/chr_drv/console.c:480-489 | a tab goes to the next multiple of eight, wrapping to the next line |
| ConsoleProofs.PutShows | kernel/chr_drv/console.c:455-466 | a character wraps first when the cursor is past the last column, and then goes where the cursor is |
| ConsoleProofs.ExecVisible | kernel/chr_drv/console.c:445-605 | no command writes a cell outside the visible window |
| ConsoleProofs.SavingDependsOnTheColumn | kernel/chr_drv/console.c:493-509 | ESC 7 and ESC 8 do not save and restore the cursor: whether that happens depends on the column alone |
| ConsoleLanguage.EveryStreamMeans | kernel/chr_drv/console.c:445-605 | every byte stream is characters, escape sequences and perhaps the beginning of one more, and video memory ends up showing what they mean one after the other, said without the parser |
| ConsoleLanguage.StreamMeans | kernel/chr_drv/console.c:445-605 | the same for the plain terminal, for every way to write a stream as tokens |
| ConsoleLanguage.TokenShows | kernel/chr_drv/console.c:453-602 | a character, an ESC sequence or a control sequence with up to 16 decimal parameters does to the screen what is written down for it, and leaves the parser between sequences |
| ConsoleLanguage.FinalMeans | kernel/chr_drv/console.c:525-601 | each final byte of a control sequence does what is written down for it, for all parameters |
| ConsoleLanguage.ShowParams | kernel/chr_drv/console.c:510-524 | digits and semicolons are read as the numbers they stand for, in 32-bit words |
| ConsoleLanguage.AttrColour | kernel/chr_drv/console.c:299-311 | csi_m ends in the attribute that its last meaningful parameter names |
| ConsoleLanguage.CursorKeys | kernel/chr_drv/console.c:532-547 | ESC [ n A, B, C, D with n in decimal move the cursor n rows up or down or n columns right or left, 0 counting as 1, and leave it where that is off the screen |
| ConsoleLanguage.DecimalReadsBack | kernel/chr_drv/console.c:521-523 | a number written in decimal reads back as itself |
| ConsoleScreen.ReadingOrder | kernel/chr_drv/console.c:239-266 | cells stand in video memory in reading order |
| ConsoleScreen.RegionFits | kernel/chr_drv/console.c:586-594 | the parser never yields an empty or oversized scroll region |
| Console.Vt.ConWrite | kernel/chr_drv/console.c:445-605 | con_write on the array is the model, shows the plain terminal's screen, and does what the stream means as tokens |
| Console.Vt.Scrup | kernel/chr_drv/console.c:107-168 | both scroll loops leave video memory as the model says |
| Console.Vt.Scrdown | kernel/chr_drv/console.c:170-202 | the backward copy leaves video memory as the model says |
| Console.Vt.InsertCharacter | kernel/chr_drv/console.c:336-348 | the shifting loop is a move of the rest of the row by a cell |
| Console.Vt.DeleteCharacter | kernel/chr_drv/console.c:363-376 | the shifting loop is a move of the rest of the row back by a cell |
| Console.Vt.SetAttributes | kernel/chr_drv/console.c:299-311 | the loop over parameters is the model's attribute, which AttrColour reads |
| Malloc.Allocator.Malloc | lib/malloc.c:117-173 | malloc returns an object that was not allocated, of the smallest of the sizes 16 to 4096 bytes that fits, all others staying allocated, and writes only to free words; it takes no page when an object of that size is free, else one for the objects and, without a spare descriptor, one for descriptors, and fails only when these are not to be had |
| Malloc.Allocator.Free | lib/malloc.c:182-231 | free_s takes exactly that object off the allocated ones, writes only its first word, and gives its page back exactly when nothing else on the page is allocated |
| Malloc.Allocator.InitBucketDesc | lib/malloc.c:97-115 | a page of descriptors joins the spare ones and no object is touched |
| Malloc.Allocator.constructor | lib/malloc.c:92-95 | at first no object is allocated and the invariant holds |
| MallocModel.LiveDisjoint | lib/malloc.c:117-173 | different allocated objects share no word |
| MallocModel.LinkNotLive | lib/malloc.c:159-164 | the words that hold free-list links lie in no allocated object |
| MallocModel.ClientStore | lib/malloc.c:117-173 | a client's store into its object keeps the whole heap right |
| MallocSteps.EmptyPage | lib/malloc.c:207-228 | refcnt is 0 exactly when no object of the page is allocated |
| MallocSteps.TakeStep | lib/malloc.c:168-170 | taking the head of a free list allocates that object and no other |
| MallocSteps.PutStep | lib/malloc.c:204-207 | putting an object on its page's free list frees that object and no other |
| MallocSteps.FreshList | lib/malloc.c:156-164 | the free list threaded through a new page is all its slots, each once |
| MallocSteps.DropStep | lib/malloc.c:208-228 | a bucket without objects leaves its chain and joins the spare descriptors |
| Exec.BuildArguments | fs/exec.c:183-335 | the round trip: following argc and the two tables on its stack a binary finds exactly argv and envp; a script's interpreter finds its name, its argument if the first line has one, the file name, argv[1..] and envp; with an empty argv the file name slips into the environment |
| Exec.ReadHeader | fs/exec.c:226-257 | the scan of the first line in its buffer yields what the first block says; a file is a script exactly when it starts with #! |
| ExecModel.BangParts | fs/exec.c:236-257 | there is an interpreter unless no newline comes in time or only blanks and tabs come before it; its parts make up the line, the interpreter has no blank or tab, the name is what follows its last slash, and all are strings without newline |
| ExecModel.CountIsRight | fs/exec.c:262-281 | argc is the length of the vector if and only if the file is no script or argv is not empty |
| ExecModel.VectorStrings | fs/exec.c:262-281 | whatever the first block holds, what is spliced in are zero-free strings |
| ExecModel.ScriptVector | fs/exec.c:262-281 | what is spliced in front of argv[1..] is, in order, the interpreter's name, its argument if any, and the file name |
| Exec.ArgPages.CopyStrings | fs/exec.c:104-152 | copy_strings packs the strings below p in order, across pages, and leaves the rest of the area alone; it fails only without a free page |
| Exec.CopyArguments | fs/exec.c:262-318 | all the copies together pack the vector and then the environment at the end of the area |
| Exec.UserMemory.CreateTables | fs/exec.c:46-70 | create_tables puts argc, two pointers and two tables on the stack that read back as the packed strings |
| Exec.UserMemory.TakePages | fs/exec.c:169-177 | argument page j of the 32 comes to lie 32 - j pages before the end of the data segment, and a missing one reads as zeros |
| ExecModel.PackedString | fs/exec.c:46-70 | a string of a packed area is what its address reads as |
| ExecModel.TableThere | fs/exec.c:46-70 | a table of addresses and a null pointer reads as the strings at those addresses |
| SleepQueue.NoLostSleeper | kernel/sched.c:165-179 | every sleeping task is reached from the queue head or from a woken task by following saved pointers |
| SleepQueue.EveryoneIsReached | kernel/sched.c:165-208 | a sleeper n links behind a woken task is woken once the front of the chain has been scheduled n times |
| SleepQueue.WakeStartsAChain | kernel/sched.c:202-208 | wake_up wakes the head, and everybody queued behind it stays behind it |
| SleepQueue.FrontPassesOn | kernel/sched.c:177-178 | a woken task that goes on wakes the next, one link closer to everybody behind it |
| SleepQueue.ChainKept | kernel/sched.c:165-208 | newcomers and wake-ups leave the chain behind a task as it was |
| SleepQueue.StepKeepsInv | kernel/sched.c:165-208 | sleeping, waking and going on keep every sleeper pointed at |
| SleepQueue.EmptyQueue | kernel/sched.c:165-179 | an empty queue meets the invariant |
| SleepQueue.WaitQueue.SleepOn | kernel/sched.c:165-176 | sleep_on up to schedule(), on the task states |
| SleepQueue.WaitQueue.GoOn | kernel/sched.c:177-179 | sleep_on after schedule() |
| SleepQueue.WaitQueue.WakeUp | kernel/sched.c:202-208 | wake_up on the task states |
| Timers.NeverEarly | kernel/sched.c:286-343 | over every run of new timers, ticks and functions that set further timers, at once or later, no timer fires before its delay is over |
| Timers.InsertMeaning | kernel/sched.c:286-317 | a new timer is due when asked; the others keep their order; those before it are due when they were, those after it later by the new entry's own delta |
| Timers.FiresOnTime | kernel/sched.c:333-343 | left alone, the head fires on exactly the tick it counts to |
| Timers.TickGood | kernel/sched.c:333-343 | a tick fires the head exactly when its count runs out, and nothing else |
| Timers.TimerList.AddTimer | kernel/sched.c:286-317 | the swaps down the list are the model's insertion; without a delay the function is called at once |
| Timers.TimerList.DoTimer | kernel/sched.c:333-343 | a tick on the list, which loses no slot |
| Scheduler.ScheduleMeaning | kernel/sched.c:109-155 | schedule picks the last runnable task of greatest counter, and task 0 only when none is runnable; before that, exactly when all runnable tasks have none left, every task above 0, asleep or not, gets half of what it had and its priority on top |
| Scheduler.ScanMeaning | kernel/sched.c:132-144 | one scan finds the greatest counter of a runnable task, in the last slot that has it, or that there is none |
| Scheduler.RechargeComes | kernel/sched.c:109-155 | while nobody forks, at most as many ticks are charged before the next recharge as the counters add up to, which is less than 126 times the greatest priority |
| Scheduler.StepInv | kernel/sched.c:109-155 | counters stay below twice the greatest priority ever held |
| Scheduler.StepLeft | kernel/sched.c:349-352 | without fork or recharge the counters lose one for every charged tick, what an exiting task had, and nothing else |
| Scheduler.SleeperSaves | kernel/sched.c:144-153 | over every run, a task that sleeps through n recharges has its distance to twice its priority halved, rounding up, n times |
| Scheduler.GapCloses | kernel/sched.c:144-153 | that distance only shrinks, never to nothing, and reaches one |
| Scheduler.OtherSteps | kernel/sched.c:395-400 | sys_nice keeps priorities positive and counters as they are; a child starts with its parent's priority as its counter |
| Scheduler.TaskTable.Schedule | kernel/sched.c:109-155 | schedule's loop ends after at most two scans |
| Scheduler.TaskTable.DoTimer | kernel/sched.c:349-352 | a tick takes one from the current task's counter unless it is used up; in user mode, once it is, schedule chooses |
| Pipe.FirstInFirstOut | fs/pipe.c:13-69 | over every run of readers and writers what was taken out is a prefix of what was put in, and the difference is exactly PIPE_SIZE, at most 4095 |
| Pipe.PutAppends | fs/pipe.c:54-67 | a chunk written appends its bytes; no room means a full pipe |
| Pipe.GetTakes | fs/pipe.c:24-37 | a chunk read takes the first bytes; nothing available means an empty pipe |
| Pipe.Inode.WritePipe | fs/pipe.c:41-69 | a write appends the bytes it wrote, and stops short only at a full pipe |
| Pipe.Inode.ReadPipe | fs/pipe.c:13-39 | a read returns the first bytes, and stops short only at an empty pipe |
| LinkProofs.LinksCounted | fs/namei.c:388-806 | after every sequence of calls each inode's i_nlinks is the number of live entries that name it, and no directory has two live entries with one name |
| LinkProofs.PerformKeeps | fs/namei.c:388-806 | every call keeps link counts, unique names and the tree of directories |
| LinkProofs.FreshRoot | fs/namei.c:539-545 | a root directory that names itself twice is a start |
| LinkNames.LookupMeaning | fs/namei.c:94-156 | find_entry finds the one inode a directory has under the name cut to 14 bytes, or there is none; ".." of the root is "." |
| LinkNames.CreateMeaning | fs/namei.c:388-419 | creating succeeds if and only if the name is absent, an inode is free, and the directory has an unused entry, or its entries do not fill its blocks, or one more block can be had; then just that name stands for the lowest free inode, in the first unused entry if there is one |
| LinkNames.MkdirMeaning | fs/namei.c:491-566 | mkdir succeeds if and only if also a block is free, and panics when only the room for an entry is missing; the new directory has "." and ".." and two links, its parent one more |
| LinkNames.RmdirMeaning | fs/namei.c:615-689 | rmdir succeeds if and only if the name stands for another directory, not in use, with nothing but "." and ".."; then just that name and directory go |
| LinkNames.UnlinkMeaning | fs/namei.c:691-747 | unlink succeeds if and only if the name stands for a file; just that name goes, and the file when it was the last one and nobody has it open |
| LinkNames.LinkMeaning | fs/namei.c:749-806 | link succeeds if and only if the inode is a file, the name absent, and an unused entry, an unfilled block or one more block can take it; then just that name stands for the file |
| LinkNames.LinkUndone | fs/namei.c:691-806 | unlink undoes link: the same names, inodes and link counts |
| LinkNames.MkdirUndone | fs/namei.c:491-689 | rmdir undoes mkdir: the same names, inodes and link counts |
| LinkModel.MatchMeaning | fs/namei.c:66-81 | match compares whole 14-byte names, although it looks at no byte after the first zero |
| LinkModel.PaddedMeaning | fs/namei.c:168-213 | a stored name is the first 14 bytes of the name, filled up with zeros |
| LinkModel.TakesMeaning | fs/namei.c:185-220 | add_entry succeeds if and only if there is an unused entry, room in a block, or one more block |
| Namei.InodeTable.FindEntry | fs/namei.c:94-156 | the loop over entries is the model's lookup |
| Namei.InodeTable.AddEntry | fs/namei.c:168-223 | the first unused entry or one more; failure if and only if all are used, they fill their blocks and no block can be had, or there is no first block |
| Namei.InodeTable.IsEmptyDir | fs/namei.c:571-613 | the loop of empty_dir |
| Namei.InodeTable.CreateFile | fs/namei.c:388-489 | the creating path of open_namei, and mknod, on the inode table |
| Namei.InodeTable.Mkdir | fs/namei.c:491-566 | sys_mkdir on the inode table |
| Namei.InodeTable.Rmdir | fs/namei.c:615-689 | sys_rmdir on the inode table, with the final iput |
| Namei.InodeTable.Unlink | fs/namei.c:691-747 | sys_unlink on the inode table, with the final iput |
| Namei.InodeTable.Link | fs/namei.c:749-806 | sys_link on the inode table |

## Left out

Paging:
- The TLB, segment limits within a page, and writes of task 0, which runs on the kernel's own tables.
- A fault and the access after it are one step, and so is loading a page, whose block reads may sleep.
- A program's pages are constant (a parameter, zeroed beyond end_data); whether its i_count allows sharing is a parameter of each step.
- do_execve and do_exit free the address space in one call over the data limit where the code makes two; code and data segments have one base.
- The argument pages of exec come in as pages that the kernel filled and put_page installs; how they are filled is the exec model.

Buffer cache and devices:
- I/O errors: the protocol's devices complete every request. RamDisk has end_request(0), outside the protocol.
- block_write's whole-block path, breada and READA/WRITEA, sys_sync, invalidate_buffers and disk changes, and sync_inodes inside sync_dev.
- free_block's path for a cached buffer that somebody else holds.
- A call that is still asleep when the schedule ends has not returned (Asleep); who is woken when is the sleep queue's model.
- The retry bookkeeping of the hard disk; its two sectors per request are the head's move to its second sector.
- A RAM disk request's byte offset fits a signed 32-bit word.

Files and directories:
- Files are read and written on one device without the buffer cache between; bitmap blocks are one sequence of bits.
- Blocks beyond 7 + 512 + 512 * 512, where the code panics, and freeing a zone that is free or out of range are preconditions.
- The inode bitmap and the inode cache: an inode that is free is None. Inodes of devices, i_count beyond the parameters open and busy, times and permissions.
- Path lookup, mount points and the sticky bit: a call is given its directory and name.
- The zones of directories: whether one more block could be had is the parameter room.
- 8-bit overflow of i_nlinks and b_count.

Console:
- Cells are counted instead of bytes, the column count is even and at least 8; cursor registers, replies to the host and the beep, and the tty queue, of which con_write takes its bytes in order.

Kernel malloc and exec:
- Addresses and sizes are counted in 4-byte words; an interrupt between malloc's steps. A failed malloc stands for the panic.
- The checks of permissions and of the a.out header; the interpreter of a script is not itself looked up.
- The total size of the strings fits the area, because the code's own test of it is on an unsigned number (fs/exec.c:128).

Scheduling:
- interruptible_sleep_on, which can drop a waiter; alarms and signals in schedule; execution times.
- Functions called by add_timer at once may nest up to any depth, the parameter of the run; that a slot is free is a precondition, where the code panics.
- SIGPIPE and the number of readers and writers of a pipe; copying to and from user memory does not sleep.
