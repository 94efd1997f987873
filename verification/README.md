# Comus kernel: a verified model

Comus is a small x86-64 kernel written in C. This project models its most stateful parts in Dafny 4.11 and
proves what they keep, restore and return over all inputs and all runs. Nothing here is executed; the claims are
what the verifier establishes. `dafny verify dfyconfig.toml` checks the whole project.

The parts, and the modules that hold them:

* **Processes** (`ProcSpec`, `ProcQueueLaws`, `ProcInv`, `ProcSteps`, `ProcForkKill`, `ProcRuns`, `ProcExamples`,
  `ProcFairness`, `ProcTrace`, `ProcFates`, `ProcTheorems`, `ProcEffects`, `ProcDeaths`, `ProcTurns`, `ProcLinks`,
  `ProcKernel`). `ProcSpec` gives every system call and the timer tick as a function on a value: the process table,
  the 27 queues as sequences, the running process, the pid counter and the clock. `Inv` is the system invariant: every entry of the table is in
  exactly the queue its state names, queues are sorted and without repetition, at most one process runs, and every
  process but init has a living parent with a smaller pid. `Safe` is a condition on the state before a step.
  The central result is `StepExact`: from a good state a step completes without panic and ends in a good state *if
  and only if* it is safe. `ProcEffects`, `ProcDeaths` and `ProcTurns` say what every step does to every process, in
  terms of the table before it: results of calls, who returns from waitpid, who runs next and for how long.
  `ProcKernel.Kernel` is the C code over arrays with head, tail and next links, proved to
  compute the functions of `ProcSpec` and to keep the links in order.
* **Virtual address allocator** (`VirtSpec`, `VirtList`, `VirtAlloc`, `VirtGrow`). `VirtCtx` is the doubly linked
  list of intervals in a node pool, split and merged in place. `VirtSpec` relates the sequence of intervals to a
  plain set of free addresses. `VirtGrow` is the relocation of list nodes when the pool grows.
* **Page tables** (`PageSpec`, `PageRights`, `Paging`, `PageClone`). Physical frames are a map from frame number to 512 entries;
  every access goes through a window slot that maps one frame at a time, as in the code, so that a slot remapped too
  early would read or write another frame. `Tree` says that no table is reached along two paths. The rights of a page
  are the bits that every entry on its path has.
* **Run-length codec** (`RunLength`), **number printing and parsing** (`Numbers`, `NumberForms`) and **disk reads** (`Disks`).
* **ustar archives** (`Tar`, `TarFind`, `TarArchive`, `TarRead`). `Tar` is the format, `TarFind` the search over any
  disk as the sectors it visits, `TarArchive` what that search finds on an archive, and `TarRead` reading.

`Base` holds the machine words and a few facts that they share.

How the C code appears in the model:

* A pointer to an entry of a static array is its index, NULL is -1. The `next` field of a PCB is kept in an array
  of its own beside the table.
* A failed assertion, a panic, or a fault inside the kernel is the outcome `Panic`, or `ok == false` of a method.
* One system call, one tick or one pass of the idle dispatcher is one atomic step.
* Three functions of one shape are one member with a parameter: the `find_prev_*` functions (over the key), the
  `*_locate`, `*_alloc` and `*_clone` functions (over the level), the instances of `UXTOA`, `STRTOUX`, `XTOA` and
  `STRTOX` (over the width of the type).
* 64-bit time, 16-bit pids, 32-bit lengths and sector offsets, and the sign and width of the number types wrap as they
  do in C wherever that can be observed.

What turned out not to hold, with the exact condition:

* A `waitpid` that finds its zombie at once frees the PCB while it stays in the zombie queue, and faults on a
  NULL status pointer (`WaitExact`, `UnsafeReap`).
* A process that dies leaving a zombie child takes init off the waitpid queue even if init waits for another pid
  (`ZombifyStrands`, `UnsafeStrand`).
* A `fork` whose address space cannot be cloned leaves a PCB in no queue, and the fork that issues pid 65535 wraps
  the counter (`ForkBreaks`, `UnsafeAlone`).
* A sleeper is not woken early unless its wake-up time overflows the clock and the clock is not at its last value
  (`NeverWokenEarly`, `WrapWakesAtOnce`, `LongSleepShort`).
* A failed `mem_alloc_pages_at` gives the range back if and only if the address is page aligned, and for zero pages
  it frees an interval it did not take (`MemAllocPagesAt`, `UnalignedStays`, `NothingFrees`).
* `virtaddr_free` returns the number of pages freed if and only if they are less than 2 GiB (`PagesExact`,
  `PagesLost`, `FreeRest`).
* A failed `map_pages` unmaps from the page it had reached, not from the first (`MapPages`), and `page_free` never
  returns a frame (`PageFree`).
* `virtaddr_init` passes bytes where `virtaddr_take` expects pages; their length fits an int if and only if the kernel
  image ends by 508 KiB, so never for an image linked at 1 MiB (`InitOverflows`).
* Cloning an address space succeeds if and only if there are as many frames as it has tables and private pages, and no
  page maps frame 0, whose copy looks like a failure (`PgdirClone`, `ZeroUncloned`).
* deflate drops a last run whose length is a multiple of 255 (`RoundTrip`, `LostRun`).
* The smallest signed number does not survive printing and parsing; every other number does (`SignedRoundTrip`).
  With radix 0 a lone `0` is taken for an octal prefix without digits (`LoneZero`); every other form is read to its
  end (`ReadsForm`).
* The count that `disk_read` and `tar_read` return is right if and only if it is below 2^31, as is the offset that
  `tar_seek` returns; a longer read moves the file offset backwards (`RdCount`, `ReadsBackwards`, `Seek`). An ATA read
  of more than 65535 sectors fetches fewer sectors, fills up with what the sector buffer held before, and still reports
  the whole length (`ReadAta`, `ReachableIff`, `ReadsPart`). The error codes of `disk_read` come back as small positive
  numbers, although its comment promises negative ones.
* `find_file` ends if and only if it stops within 2^23 headers, because header offsets repeat every 4 GiB (`EndsIff`). On
  an archive it keeps to the entries if and only if those on the way lie below 4 GiB and those passed over store what
  their size fields say (`TracksIff`); a directory with a size makes it miss the file after it, and a file that ends at
  4 GiB makes it run for ever (`DirectoryDerails`, `LongFileLoops`).
* Where it keeps to the entries, `find_file` returns the first file of a path if and only if no entry up to it begins with
  another text than its path and is looked for under one of the two: the prefix field is not looked at, and a name of
  100 bytes runs on into the mode (`FindTheorem`, `FindIff`, `ShortName`, `LongName`, `LongNameMissed`, `PrefixIgnored`).
  What is then read is the file's contents if and only if the entry stores what its size field says (`ReadTheorem`).

## Model

| member | source | states |
|---|---|---|
| ProcQueueLaws.RankSplits | kernel/procs.c:41-84 | the search for the predecessor stops after exactly the members whose key is not above the new one: all before the place have keys at most the key, the one at the place has a larger key |
| ProcQueueLaws.InsertSorted | kernel/procs.c:316-369 | for each of the orderings insertion keeps the queue sorted and is stable: the newcomer goes after every member whose key is not above its own and before every other, and nobody else changes place |
| ProcQueueLaws.FifoAppends | kernel/procs.c:316-369 | insertion into a FIFO queue appends |
| ProcQueueLaws.SpliceMembers | kernel/procs.c:316-369 | insertion adds exactly the new member and brings no repetition |
| ProcQueueLaws.RemoveMembers | kernel/procs.c:390-451 | removal takes out exactly the named member, in place; the others stay as they are |
| ProcInv.ZombifyKeeps | kernel/procs.c:146-241 | unless init would be stranded, turning a living process other than init into a zombie trips no assertion, keeps the invariant, and either files the victim as a zombie or hands it to its waiting parent |
| ProcInv.ZombifyStrands | kernel/procs.c:183-209 | if init waits for one pid and the zombie left behind is another, init leaves the waitpid queue while still blocked, or the kernel panics |
| ProcInv.ZombieChildless | kernel/procs.c:155-181 | no live process has a zombie as parent |
| ProcInv.DispatchKeeps | kernel/procs.c:478-500 | dispatch keeps the invariant and its assertions hold |
| ProcSteps.DuePrefixLongest | kernel/procs.c:502-525 | the number of sleepers woken is the length of the longest prefix of the sleep queue that is entirely due |
| ProcSteps.WakeKeeps | kernel/procs.c:502-525 | waking them keeps the invariant, and only they change |
| ProcSteps.TickKeeps | kernel/procs.c:502-536 | every tick keeps the invariant and panics never |
| ProcSteps.ExitExact | kernel/syscall.c:39-48 | exit keeps the invariant without panic if and only if the caller is not init and strands nobody |
| ProcSteps.WaitExact | kernel/syscall.c:50-87 | waitpid keeps the invariant if and only if no matching zombie exists at the time of the call |
| ProcSteps.SleepKeeps | kernel/syscall.c:347-368 | sleep, with zero or any other duration, keeps the invariant |
| ProcSteps.SetprioKeeps | kernel/syscall.c:280-288 | setprio keeps the invariant, so it never unsorts the ready queue |
| ProcSteps.ExecKeeps | kernel/syscall.c:103-143 | exec keeps the invariant and never panics, whether the program is loaded or not |
| ProcForkKill.ForkKeeps | kernel/syscall.c:89-101 | fork keeps the invariant when the table is full, or the address space is cloned and the pid counter does not wrap |
| ProcForkKill.ForkBreaks | kernel/user.c:307-336 | in every other case fork panics or breaks the invariant |
| ProcForkKill.PathDescends | kernel/syscall.c:295-310 | climbing parent links meets only live processes with ever smaller pids, so the climb ends |
| ProcForkKill.OwnedMeans | kernel/syscall.c:295-310 | the walk accepts exactly the caller and its descendants; only init reaches init |
| ProcForkKill.KillExact | kernel/syscall.c:290-345 | kill keeps the invariant if and only if the victim is missing, not owned, already a zombie, or may die |
| ProcRuns.StepExact | kernel/syscall.c:612-646 | any step from a good state completes without panic in a good state if and only if it is safe, a condition on the state before the step |
| ProcRuns.BootInv | kernel/main.c:25-61 | the state after init has been scheduled satisfies the invariant |
| ProcRuns.RunInv | kernel/procs.c:115-241 | in every state of every run of safe steps the invariant holds and no safe step can panic |
| ProcRuns.Conservation | kernel/procs.c:115-144 | the lengths of all queues plus the running process total the size of the process table |
| ProcRuns.QueueOrders | kernel/procs.c:93-113 | in a good state the ready queue is ordered by priority value, the zombies and those who wait by pid |
| ProcExamples.UnsafeAlone | kernel/user.c:307-336 | concrete good states in which exit of init, fork without a clone, and the fork issuing pid 65535 go wrong |
| ProcExamples.UnsafeReap | kernel/syscall.c:56-77 | a concrete good state in which a waitpid with a valid status pointer that reaps at once breaks the invariant |
| ProcExamples.UnsafeStrand | kernel/procs.c:183-209 | a concrete good state in which an exit strands init |
| ProcExamples.LongSleepShort | kernel/syscall.c:347-368 | a concrete good state and safe call in which the longest sleep ends with the next tick |
| ProcFairness.Overtaking | kernel/procs.c:56-69 | on any sequence of arrivals, dispatches and withdrawals, a waiting process moves back only by arrivals with strictly smaller priority value, and every dispatch brings it one place forward |
| ProcFairness.MustLeave | kernel/procs.c:371-388 | after more dispatches than places ahead and urgent arrivals, the process itself was dispatched or withdrawn |
| ProcTrace.RunTraced | kernel/procs.c:463-500 | over every run the ready queue is what replaying the logged arrivals, dispatches and withdrawals gives |
| ProcTrace.BoundedOvertaking | kernel/procs.c:463-500 | over every run, a ready process with k others ahead is dispatched or killed before more than k dispatches, not counting those made up for by more urgent arrivals |
| ProcTrace.PlaceInQueue | kernel/procs.c:316-388 | while nothing concerns it, a ready process stays ready and its place is bounded by the same account |
| ProcTheorems.TickWakes | kernel/procs.c:502-525 | a blocked process becomes runnable on a tick if and only if it is in the longest due prefix of the sleep queue; otherwise it does not change |
| ProcTheorems.WaitpidReturns | kernel/procs.c:183-241 | a process blocked in waitpid stays blocked, dies, or returns with the pid and status of a process that is its child at that moment and matches the request, and whose PCB enters the free list then and not before |
| ProcTheorems.SleeperFate | kernel/procs.c:502-525 | a sleeper sleeps on with the same wake-up time, is made runnable by a tick past that time, or dies |
| ProcTheorems.NeverWokenEarly | kernel/syscall.c:347-368 | over every run a process that sleeps for ms ticks is not runnable before more than ms ticks have passed, if the wake-up time fits the clock or the clock is at its last value |
| ProcTheorems.WrapWakesAtOnce | kernel/syscall.c:347-368 | in every other case the next tick wakes the sleeper at the head of the queue |
| ProcTheorems.KillEnds | kernel/syscall.c:290-345 | kill ends the life of a process if and only if it has that pid and is the caller or a descendant; nobody else dies |
| ProcTheorems.ForkMakes | kernel/user.c:307-336 | a successful fork turns the first free entry into a ready child of the caller with an unused pid and the caller's priority; the caller gets the pid, the child 0, and no other process changes |
| ProcEffects.ResumeElects | kernel/procs.c:478-500 | an idle processor goes to the head of the ready queue, which becomes running with three ticks and in no call; with an empty queue nothing changes |
| ProcEffects.TickElects | kernel/procs.c:502-536 | a tick wakes exactly the sleepers that are due; a running process with more than one tick left goes on with one less; with its last tick gone it is ready, and the head of the queue with it inserted runs |
| ProcEffects.OtherAnswers | kernel/syscall.c:612-646 | a call that only computes a result puts it into the caller's register and changes nothing else |
| ProcEffects.SetprioAnswers | kernel/syscall.c:280-288 | setprio returns the old priority and sets the new one, cut to 32 bits; nothing else changes |
| ProcEffects.ExecAnswers | kernel/syscall.c:103-143 | exec returns 1 and changes nothing if the program is not loaded; otherwise the caller is ready with the new registers, and the head of the queue runs |
| ProcEffects.SleepElects | kernel/syscall.c:347-368 | sleep(0) makes the caller ready behind its equals; any other sleep blocks it with the wake-up time in 64 bits; then the head of the queue runs |
| ProcEffects.WaitElects | kernel/syscall.c:50-87 | without a zombie child that matches, the caller blocks with its request, and the head of the queue runs |
| ProcEffects.WaitReaps | kernel/syscall.c:56-77 | with one, the call returns the pid and the status of the first in the table and frees its entry, and faults on a NULL pointer |
| ProcEffects.ForkAnswers | kernel/syscall.c:89-101 | fork returns -1 if and only if no entry is free or the address space is not cloned; otherwise the whole new table: the child with all its fields, the caller with the child's pid, everybody else as before |
| ProcDeaths.ExitElects | kernel/syscall.c:39-48 | exit and a call number out of range end the caller: the whole new table, who becomes ready in which order, and who runs next |
| ProcDeaths.KillSpares | kernel/syscall.c:290-315 | kill of a pid that names neither the caller nor a descendant returns 1, of one that is a zombie 0, and nothing else changes |
| ProcDeaths.KillSelf | kernel/syscall.c:331-337 | kill of oneself is an exit with status 1 |
| ProcDeaths.KillOther | kernel/syscall.c:312-329 | kill of a living descendant: the whole new table, the ready queue, and the caller goes on with 0 |
| ProcDeaths.KillResult | kernel/syscall.c:290-345 | in every kill that completes and does not name the caller, the result is 1 if and only if it names nobody below the caller, and 0 otherwise |
| ProcDeaths.DeathServes | kernel/procs.c:211-241 | when a process dies, its parent returns from waitpid with its pid and status and its entry is freed, if and only if the parent is blocked in waitpid for that pid or for any child; otherwise a blocked parent does not change and the process is a zombie |
| ProcDeaths.DeathInherits | kernel/procs.c:183-209 | a waiting init returns with the zombie of the highest index that it inherits, whose entry is freed |
| ProcDeaths.DeathReparents | kernel/procs.c:155-181 | exactly the children of the dead process get init as parent |
| ProcDeaths.StrandsMeans | kernel/procs.c:183-209 | a death strands init if and only if init waits for one pid, and the zombie it inherits has another |
| ProcTurns.StepTurns | kernel/procs.c:478-500 | every step gives the processor to the head of the ready queue or leaves it where it is, and which of the two is read off the state and the event |
| ProcTurns.Handover | kernel/procs.c:478-500 | after a step that gives the processor away nobody runs if and only if nobody was ready and nobody became so; otherwise exactly one process is dispatched, with three ticks, and nobody left in the queue has a smaller priority value |
| ProcTurns.TurnComes | kernel/procs.c:463-500 | over every run, a ready process with k others ahead has its turn or dies before the processor is given away more than k times, not counting more urgent arrivals |
| ProcTurns.TimeSlice | kernel/procs.c:527-535 | over every run, a process that is given the processor and makes no call loses it at exactly its third tick, and queues up behind whom that tick wakes |
| ProcLinks.SpliceChains | kernel/procs.c:316-369 | relinking for an insertion gives a chain for the new sequence, its tail the last node, and leaves every other queue's chain as it was |
| ProcLinks.CutChains | kernel/procs.c:390-451 | the same for a removal |
| ProcKernel.Kernel.FindPrev | kernel/procs.c:41-84 | returns the last member whose key is not above the new one's, or NULL |
| ProcKernel.Kernel.QueueInsert | kernel/procs.c:316-369 | refuses a linked PCB and changes nothing; otherwise links, head and tail are those of stable sorted insertion for all four orderings, and represent the queues again if the PCB was in no queue or belongs at the end of one it is not in |
| ProcKernel.Kernel.QueuePop | kernel/procs.c:371-388 | takes the first member, or reports an empty queue and changes nothing |
| ProcKernel.Kernel.FindLink | kernel/procs.c:390-451 | finds the named PCB and its predecessor, or NULL if the queue lacks it |
| ProcKernel.Kernel.QueueRemove | kernel/procs.c:390-451 | deletes exactly the named PCB, or reports empty or not found and changes nothing |
| ProcKernel.Kernel.QueuePeek | kernel/procs.c:453-461 | the first member or NULL |
| ProcKernel.Kernel.PcbAlloc | kernel/procs.c:115-128 | takes the first free entry, with the next pid in 16 bits, or reports that there is none and changes nothing |
| ProcKernel.Kernel.PcbFree | kernel/procs.c:130-144 | refines freeing on the abstract state |
| ProcKernel.Kernel.PcbSchedule | kernel/procs.c:463-476 | refines scheduling, with the panic for unused and zombie processes |
| ProcKernel.Kernel.PcbDispatch | kernel/procs.c:478-500 | refines dispatching |
| ProcKernel.Kernel.Reparent | kernel/procs.c:160-181 | every live child of the victim goes to init, and the last zombie among them is found |
| ProcKernel.Kernel.AdoptZombie | kernel/procs.c:183-209 | refines the hand-over of that zombie to init's pending waitpid, with its assertions |
| ProcKernel.Kernel.BuryVictim | kernel/procs.c:211-241 | refines waking the waiting parent, or filing the victim as a zombie |
| ProcKernel.Kernel.PcbZombify | kernel/procs.c:146-241 | refines zombify as a whole |
| ProcKernel.Kernel.Wake | kernel/procs.c:502-525 | the waking loop ends and refines waking the longest due prefix |
| ProcKernel.Kernel.TimerTick | kernel/cpu/idt.c:183-187 | refines the tick: clock, waking, and charging the running process |
| ProcKernel.Kernel.Charge | kernel/procs.c:527-535 | refines charging the running process a tick and preempting it at zero |
| ProcKernel.Kernel.SysExit | kernel/syscall.c:39-48 | refines exit |
| ProcKernel.Kernel.SysWaitpid | kernel/syscall.c:50-87 | refines waitpid on both paths, with the fault of a NULL status pointer; links stay in order on the blocking path |
| ProcKernel.Kernel.SysFork | kernel/syscall.c:89-101 | refines fork with its allocation and clone failures |
| ProcKernel.Kernel.SysSetprio | kernel/syscall.c:280-288 | refines setprio, its argument cut to 32 bits |
| ProcKernel.Kernel.SysSleep | kernel/syscall.c:347-368 | refines sleep |
| ProcKernel.Kernel.SysExec | kernel/syscall.c:103-143 | refines exec, loaded or not |
| ProcKernel.Kernel.PcbFindPid | kernel/procs.c:252-265 | the first live entry with that pid, or NULL |
| ProcKernel.Kernel.IsOwned | kernel/syscall.c:295-310 | the walk up the parents terminates and tells whether an ancestor has that pid |
| ProcKernel.Kernel.SysKill | kernel/syscall.c:290-345 | refines kill over all states of the victim |
| ProcKernel.Kernel.SyscallHandler | kernel/syscall.c:612-646 | refines every call; a safe call completes, keeps the invariant and leaves the links in order |
| ProcKernel.Kernel.PcbInit | kernel/procs.c:93-113 | puts every entry on the free list in table order |
| ProcKernel.Kernel.LoadInit | kernel/main.c:25-61 | ends in the boot state, which satisfies the invariant |
| VirtSpec.AllocLowest | kernel/memory/virtalloc.c:176-195 | the first fitting interval starts at the lowest address where that many free bytes fit, and there is none if and only if they fit nowhere |
| VirtSpec.TakeIffFree | kernel/memory/virtalloc.c:197-247 | take finds a place if and only if every address of the range is free |
| VirtSpec.TakeTiles | kernel/memory/virtalloc.c:197-247 | after take the intervals still tile the address space without gap, overlap, empty interval or two free neighbours, and the head is still the reserved one |
| VirtSpec.TakeFrees | kernel/memory/virtalloc.c:197-247 | take makes exactly the addresses of the range unavailable |
| VirtSpec.FreeTiles | kernel/memory/virtalloc.c:249-273 | the same tiling after free |
| VirtSpec.FreeFrees | kernel/memory/virtalloc.c:249-273 | free makes exactly the addresses of the freed interval available |
| VirtSpec.TakeThenFree | kernel/memory/virtalloc.c:197-273 | freeing the start of what was taken restores the very sequence of intervals |
| VirtSpec.FreeTwice | kernel/memory/virtalloc.c:249-273 | freeing a free interval changes nothing |
| VirtSpec.Canonical | kernel/memory/virtalloc.c:146-174 | the sequence of intervals is determined by the ranges taken, whatever the history |
| VirtSpec.TakeAdds | kernel/memory/virtalloc.c:197-247 | take adds one taken range |
| VirtSpec.FreeRemoves | kernel/memory/virtalloc.c:249-273 | free removes just that one |
| VirtAlloc.VirtCtx.constructor | kernel/memory/virtalloc.c:84-106 | a reserved prefix and one free rest, well linked, with one node counted |
| VirtAlloc.InitOverflows | kernel/memory/virtalloc.c:103-105 | the length to reserve at the start fits an int if and only if the image ends by 508 KiB, and is at least 4 GiB for an image that ends above 1 MiB |
| VirtAlloc.VirtCtx.GetNode | kernel/memory/virtalloc.c:43-76 | returns an unused node and marks and counts it; with room in the pool it never panics |
| VirtAlloc.VirtCtx.Take | kernel/memory/virtalloc.c:197-247 | cuts the range out of the first free interval that holds it, or fails and changes nothing; links, used marks and the counter stay in order |
| VirtAlloc.VirtCtx.MergeBack | kernel/memory/virtalloc.c:146-160 | swallows exactly the free predecessors and keeps the links, marks, counter and head in order |
| VirtAlloc.VirtCtx.MergeForward | kernel/memory/virtalloc.c:162-174 | the same for the free successors |
| VirtAlloc.VirtCtx.Free | kernel/memory/virtalloc.c:249-273 | frees and coalesces the interval that starts there and returns its pages computed in an int, or returns -1 and changes nothing; the counter never underflows |
| VirtAlloc.PagesExact | kernel/memory/virtalloc.c:263-264 | the pages computed in an int are the interval's if and only if its length is below 2^31 |
| VirtAlloc.PagesLost | kernel/memory/virtalloc.c:263-264 | an interval of 2^32 bytes counts as 0 pages, and the rest of the address space after its first page as -1 |
| VirtAlloc.VirtCtx.TakeFree | kernel/memory/virtalloc.c:197-273 | take succeeds if and only if the whole range is free, and freeing it then returns the number of pages taken and restores the intervals |
| VirtAlloc.FreeRest | kernel/memory/virtalloc.c:249-273 | a fresh context in which freeing the free rest returns the error code |
| VirtAlloc.VirtCtx.Alloc | kernel/memory/virtalloc.c:176-195 | the start of the first free interval that fits, or NULL |
| VirtAlloc.VirtCtx.MemAllocPagesAt | kernel/memory/paging.c:1037-1064 | on a failed mapping of at least one page the intervals are restored if and only if the address is page aligned; with no pages nothing is taken, but a failure still frees the interval that starts there |
| VirtAlloc.UnalignedStays | kernel/memory/paging.c:1037-1064 | a fresh context in which an unaligned page that cannot be mapped stays taken |
| VirtAlloc.NothingFrees | kernel/memory/paging.c:1037-1064 | a context in which failing to map zero pages frees a page that was taken before |
| VirtAlloc.VirtCtx.MemAllocPages | kernel/memory/paging.c:1023-1035 | on a failed mapping the intervals are as before although the range is freed twice |
| VirtGrow.MovedStrung | kernel/memory/virtalloc.c:30-35 | moving one node to a fresh place keeps a well-formed doubly linked list with the same intervals |
| VirtGrow.Arenas.UpdateNodePtrs | kernel/memory/virtalloc.c:19-41 | after the loop the list has the same intervals in the same order, no link leads into the old array, and in the new array exactly the list's nodes are marked used, for any interleaving of bootstrap and array nodes |
| PageSpec.PutElsewhere | kernel/memory/paging.c:272-373 | changing one entry leaves every path that does not run through it as it was |
| PageSpec.HangKeeps | kernel/memory/paging.c:290-302 | hanging a fresh empty table into an absent entry keeps the tree |
| PageSpec.HangTranslates | kernel/memory/paging.c:290-302 | and changes no page's translation |
| PageSpec.LeafKeeps | kernel/memory/paging.c:776-786 | writing a page-table entry keeps the tree and changes the translation of exactly that page |
| PageSpec.Digits | kernel/memory/paging.c:722-751 | the page number is its four indices in base 512, the top level first |
| PageSpec.PathInjective | kernel/memory/paging.c:722-751 | different pages use different index paths |
| PageSpec.PageOf | kernel/memory/paging.c:722-751 | every path of four indices belongs to a page |
| Paging.Mmu.MapAddr | kernel/memory/paging.c:150-167 | afterwards the slot maps the frame and every other slot what it mapped before |
| Paging.Mmu.Pml4Alloc | kernel/memory/paging.c:255-268 | a fresh top-level table is a tree that maps nothing |
| Paging.Mmu.TableLocate | kernel/memory/paging.c:188-249 | the table the entry refers to, or NULL; only the slot of its level is remapped |
| Paging.Mmu.TableAlloc | kernel/memory/paging.c:272-373 | the table at the next index, new or old: the tree and all translations are kept, the entry that leads there gains exactly the present bit and the flags that tables keep, only slots of the two levels are remapped, only tables of this tree and pool frames change, and it fails only when no frame is left |
| Paging.Mmu.PageAlloc | kernel/memory/paging.c:755-787 | a cleared entry for the page in the right table; every other page is as before, and of the upper-level entries exactly those on its path gain the flags |
| Paging.Mmu.PageLocate | kernel/memory/paging.c:722-751 | finds the entry if and only if the page is mapped, and slot 3 maps its table |
| Paging.Mmu.PageFree | kernel/memory/paging.c:790-807 | unmaps exactly that page and returns no frame to the pool |
| Paging.Mmu.UnmapPages | kernel/memory/paging.c:811-818 | unmaps exactly its range |
| Paging.Mmu.MapPages | kernel/memory/paging.c:820-839 | on success page k of the range maps frame k (in 40 bits) with those flags and every other page is as before, and of the upper-level entries exactly those that lead to the range gain the flags; on failure no frame is left, the pages before the failing one stay mapped and the next n are unmapped; the tree is kept throughout |
| Paging.Mmu.MemGetPhys | kernel/memory/paging.c:999-1011 | frame address plus offset in the page, or NULL exactly where nothing is mapped |
| Paging.MappedPhys | kernel/memory/paging.c:820-839 | after mapping, every byte of the range is found at the matching physical address |
| Paging.MappedRights | kernel/memory/paging.c:820-839 | after mapping, every page of the range has on all levels every bit of the flags that tables keep, and no other page loses a right |
| Paging.MapThenUnmap | kernel/memory/paging.c:811-839 | mapping unmapped pages and unmapping them leaves every translation as it was |
| Paging.Isolation | kernel/memory/paging.c:272-373 | changes to one address space leave every other with disjoint tables as it is, and the tables stay disjoint |
| PageClone.PageClone | kernel/memory/paging.c:512-532 | a kernel frame is shared, any other is copied into a fresh frame with equal contents; the table slots are not remapped |
| PageClone.TableClone | kernel/memory/paging.c:534-716 | the copy of a table with everything below it; all allocated frames belong to the copy, each at one place, and are as many as there are tables and private pages; only fresh frames change; slots of upper levels are not remapped; it fails only with too few frames or on a page that maps frame 0 |
| PageClone.EntryClone | kernel/memory/paging.c:550-572 | one entry: both tables are still in their slots after the recursion, and what is copied already is not disturbed |
| PageClone.NodeUnique | kernel/memory/paging.c:534-716 | no table or private frame of the copy is reached along two paths |
| PageClone.CloneWay | kernel/memory/paging.c:581-716 | every upper-level entry of the copy grants and forbids what that of the original does |
| PageClone.CloneTheorem | kernel/memory/paging.c:672-716 | the original translates as before, the copy is a tree with tables apart from the original's, maps exactly the same pages with the same flags and the same rights on all levels, shares kernel frames, and has for every other page a frame of its own with equal contents that is no table of the copy |
| PageClone.PgdirClone | kernel/memory/paging.c:895-898 | all of this for any address space that is a tree and whose frames are in use; it succeeds if and only if there are as many frames as tables and private pages and no page maps frame 0, and takes just so many |
| PageClone.ZeroUncloned | kernel/memory/paging.c:512-532 | for any set of free frames, an address space that cannot be copied: one of its pages maps frame 0 |
| RunLength.QuantisedClose | user/deflate.c:36-39 | quantising moves no byte by more than 1 |
| RunLength.QuantisedRuns | user/deflate.c:36-39 | a byte joins the run before it if and only if it is within 1 of its value; otherwise it begins a run of its own value |
| RunLength.LastRunLongest | user/deflate.c:41-48 | the open run is the longest constant end of the quantised input |
| RunLength.StreamReads | user/apple.c:38-53 | the bytes of any list of runs decode to exactly those runs |
| RunLength.Deflate | user/deflate.c:26-65 | what is written decodes to the quantised input, without its last run if that run's length is a multiple of 255, and consists of complete non-empty runs, none of which could be joined to the next |
| RunLength.MaximalUnique | user/deflate.c:50-57 | bytes can be cut into such runs in one way only |
| RunLength.WrittenIff | user/deflate.c:60-65 | everything is written if and only if the input is empty or its last run's length is no multiple of 255 |
| RunLength.LostRun | user/deflate.c:60-65 | 255 equal bytes are lost altogether |
| RunLength.Reader.ReadCount | user/apple.c:43-47 | reads a count to its end and sums it |
| RunLength.Reader.ReadByte | user/apple.c:38-53 | returns the first remaining byte and leaves the rest, skipping empty runs; a well-formed stream is used up to its last byte when nothing remains |
| RunLength.RoundTrip | user/apple.c:38-53 | reading back what deflate wrote gives the quantised input if and only if the last run is not dropped |
| RunLength.Inflate | user/inflate.c:26-38 | the bytes of the (length, value) pairs, or an error exactly for an odd number of bytes |
| RunLength.InflateAgrees | user/inflate.c:26-38 | where no count byte is 255, inflate and read_byte give the same bytes |
| RunLength.LongRunRejected | user/inflate.c:26-38 | a lone run of 255 to 509 bytes decodes with read_byte and is rejected by inflate |
| Numbers.ValueDigits | kernel/lib/uxtoa.c:12-14 | the digits written denote the number |
| Numbers.EmitDigits | kernel/lib/uxtoa.c:12-14 | writes the digits, the least significant first, and touches nothing else |
| Numbers.ReverseInPlace | kernel/lib/uxtoa.c:15-21 | reverses the range in place and touches nothing else |
| Numbers.Uxtoa | kernel/lib/uxtoa.c:3-23 | the printed form and its terminator, and the position of the terminator |
| Numbers.Xtoa | kernel/lib/xtoa.c:3-27 | the same with a sign; the smallest number, which has no negation, comes out as its negative remainders |
| Numbers.Strtoux | kernel/lib/strtoux.c:3-39 | the value of the longest run of digits after spaces and prefix, reduced to the type, and where it ends, or the start if there is no digit |
| Numbers.Strtox | kernel/lib/strtox.c:3-48 | the same with a sign, in two's complement |
| NumberForms.DigitChars | kernel/lib/ctoi.c:3-14 | exactly the decimal digits and the letters of both cases are digits in some radix |
| NumberForms.ReadsForm | kernel/lib/strtoux.c:3-39 | every number, in every radix, after any spaces, with the prefixes 0x, 0X and 0 where they apply and letters of either case, is read to its end |
| NumberForms.ReadsSignedForm | kernel/lib/strtox.c:3-48 | the same behind no sign, a plus or a minus |
| NumberForms.LoneZero | kernel/lib/strtoux.c:15-22 | with radix 0 a lone zero gives 0 with the end at the start |
| NumberForms.Spellings | kernel/lib/strtoux.c:3-39 | 0755 is such a form of 493 with radix 0, and FF of 255 in radix 16 |
| Numbers.UnsignedRoundTrip | kernel/lib/strtoux.c:3-39 | for every number and radix, parsing the printed form gives the number with the end at the terminator |
| Numbers.SignedRoundTrip | kernel/lib/strtox.c:3-48 | the same for signed numbers if and only if the number is not the smallest of its type, which is read as 0 with the end at the start |
| Disks.ReachableIff | kernel/fs/fs.c:144-156 | a read of that length fits the driver's sector count at every offset if and only if it is at most 65534 sectors and one byte |
| Disks.Disk.ReadRd | kernel/fs/fs.c:123-136 | copies the range, cut off at the end of the disk, touches nothing else, and returns the count cut to an int; beyond the end it returns the negated error code and copies nothing |
| Disks.Disk.RdCount | kernel/fs/fs.c:123-136 | for a range on the ramdisk the result is the count if and only if it is below 2^31 |
| Disks.Disk.RdTail | kernel/fs/fs.c:123-136 | a range that runs over the end is delivered up to the end, with that count |
| Disks.Disk.ReadSectors | kernel/drivers/ata.c:634-667 | whole sectors arrive, or a positive error code if one of them is not on the disk; the rest of the sector buffer keeps its bytes |
| Disks.Disk.GrowBuffer | kernel/fs/fs.c:148-152 | the sector buffer becomes long enough and keeps its bytes, or there is none and none is asked for |
| Disks.Disk.ReadAta | kernel/fs/fs.c:138-163 | the bytes of the sectors read arrive, all asked for unless the sector count is cut to 16 bits, and beyond them what the sector buffer held before; nothing else is touched, and the result is the length cut to an int; if a sector is not on the disk, or none is asked for before there is a buffer, a positive error code comes back and nothing is copied |
| Disks.Disk.Read | kernel/fs/fs.c:165-183 | one or the other, by the kind of disk |
| Disks.Disk.ReadsPart | kernel/fs/fs.c:138-163 | a read of 65536 k + j sectors returns j sectors and then what the sector buffer held before, and the whole length |
| Disks.Disk.PlainReads | kernel/fs/fs.c:123-183 | on either kind of disk, if nothing is cut off, a range that lies on the disk is copied exactly and its length returned, and less is returned otherwise |
| Tar.OneByteOff | kernel/fs/tar.c:54-58 | one wrong byte in magic or version, and the header is none |
| Tar.SizeReads | kernel/fs/tar.c:103-105 | a size field with any octal number, spaces before it and a zero or space after it is read back as that number |
| Tar.HitsStart | kernel/fs/tar.c:101 | a path matches if and only if it is the text at the start of the header, up to its first zero |
| Tar.ShortName | kernel/fs/tar.c:101 | with a name below 100 bytes that text is the name, and the search is misled if and only if there is a prefix and it looks for the path or the name alone |
| Tar.LongName | kernel/fs/tar.c:101 | with a name of 100 bytes and no prefix that text is the name and the fields after it, and the search is misled if and only if the mode is not empty and it looks for one of the two |
| Tar.FindIff | kernel/fs/tar.c:86-118 | the first match is the first file of that ustar path if and only if no entry up to it begins with a text other than its path, one of the two being looked for |
| Tar.LongNameMissed | kernel/fs/tar.c:101 | a file whose name fills all 100 bytes is never found |
| Tar.PrefixIgnored | kernel/fs/tar.c:101 | a file with a prefix is found under its name alone and not under its path |
| TarFind.HeadersRepeat | kernel/fs/tar.c:48-51 | the 32-bit header offset repeats every 4 GiB, and is right if and only if it is below that |
| TarFind.NoReturn | kernel/fs/tar.c:96-117 | until it stops, a search comes to no header twice |
| TarFind.EndsIff | kernel/fs/tar.c:96-117 | on any disk a search ends if and only if it stops within 2^23 headers |
| TarFind.ReadTarHeader | kernel/fs/tar.c:48-60 | succeeds if and only if a ustar header lies wholly on the disk there, and returns it |
| TarFind.NameMatches | kernel/lib/memcmp.c:3-9 | the byte-wise comparison of header and path with its terminator, for paths of any length, without leaving the header |
| TarFind.FindFile | kernel/fs/tar.c:86-118 | on any disk on which the search ends: it ends at the first sector visited that has no header or a matching one, fails in the first case and changes nothing, and returns sector and header in the second |
| TarArchive.StepsOver | kernel/fs/tar.c:103-105 | from one entry of an archive the walk comes to the next if and only if the entry stores what its size field says |
| TarArchive.TracksIff | kernel/fs/tar.c:96-117 | the sectors visited and offsets read are those of the entries if and only if all on the way lie below 4 GiB and all passed over store what their size fields say |
| TarArchive.SearchHalts | kernel/fs/tar.c:96-117 | such a search ends, at the first entry that matches or at the end of the archive |
| TarArchive.FindTheorem | kernel/fs/tar.c:86-118 | such a search returns the first entry that matches, with its sector and header, or fails if and only if none does; this is the right answer if and only if the archive misleads about the path nowhere up to it |
| TarArchive.DirectoryDerails | kernel/fs/tar.c:103-105 | an archive of a directory with a size and the file looked for, on which the search fails |
| TarArchive.LongFileLoops | kernel/fs/tar.c:96-117 | an archive of a file that ends at 4 GiB and the file looked for, on which the search never ends |
| TarRead.TarFile.Read | kernel/fs/tar.c:67-78 | asks for the bytes left or the length, in 64 bits, and moves the offset by what the disk returns; inside the file, if nothing is cut off, these are the next bytes and their number, and on a ramdisk the number is right if and only if it is below 2^31; at the end it returns the error code |
| TarRead.TarFile.Seek | kernel/fs/tar.c:170-185 | the new offset from start, current position or end, in 64 bits, or -1 for another mode; the result is the offset if and only if it is below 2^31 |
| TarRead.ReadsBackwards | kernel/fs/tar.c:67-78 | a read of 2^31 bytes of a ramdisk file returns a negative count and leaves the offset 2^31 below 2^64 |
| TarRead.ReadChunks | kernel/fs/tar.c:67-78 | in a file that lies on the disk, successive reads of any sizes that nothing cuts off give consecutive slices that join to the contents |
| TarRead.ReadNamed | kernel/fs/tar.c:86-118 | on any disk on which the search ends, looking a path up and reading in such chunks gives the bytes behind the header found, as many as its size field says, if they lie on the disk |
| TarRead.ReadTheorem | kernel/fs/tar.c:86-118 | on an archive these are the contents of the entry found if and only if it stores what its size field says or nothing was asked for, and it is the first file of the path if the archive misleads about it nowhere |

## Left out

- Device drivers, interrupt and descriptor tables, EFI and multiboot, assembly: hardware state.
- TLB contents, `invlpg`, address-space switches, nested interrupts: every step is atomic.
- The physical page allocator: `AllocPhysPage` hands out any frame of a pool, or none if the pool is empty.
- Heap, shared-memory, file, console and power-off system calls: a call that only computes a result is `Other` with that result. Whether exec loads its program is a parameter.
- The address space, ELF data and registers other than three of a PCB; of user memory only the word behind a waitpid status argument is modelled.
- `pcb_find_ppid`, `pcb_queue_reset` outside initialisation, and deallocation of address spaces when a process dies.
- The table-freeing functions, the entry counts kept in ignored bits, and the clean-up after a failed clone: the model of a failed clone keeps the frames it took.
- `virtaddr_clone`, and growth of the node pool in the middle of a take; the relocation loop is proved on its own.
- `mem_mapaddr`, `mem_unmapaddr`, `kmapuseraddr`: combinations of the operations above.
- `tar_open` and `tar_stat` of a missing file, `tar_ents`, writing to disks, device faults and failed buffer allocation.
- kprintf, the terminal, input buffers, string and memory helpers, user programs other than the codec: they would only add easy members.
- VirtAlloc.VirtCtx.GetNode: the pool is not so full that it grows, because growing re-enters the allocator and moves nodes.
- VirtAlloc.VirtCtx.Take: the pool has room for two more nodes and `n_pages * 4096` fits an int, because growing moves the node that take is working on.
- VirtAlloc.VirtCtx.TakeFree: the same room in the pool.
- VirtAlloc.VirtCtx.MemAllocPagesAt: the same room in the pool.
- VirtAlloc.VirtCtx.MemAllocPages: the same room in the pool.
- VirtAlloc.VirtCtx.constructor: the reserved prefix is a parameter, because the value that the code computes overflows an int for every image linked at 1 MiB, which C leaves undefined (`InitOverflows`).
- Paging.Mmu.MapPages: the clean-up after a failure stops at the end of the address space, beyond which the code would index outside its tables.
- PageClone.TableClone: a failed clone keeps the frames it took; the freeing of a partial copy is not modelled.
- PageClone.PgdirClone: the same for the whole address space.
- Disks.Disk.ReadAta: the sector buffer is smaller than 4 GiB, because its size is computed in 32 bits and a longer read would run over it.
- Disks.Disk.ReadSectors: a sector that exists is always read; faults of the device are not modelled.
- TarFind.FindFile: the search ends; where it does not, as `LongFileLoops` shows, the call does not return.
- TarRead.ReadNamed: the same; and nothing is said of a file that does not lie on the disk as a whole, beyond what each read does.
