# JOS: memory, environments, IPC and copy-on-write fork

A Dafny model of the JOS exokernel and of the user library built on it. It covers

- the physical page allocator, reference counts and two-level page tables (`kern/pmap.c`),
- the environment table, round-robin scheduler, system calls and the big kernel lock on several CPUs
  (`kern/env.c`, `kern/sched.c`, `kern/syscall.c`, `kern/trap.c`, `kern/spinlock.c`),
- the one-slot IPC rendezvous and the concurrent prime sieve on top of it (`lib/ipc.c`, `user/primes.c`),
- copy-on-write fork against the eager copy, and the user page-fault frame (`lib/fork.c`, `user/dumbfork.c`,
  `lib/pfentry.S`),
- the symbol search (`kern/kdebug.c`) and number printing and parsing (`lib/printfmt.c`, `lib/string.c`).

The sizes of the environment table, the number of CPUs and the number of pages are parameters.

## How the layers fit together

| layer | modules |
|---|---|
| address arithmetic, error numbers | `Mmu`, `Arith`, `Errors` |
| page ledger: the state as a value, every counted pointer to a page as a `Ref`, and the invariant `Inv` | `Pmap` |
| the same operations on arrays, links and tables updated in place | `FreeList`, `PageMap`, `BootMap` |
| the kernel's half of every address space, and stores by user code | `UpperHalf` |
| environments and system calls as functions: what each one keeps, changes and returns | `Kernel`, `KernelInv`, `Effects`, `ReturnCodes`, `Limits` |
| the same calls, and trap(), as methods on arrays and a linked free list; booting | `KernelCode`, `BootCode` |
| all CPUs interleaved, one step of the lock or of the kernel at a time | `Smp`, `Boot` |
| properties of whole runs | `TrapRuns`, `IpcLog`, `Sched`, `FairRuns`, `EnvIds`, `SelfMap` |
| what the hardware and the user see of the tables; which ranges the kernel's check judges rightly | `Translate`, `MemCheck` |
| processes sharing pages, and fork | `Cow`, `CowKernel`, `ForkCode`, `CopyMoment` |
| page-fault frames nested to any depth | `FaultFrame`, `FaultCode` |
| sieve, symbols, numbers | `Sieve`, `Stab`, `NumText` |

A run of module `Smp` starts in a state that booting reaches (`Boot.BootReachesInit`, and `BootCode.BootKernel` on the
mutable state) and takes any step of any CPU, in any order: a step of the lock, of trap() or of the scheduler, a system
call, or user code storing words wherever its page tables let it. What `KernelCode.Kern.Trap` does is a part of such a
run. The page ledger, the upper halves, the tie between CPUs and environments, identifiers and the IPC flag are one
invariant, kept by every step, including every error return.

Some conditions are not enforced by the kernel and are stated as guards of the steps (`KernelInv.Allowed`): a
status that is set is not FREE, DYING or RUNNING and does not take a blocked receiver out of NOT_RUNNABLE; an
environment that is DYING is not destroyed a second time; permission arguments fit in twelve bits; a 16-bit reference
count has room for one more mapping; an idle environment only yields. Module `Limits` proves for three of them that
they are exactly what is needed.

## Where the code differs from its documentation

The model follows the code.

- `sys_page_map` does not check `perm`, and `sys_page_alloc` checks neither the alignment of `va` nor that P and U
  are set: `ReturnCodes.AllocCodes` and `ReturnCodes.MapCodes` say exactly what they return
  (`kern/syscall.c:225-344`).
- `sys_env_set_status` tests the old status of the target, not its argument, and stores any integer
  (`kern/syscall.c:163`, `Limits.SetStatusExact`).
- `sys_ipc_try_send` returns -E_NO_MEM if something is mapped at the receiver's address already; where the
  documentation promises that error, for lack of memory, it panics (`ReturnCodes.SendCodes`, and `ReturnCodes.SendPanics`
  for a state in which it does; `kern/syscall.c:431-503`).
- Overflow of the exception stack panics instead of destroying the environment (`kern/trap.c:499-551`).
- A fault taken with the stack pointer at the very top of the exception stack returns to a wrong address
  (`FaultFrame.TopReturn`).
- `user_mem_check` steps from an unaligned `va`, so it may miss the last page of a range; it also wraps
  (`MemCheck.UserRangeIff`, `MemCheck.ExactIff`). So the check of the page-fault upcall, one page long,
  covers only the page the upcall starts in.
- The contents a forked child sees are those at the second map of `duppage` only if the parent's page was writable;
  a page that already was copy-on-write is copied as of the first map (`CopyMoment.CopyMomentIff`).
- `stab_binsearch` returns left > right only if the region has no symbol of the kind at all (`Stab.EmptyIff`), and
  its `addr++` can carry it past the right symbol (`Stab.AdjacentValues`, `Stab.FoundIff`, `Stab.RightIff`).
- `boot_map_region` maps nothing if `va` or `pa` is within three bytes of the top of the address space, or if rounding
  `size` up to a page overflows; otherwise it wraps around (`BootMap.KernelDirectory.BootMapRegion`).
- `page_insert` makes an uncounted mapping of page 0 where nothing was mapped (`Limits.PageZeroUncounted`).

## Model

| member | source | states |
|---|---|---|
| Mmu.AddressFields | inc/mmu.h:50-60 | the directory index, table index and offset of an address rebuild it |
| Mmu.FieldsOfAddress | inc/mmu.h:50-60 | the macros recover the three fields an address was built from |
| Mmu.UserDirectoryEntries | inc/mmu.h:50-60 | an address is below UTOP exactly if its directory entry is one of the first 955 |
| Pmap.AllocInv | kern/pmap.c:517-545 | allocation takes a managed page that nothing names, clears it, changes no table and keeps the ledger exact |
| Pmap.FreeInv | kern/pmap.c:552-564 | giving back an unmapped page keeps the ledger exact and the tables unchanged |
| Pmap.AddTableInv | kern/pmap.c:600-660 | linking a cleared page as a page table keeps counts, ownership and zero-filled entries |
| Pmap.NewTableInv | kern/pmap.c:600-660 | creating a table changes one directory entry and no mapping |
| Pmap.WalkCreateInv | kern/pmap.c:600-660 | a creating walk succeeds exactly if there is a table or a free page, leaves the flat map unchanged, and changes nothing when it fails |
| Pmap.WidenPdeInv | kern/pmap.c:776-825 | widening the directory entry keeps every table entry's rights inside it, and all counts |
| Pmap.SamePageInv | kern/pmap.c:780-800 | the fast path for an entry that names the page already keeps the ledger exact without touching counts |
| Pmap.ReplaceMappingInv | kern/pmap.c:749-832 | counting the new page before removing the old one, as the code does, leaves both counts right |
| Pmap.SetMappingInv | kern/pmap.c:749-832 | on every branch, writing the entry changes that entry alone and keeps the ledger exact |
| Pmap.PageInsertInv | kern/pmap.c:749-832 | page_insert fails exactly for lack of a table page and then changes nothing; otherwise exactly the named page changes in the flat map and all counts are exact |
| Pmap.RemoveInv | kern/pmap.c:888-923 | page_remove clears exactly one entry, and frees the page exactly when that was its last reference |
| Pmap.SetupVmInv | kern/env.c:179-247 | a new address space is a counted directory, no user mapping appears or changes, and nothing happens on failure |
| Pmap.FreePtesInv | kern/env.c:541-605 | the inner loop of env_free clears the first n entries of one table and nothing else |
| Pmap.FreeTablesInv | kern/env.c:541-605 | the outer loop drops the first n tables with all they map, and no other environment's entry changes |
| Pmap.FreeSpaceExact | kern/env.c:541-605 | env_free leaks nothing and over-frees nothing: a page is free afterwards iff all references to it came from that environment, and every count is what the other environments hold |
| FreeList.ChainUnique | kern/pmap.c:399-505 | a head and links determine one list, so "on the free list" is well defined |
| FreeList.InitialExact | kern/pmap.c:399-505 | the initial list has no duplicates and is exactly pages 1 to npages-1 without the MPENTRY page and the range from the I/O hole to the end of boot memory |
| FreeList.PageInit | kern/pmap.c:399-505 | page_init links exactly that list, acyclically, with counts 0, and leaves count 1 on page 0, the MPENTRY page and boot memory and no other page |
| FreeList.PartMembers | kern/pmap.c:1058-1071 | the two parts of the split lose and duplicate no page |
| FreeList.PartOrder | kern/pmap.c:1058-1071 | and each keeps the order the pages had |
| FreeList.Split | kern/pmap.c:1058-1071 | the two-tail split relinks the list as low pages first, each part in its old order |
| PageMap.InitialLedger | kern/pmap.c:399-505 | the ledger is exact after page_init |
| PageMap.PageMap.constructor | kern/pmap.c:399-505 | a machine starts with an exact ledger, nothing mapped |
| PageMap.PageMap.Alloc | kern/pmap.c:517-545 | unlinking the head in place is the ledger's allocation; nAvailPages moves with the list length |
| PageMap.PageMap.TakeTable | kern/pmap.c:683-722 | the page of a kernel table leaves the list with one reference and the ledger stays exact |
| PageMap.PageMap.Free | kern/pmap.c:552-564 | relinking in place is the ledger's free; a page number out of range is ignored |
| PageMap.PageMap.Decref | kern/pmap.c:571-575 | the 16-bit decrement frees at 0 |
| PageMap.PageMap.Walk | kern/pmap.c:600-660 | the table of an address, or none |
| PageMap.PageMap.WalkCreate | kern/pmap.c:600-660 | the walk on memory words is the ledger's creating walk and keeps its invariant |
| PageMap.PageMap.Lookup | kern/pmap.c:846-870 | the page the flat map has, or none |
| PageMap.PageMap.Remove | kern/pmap.c:888-923 | the code is the ledger's removal |
| PageMap.PageMap.Insert | kern/pmap.c:749-832 | every return code, with the ledger's insertion on success, the unchanged state on -E_NO_MEM, and the ledger exact on all of them |
| PageMap.PageMap.SetupVm | kern/env.c:179-247 | the new directory, its self-map included, is the ledger's; exact on both returns |
| PageMap.PageMap.FreeEnv | kern/env.c:541-605 | the nested loops compute the ledger's env_free |
| PageMap.PageMap.FreeTable | kern/env.c:541-605 | one turn of the outer loop |
| PageMap.PageMap.ClearTable | kern/env.c:541-605 | the inner loop over one table |
| BootMap.KernelDirectory.Walk | kern/pmap.c:600-660 | creating a kernel table changes no mapping |
| BootMap.KernelDirectory.MapPage | kern/pmap.c:683-722 | one turn changes one page of the flat map |
| BootMap.KernelDirectory.BootMapRegion | kern/pmap.c:672-722 | for all words va, size and pa: exactly the pages of the range change, wrapping around, each to its own physical page; it stops when no table page is left and does nothing for a va or pa near the top |
| KernelInv.PageAllocAtInv | kern/syscall.c:225-262 | it succeeds iff there is a free page for the mapping and one for a missing table; success maps a page nothing named before at one place, failure gives every page back and changes no mapping |
| KernelInv.PageAllocContents | kern/syscall.c:225-262 | the new page reads as zero and no page of user data changes |
| UpperHalf.NoStoreAbove | kern/env.c:179-247 | no address space lets the user write above UTOP, its own page tables at UVPT included |
| UpperHalf.StoresKeep | kern/env.c:179-247 | whatever the user stores, with the rights its tables give it, no page table, no count and no upper half changes |
| UpperHalf.StoreReadBack | inc/mmu.h:50-60 | a permitted store is what every later read of that word returns, through whatever mapping, and no other word changes |
| UpperHalf.StoresInOrder | inc/mmu.h:50-60 | several stores take effect one after the other |
| UpperHalf.SetupGuarded | kern/env.c:179-247 | a new address space has the kernel's upper half and itself at UVPT |
| UpperHalf.FreeSpaceKept | kern/env.c:541-605 | freeing one address space leaves the upper half of every other |
| UpperHalf.WithdrawInv | kern/pmap.c:683-722 | taking a page for a kernel table keeps the ledger of the remaining pages exact |
| KernelInv.PageMapAtInv | kern/syscall.c:282-344 | success makes the destination name the source's page and changes nothing else; failure changes nothing |
| KernelInv.PageUnmapInv | kern/syscall.c:354-380 | exactly one mapping goes |
| KernelInv.EnvRunOk | kern/env.c:661-702 | switching to a runnable environment keeps cpu_env injective and every status matched to a CPU |
| KernelInv.EnvRunKeeps | kern/env.c:661-702 | env_run of any environment the CPU may run, its own current one too, keeps the kernel invariant with no CPU inside |
| KernelInv.SchedOk | kern/sched.c:10-95 | sched_yield never runs out of idle environments and leaves the CPU a current one unless it enters the monitor |
| KernelInv.EnvFreeOk | kern/env.c:541-605 | freeing an environment no other CPU runs keeps the table, its free list and the CPUs consistent |
| KernelInv.NextIdOk | kern/env.c:273-276 | an identifier is positive, has its slot in the low bits, and steps by one generation until it wraps to the first |
| KernelInv.ExoforkForm | kern/syscall.c:87-134 | the child is the first free slot with the parent's registers but eax 0, NOT_RUNNABLE, and its new identifier is returned |
| KernelInv.DestroyOk | kern/env.c:613-629 | env_destroy keeps the kernel invariant in its three cases |
| KernelInv.ExoforkOk | kern/syscall.c:87-134 | sys_exofork keeps it, out of memory or out of slots too |
| KernelInv.SetStatusOk | kern/syscall.c:144-175 | sys_env_set_status keeps it under its guard |
| KernelInv.SetUpcallOk | kern/syscall.c:186-203 | sys_env_set_pgfault_upcall keeps it |
| KernelInv.MemoryCallsOk | kern/syscall.c:225-380 | the three page calls keep it, on every return |
| KernelInv.TrySendOk | kern/syscall.c:431-503 | a send keeps it on every return and at its panic |
| ReturnCodes.AllocCodes | kern/syscall.c:225-262 | each result of sys_page_alloc iff its condition, in terms of the target, va, perm and the free pages |
| ReturnCodes.MapCodes | kern/syscall.c:282-344 | each result of sys_page_map iff its condition |
| ReturnCodes.SendRefusals | kern/syscall.c:431-503 | which sends are refused, with which error, for an unknown receiver, one not receiving, or an offer with a bad address or permission |
| ReturnCodes.SendCodes | kern/syscall.c:431-503 | a send that passed its checks panics iff both sides ask for a page, the receiver has no table for its address and no page is free; returns -E_NO_MEM iff something is mapped there; and succeeds otherwise |
| ReturnCodes.SendPanics | kern/syscall.c:431-503 | a consistent kernel, built from page_init by env_setup_vm and sys_page_alloc, in which a permitted send panics |
| KernelInv.RecvOk | kern/syscall.c:517-542 | a receiver blocks, and keeps it |
| KernelInv.DispatchOk | kern/trap.c:209-302 | every call or crash, on every path, keeps page ledger, upper halves, environment table, identifiers, IPC flags and CPUs consistent |
| KernelInv.StoresInv | kern/trap.c:499-551 | so do stores to user memory, by user code or by page_fault_handler |
| KernelInv.EnteredReady | kern/trap.c:305-377 | what the system calls take for granted follows from the invariant |
| Effects.SetStatusEffect | kern/syscall.c:144-175 | the target's status becomes the argument iff it was RUNNABLE or NOT_RUNNABLE; the error otherwise; nothing else changes |
| Effects.SetUpcallEffect | kern/syscall.c:186-203 | the target's upcall becomes the argument and nothing else changes |
| Effects.DestroyEffect | kern/env.c:613-629 | an environment running on another CPU becomes DYING and keeps its memory; any other ends FREE, first on the free list, its memory given back, and its CPU without it |
| Effects.DestroyCalls | kern/syscall.c:52-65 | sys_env_destroy does that to the environment named, an unexpected trap to the current one |
| Effects.ZombieEffect | kern/trap.c:326-348 | a CPU that finds its environment DYING frees it the same way |
| Effects.ExoforkEffect | kern/syscall.c:87-134 | the child's every field, its empty address space, the identifier returned, and when each error is |
| Effects.EnvRunEffect | kern/env.c:661-702 | the environment becomes RUNNING and current and its runs are counted; the one it replaces becomes RUNNABLE if it was RUNNING; nothing else changes |
| Effects.SchedEffect | kern/sched.c:10-95 | sched_yield enters the monitor iff nothing but idle environments can run; else it runs the nearest one that can, or, if none, this CPU's idle environment |
| Effects.AllocEffect | kern/syscall.c:225-262 | success maps a cleared page that nothing named at va with the permission asked for, and that is all; failure changes no mapping |
| Effects.MapEffect | kern/syscall.c:282-344 | success maps the source's page at the destination with exactly the permission asked for, and that is all; failure changes nothing |
| Effects.UnmapEffect | kern/syscall.c:354-380 | exactly the named page goes; each result iff its condition |
| Effects.SendEffect | kern/syscall.c:431-503 | a successful send leaves the receiver runnable with the message, its own call returning 0 and the rest of its frame as it was, and the sender's page at its address if both asked for one; a refused one changes at most the receiver's permission |
| Effects.RecvEffect | kern/syscall.c:517-542 | the caller blocks with the address it asked for, or nothing changes |
| Effects.OtherEffects | kern/trap.c:209-302 | yielding and calls without effect change nothing; stores change no mapping |
| KernelCode.EnvInit | kern/env.c:127-144 | env_init leaves all slots cleared and FREE, and the linked env_free_list holds each once, in table order |
| KernelCode.Kern.EnvRun | kern/env.c:661-702 | from a consistent kernel, env_run of an environment the CPU may run leaves one in which no CPU is inside and every RUNNING or DYING environment is on exactly its CPU |
| KernelCode.Kern.FindRunnable | kern/sched.c:33-61 | the scan with its wrapping index finds the first eligible slot of the cycle |
| KernelCode.Kern.AnyBusy | kern/sched.c:66-79 | the loop decides whether only idle environments could run |
| KernelCode.Kern.SchedYield | kern/sched.c:10-95 | in a consistent kernel it enters the monitor iff nothing but idle environments can run, and otherwise leaves the CPU a current environment, RUNNING, with the one before put back |
| KernelCode.Kern.Envid2Env | kern/env.c:77-118 | 0 is the caller; another identifier gives the live environment carrying it, wherever it is in the table, and is refused only if there is none or, with the permission test, if it is neither the caller nor its child |
| KernelCode.Kern.EnvFree | kern/env.c:541-605 | frees the address space and pushes the slot on the linked free list, which stays acyclic |
| KernelCode.Kern.EnvDestroy | kern/env.c:613-629 | marks a remote environment DYING, frees any other, and gives up the CPU if it was the current one |
| KernelCode.Kern.EnvAlloc | kern/env.c:258-323 | takes the head of the linked list and unlinks it only once it has an address space; new identifier and fields, or the error code and an unchanged list |
| KernelCode.Kern.SysExofork | kern/syscall.c:87-134 | new state and result are the model's |
| KernelCode.Kern.SysSetStatus | kern/syscall.c:144-175 | a successful call, with any integer, leaves the kernel consistent iff the status is not FREE, DYING or RUNNING and a blocked receiver stays NOT_RUNNABLE |
| KernelCode.Kern.SysPageAlloc | kern/syscall.c:225-262 | new state and result are the model's |
| KernelCode.Kern.PageAllocInto | kern/syscall.c:225-262 | allocate, insert, and give the page back if the insertion failed |
| KernelCode.Kern.SysPageMap | kern/syscall.c:282-344 | new state and result are the model's |
| KernelCode.Kern.MapInto | kern/syscall.c:282-344 | the checks in order, the lookup and the insertion |
| KernelCode.Kern.SysPageUnmap | kern/syscall.c:354-380 | new state and result are the model's |
| KernelCode.Kern.SysIpcTrySend | kern/syscall.c:431-503 | new state and result are the model's |
| KernelCode.Kern.Send | kern/syscall.c:431-503 | the page part, then the three fields and the wake-up |
| KernelCode.Kern.Transfer | kern/syscall.c:431-503 | whether the page was moved, refused or lost, and the memory after it |
| KernelCode.Kern.SysIpcRecv | kern/syscall.c:517-542 | an accepted receiver is blocked and not eligible, its message fields are untouched and the kernel stays consistent; it is refused iff it asks for a page at a bad address, and then nothing changes |
| KernelCode.Kern.TrapDispatch | kern/trap.c:209-302 | whatever is asked for, on every path, the code leaves the state the model gives and a consistent kernel, and a call that returns returns to the same RUNNING environment |
| KernelCode.Kern.Trap | kern/trap.c:305-377 | trap() from taking the lock to the unlock in env_run is a sequence of steps of the SMP model: it ends with the system invariant and the CPU about to release the lock, or halted; if the call returned r, the caller resumes with the frame it trapped with and r in eax |
| Limits.InsertExact | inc/memlayout.h:214 | one more mapping of a user page keeps the ledger exact iff its 16-bit count has room or the entry named the page already |
| Limits.PageZeroUncounted | kern/pmap.c:780-800 | mapping page 0 over an empty entry is made and not counted |
| Limits.DestroyExact | kern/env.c:613-629 | destroying keeps the kernel invariant iff the environment is not DYING already |
| Limits.SetStatusExact | kern/syscall.c:144-175 | for every integer status, setting it keeps the invariant iff it is not FREE, DYING or RUNNING and a blocked receiver stays NOT_RUNNABLE |
| Smp.StepOk | kern/trap.c:305-377 | every step of every CPU, user stores included, keeps lock, phases and kernel consistent |
| Smp.RunOk | kern/init.c:47-90 | so they are consistent in every reachable state, whatever user code writes to memory |
| Smp.CollectZombie | kern/trap.c:326-348 | collecting a DYING environment on the CPU that ran it restores the kernel invariant |
| Smp.LockFreeConsistent | kern/trap.c:305-377 | whenever the lock is free: cpu_env is injective, an environment is RUNNING or DYING iff it is current on a CPU, none of those is on the free list, live receivers are NOT_RUNNABLE, the page ledger is exact |
| Smp.ReceiverBlocked | kern/syscall.c:431-542 | in every reachable state, lock free or held, a live environment that is receiving is NOT_RUNNABLE |
| Smp.LockDiscipline | kern/spinlock.c:45-132 | at most one CPU is past xchg, holding() is exact, neither lock panic is reachable, nor the missing-idle panic |
| Smp.DispatchSpares | kern/syscall.c:52-542 | no call touches the trapframe, identity or directory of an environment current on another CPU |
| Smp.FrameStable | kern/env.c:690-699 | the trapframe and page directory a CPU uses after it dropped the lock are changed by no step of another CPU |
| TrapRuns.CallerFrame | kern/trap.c:209-302 | no call that returns touches its caller's saved frame |
| TrapRuns.FrameSaved | kern/trap.c:326-348 | in every run, the frame that is dispatched on is the one the trap came with |
| TrapRuns.CallReturns | kern/trap.c:209-302 | in every run, a call that returns r resumes its caller with the frame it trapped with but r in eax, whatever the other CPUs do until it is popped |
| TrapRuns.StepEffects | kern/trap.c:305-377 | in every run, what each step changes: a trap saves exactly its frame or frees a zombie, env_run and sched_yield switch, stores touch no mapping, and lock steps change nothing |
| TrapRuns.HaltsWhenFinished | kern/sched.c:66-92 | in every run, a CPU that schedules halts iff nothing but idle environments can run |
| IpcLog.DispatchIpc | kern/syscall.c:431-542 | each call either delivers all three fields of one send to a slot and sets its result to 0, blocks it, creates it, or leaves it and its frame alone, but that a refused page send clears the permission of a slot that goes on receiving |
| IpcLog.LogStepOk | kern/syscall.c:431-542 | every step keeps messages sent and messages returned apart by at most the one in the slot |
| IpcLog.LogRunOk | lib/ipc.c:23-71 | so does every run, with the library reading the three fields one at a time outside the lock |
| IpcLog.ExactlyOnce | lib/ipc.c:23-71 | what ipc_recv returned is, in order and without mixing fields, what was successfully sent, but for the message being read; and its system call comes back with 0, without which it would read none of the fields |
| Sched.NearestChosen | kern/sched.c:33-61 | the scan picks the eligible environment at the least cyclic distance, and none only if there is none |
| Sched.Closer | kern/sched.c:33-61 | each scheduling call picks the waiting environment or brings the CPU closer to it |
| Sched.PickedInTime | kern/sched.c:33-61 | it is picked within as many calls as its cyclic distance plus one |
| Sched.SwitchNotRunnable | kern/sched.c:10-95 | a trap that gives up the CPU leaves its environment RUNNING or NOT_RUNNABLE, or none |
| FairRuns.RunReady | kern/sched.c:10-95 | in every reachable state a CPU about to schedule has such an environment, or none |
| FairRuns.CurrentKept | kern/trap.c:305-377 | between two of its scheduling calls a CPU keeps its environment or loses it |
| FairRuns.FairInRuns | kern/sched.c:33-61 | in every run, an environment RUNNABLE at NENV successive scheduling calls of a CPU that has a current one at each is picked by one of them |
| EnvIds.Recurs | kern/env.c:273-276 | a slot's identifier comes back after exactly the multiples of 2^19-1 allocations |
| EnvIds.LiveDistinct | kern/env.c:77-118 | live identifiers are positive, name their slot and are pairwise distinct |
| EnvIds.ResolvesExactly | kern/env.c:77-118 | envid2env resolves a positive identifier to the one live environment carrying it, or to none |
| EnvIds.RunIds | kern/env.c:258-323 | in every run a slot's identifier moves only when an environment is created there |
| EnvIds.StaleRefused | kern/env.c:77-118 | in every run, an old identifier resolves iff its slot is live and a multiple of 2^19-1 creations happened there since |
| Translate.HwRightsAreTableRights | kern/pmap.c:776-825 | below UTOP the hardware's AND over both levels grants exactly what the table entry grants |
| Translate.UserMemCheck | kern/pmap.c:959-1019 | the loop answers for its probes and records the first that fails, as va or as its page |
| Translate.CoveredIff | kern/pmap.c:993-1002 | the probes visit every page of a range iff the offsets of its ends add up to less than a page |
| Translate.CheckExact | kern/pmap.c:959-1019 | on such ranges, aligned ones among them, the answer is whether every byte is accessible |
| Translate.CheckMatchesHardware | kern/pmap.c:959-1019 | and, below UTOP, whether the hardware would allow every access |
| MemCheck.UserRangeIff | kern/pmap.c:959-1019 | for a range in user space the answer is right in every state of the kernel's memory, for every environment and user access, iff the offsets of its ends add up to less than a page |
| MemCheck.ExactIff | kern/pmap.c:959-1019 | the same with empty ranges, ranges that wrap and ranges above ULIM: right iff not empty and either above ULIM or in the case before |
| MemCheck.Deceived | kern/pmap.c:993-1002 | on any other range, and for any kernel mappings, a state with an exact ledger and a read request on which the answer is wrong |
| MemCheck.RangeMapped | kern/pmap.c:993-1002 | such states arise from page_init, env_setup_vm and one sys_page_alloc per page |
| Translate.VptReadsPte | kern/env.c:244 | a user read at UVPT+4n yields the entry of page n iff its directory entry is present and user-readable, and faults otherwise |
| Translate.VpdReadsPde | lib/entry.S:11-14 | a user read at vpd+4d yields directory entry d |
| SelfMap.RunSelf | kern/env.c:244 | so does every run |
| SelfMap.TablesVisible | lib/entry.S:11-14 | in every reachable state every environment reads its own tables at vpt and vpd |
| Cow.StepInv | lib/fork.c:17-182 | every interleaved step keeps each writable page mapped once, but for a pending child, a fault in progress and pages shared on purpose |
| Cow.StepAgrees | lib/fork.c:17-182 | every step keeps all unshared pages equal to those of the eager copy |
| Cow.ForkRefinesEagerCopy | lib/fork.c:17-318 | in every interleaving of accesses, faults, forks, mappings and exits by any processes, each read of an unshared page returns what it would had fork copied pages outright; pages are mapped into another process only while that one is neither forking nor in a fault |
| Cow.CopyLeavesReadOnly | lib/fork.c:101-182 | when a page counts as copied, neither side can write it in place |
| Cow.StepDomain | lib/fork.c:202-318 | at every point of a fork the child has exactly the user pages dealt with so far |
| Cow.ForkComplete | lib/fork.c:202-318 | a child made runnable has exactly the parent's user pages and its own exception stack |
| CopyMoment.CopyMomentIff | lib/fork.c:101-182 | for every page duplicated copy-on-write: whatever any process does between the two maps, child and parent hold the same contents at the second, iff the parent's page was writable at the first |
| CopyMoment.EarlyCopyRun | lib/fork.c:17-182 | from every state in which it already was copy-on-write, a run in which the parent faults on it, copies it and writes it in between, after which the two differ |
| CowKernel.MapModels | kern/syscall.c:282-344 | the system call changes the two-level tables as one entry of the processes' flat map, with the permission asked for, or not at all |
| CowKernel.AllocModels | kern/syscall.c:225-262 | the system call maps a page no process maps, cleared, and what the processes map keeps its contents; or changes no mapping |
| CowKernel.UnmapModels | kern/syscall.c:354-380 | the system call removes one entry or none |
| CowKernel.ExitModels | kern/env.c:541-605 | whatever frees an environment drops its entries and no other's |
| CowKernel.StepIsRequest | lib/fork.c:17-318 | every step of fork, duppage and pgfault changes the mappings exactly as the system call it makes, with which permissions, asks only for what the kernel grants, and gets cleared pages |
| CowKernel.MapStep | lib/fork.c:101-182 | so a step that maps, done by sys_page_map, takes tables that model the processes to tables that do |
| CowKernel.AllocStep | lib/fork.c:17-86 | likewise one that allocates |
| CowKernel.UnmapStep | lib/fork.c:17-86 | likewise one that unmaps |
| ForkCode.Processes.CopyPage | user/dumbfork.c:26-38 | the byte loop copies one page and touches no other |
| ForkCode.Processes.EagerDuppage | user/dumbfork.c:26-38 | dumbfork's duppage is the specification's copy event |
| ForkCode.Processes.DumbFork | user/dumbfork.c:41-84 | every program page and the stack page is a writable copy in the child, which then may run; nothing else changes but the temporary mapping |
| ForkCode.Processes.Duppage | lib/fork.c:101-182 | child first, then parent, with the result code and the mappings of one turn of the model |
| ForkCode.Processes.Pgfault | lib/fork.c:17-86 | the handler is a run of the model that ends with a private writable copy; it panics exactly for a non-write, a page that is not copy-on-write or lack of a page, with nothing changed |
| ForkCode.Processes.Fork | lib/fork.c:202-318 | the loop is a run of the model after which parent and child map the same pages copy-on-write and the child has a fresh exception stack |
| ForkCode.ForkedPages | lib/fork.c:202-318 | after fork both sides hold the parent's contents and neither can write them in place |
| ForkCode.LazyLikeEager | user/dumbfork.c:41-84 | fork and dumbfork leave the child the same contents |
| ForkCode.StartOk | lib/fork.c:202-318 | ordinary processes that map every page once satisfy all that the theorems start from |
| ForkCode.RunKeeps | lib/fork.c:17-318 | every run keeps both invariants |
| ForkCode.ForkCompleteInRuns | lib/fork.c:202-318 | in every interleaving a child is complete when it becomes runnable |
| FaultFrame.PushFrameHolds | kern/trap.c:499-551 | a frame lies in the exception-stack page below the interrupted frame and its scratch word, and holds the trap-time state |
| FaultFrame.PushFrameFault | kern/trap.c:499-551 | the first two words of a frame are the fault address and the error code, the pushed esp is in its place, and a nested frame has a zero scratch word above it |
| FaultFrame.FaultReported | kern/trap.c:499-551 | the handler finds them there at every fault nested in it, after each of them, and when it returns |
| FaultFrame.InstrAt | lib/pfentry.S:70-102 | each instruction of the return path keeps what the rest needs |
| FaultFrame.NestedAt | lib/pfentry.S:70-102 | a further fault before any of them is invisible once it has returned |
| FaultFrame.RoundTrip | lib/pfentry.S:34-102 | at any nesting, in the handler or on the return path, all registers, flags, eip and esp come back; memory changes only on the free exception stack, the handler's copy page and, off the exception stack, one word below esp for each fault taken at the final ret of another |
| FaultFrame.TopReturn | lib/pfentry.S:70-102 | with esp at UXSTACKTOP the return goes to UXSTACKTOP-4 instead, whatever is nested in it |
| FaultFrame.ReturnsIff | lib/pfentry.S:70-102 | at any nesting, the faulting code resumes where it was iff its esp is not UXSTACKTOP or it was at UXSTACKTOP-4 |
| FaultCode.Machine.Push | kern/trap.c:389-393 | one more word of the frame below the moving pointer |
| FaultCode.Machine.PushState | kern/trap.c:499-551 | the pushes and the register block are the frame's thirteen words |
| FaultCode.Machine.PageFault | kern/trap.c:402-559 | a fault resumes, destroys or panics by whether there is an upcall, its first page is readable, the exception stack is writable for a first frame and the frame fits; one that resumes does so at the upcall with fault address, error code and trap-time state on top of its stack |
| FaultCode.Machine.Return | lib/pfentry.S:70-102 | run on a pushed frame, the instructions give the trap-time state back and keep memory in use |
| Sieve.StepInv | user/primes.c:14-52 | every step keeps each channel exactly-once and each stage's output the filtered image of its input |
| Sieve.ExecInv | user/primes.c:14-52 | so does every schedule |
| Sieve.NextPrime | user/primes.c:14-52 | the least integer that none of the first primes divides is the next prime |
| Sieve.StageInputs | user/primes.c:14-52 | each stage's inputs are a prefix of the integers the earlier primes do not divide |
| Sieve.SieveCorrect | user/primes.c:14-52 | under every schedule stage k's first value is the k-th prime, and its inputs are such a prefix in order |
| Sieve.KernelSlot | kern/syscall.c:431-503 | the slot the sieve uses is the kernel's send without a page |
| Sieve.KernelChannel | lib/ipc.c:23-71 | the channel law of the sieve holds of every live environment of every kernel run: values sent are values returned, in order, and the one in its slot |
| Boot.IcodeLoads | kern/env.c:332-504 | loading any image keeps ledger and upper halves and gives no environment another directory |
| Boot.IcodeMapped | kern/env.c:332-504 | after loading, every page of the segments and the stack page is mapped writable, and no other mapping changed |
| Boot.CreateStarting | kern/env.c:514-535 | creating the next environment, with its program, takes the next slot and keeps all start-up facts |
| Boot.CreateEffect | kern/env.c:514-535 | every field of the new environment, its entry point and its program's pages; nothing else changes |
| Boot.BootReachesInit | kern/init.c:47-90 | whatever programs a machine boots with, if no creation panics it ends in a state the runs above start in |
| Boot.BootSucceeds | kern/init.c:47-90 | with programs in user space and two pages for each of theirs, none panics |
| BootCode.RegionAlloc | kern/env.c:332-387 | the page loop, run in place, is the model's, with its panics |
| BootCode.LoadIcode | kern/env.c:410-504 | segments, stack and contents, run in place, are the model's |
| BootCode.EnvCreate | kern/env.c:514-535 | on the mutable state: panics exactly where the model does, and otherwise makes the next slot the next environment |
| BootCode.MemInit | kern/pmap.c:399-505 | page_init, then the kernel's tables in the first pages it freed, which the allocator no longer owns |
| BootCode.BootKernel | kern/init.c:47-90 | page_init, kernel tables, env_init, creations and loading, run in place, end in a state the runs start in unless one panics; with enough pages none does |
| Stab.NextSmaller | kern/kdebug.c:61-111 | the loop terminates: the interval shrinks, except at a hit, and not twice in a row |
| Stab.StabBinsearch | kern/kdebug.c:61-111 | the three loops compute the search function |
| Stab.FoundIff | kern/kdebug.c:61-111 | on symbols in order, none at the last address, the result is the last symbol of the kind up to addr and the index before the next one, iff the first hit leaves no symbol of addr+1 in reach |
| Stab.Brackets | kern/kdebug.c:61-111 | in particular unless addr and addr+1 are both values of the kind |
| Stab.RightIff | kern/kdebug.c:61-111 | on symbols in order, the search for addr is right on every part of the region iff addr and addr+1 are not both values of the kind there (for the last address, iff it is no value) |
| Stab.EmptyIff | kern/kdebug.c:61-111 | left > right exactly if the region has no symbol of the kind |
| Stab.AdjacentValues | kern/kdebug.c:61-111 | among 5 and 6, a search for 5 returns the symbol of 6 |
| NumText.Console.PrintNum | lib/printfmt.c:38-55 | the recursion and the padding loop write the number right-justified, max(width, digits) characters long |
| NumText.Strtol | lib/string.c:262-307 | blanks, sign, prefix and digits as 32-bit arithmetic gives them, and where reading stopped |
| NumText.NumberRead | lib/string.c:262-307 | blanks, a sign, the prefixes 0x and 0, digits and what follows: which base is used, where reading stops, and the value modulo 2^32, negated after a minus |
| NumText.DigitsSpell | lib/printfmt.c:38-55 | read from the right, the digits printed are the remainders of the number and its quotients by the base |
| NumText.SpelledValue | lib/string.c:262-307 | and digits that are have the number as their value |
| NumText.PrintedForm | lib/printfmt.c:38-55 | the digits stand at the right end and everything before them is padding |
| NumText.RoundTrip | lib/string.c:262-307 | for base 2 to 16 and blank or zero padding, strtol consumes all of what printnum wrote and returns the number modulo 2^32 |
| NumText.RoundTripIff | lib/string.c:262-307 | so it returns the number itself iff it is below 2^31 |

## Left out

- Boot assembly, the console, clock, interrupt controllers, the monitor and formatted output: devices and user interface.
- The ELF format: an image is given as whether its magic number is right, its segments and the words its pages end up with.
- Boot order of the kernel's mappings: `BootCode.MemInit` puts given table contents into the pages that `boot_map_region` would take; that loop itself is `BootMap`, on a directory of its own.
- Caching of translations and memory ordering: memory and page tables are sequentially consistent and `tlb_invalidate` does nothing.
- The absolute value of `nAvailPages`: only its difference to the length of the list is kept.
- Address conversions of `kern/pmap.h`: a page is its number throughout.
- Endless loops as methods: the spin of `spin_lock`, the retry loop of `ipc_send` and the loops of `user/primes.c` are steps of transition systems instead.
- Trapframe contents in the kernel model: a saved frame is eax and the rest; what a page fault writes into it is in `FaultFrame`.
- ForkCode.Processes.Fork: its system calls succeed; the code ignores their results, so a fork that runs out of pages leaves a child with pages missing.
- Cow.ForkRefinesEagerCopy: a process does not map a page into one that is forking or inside `pgfault`, which `sys_page_map` would allow; there it could replace the page being copied.
- MemCheck.ExactIff: a range that starts below ULIM and ends between UTOP and the top is left out, because its answer depends on which of the kernel's fixed mappings there are readable.
- FaultFrame.ReturnsIff: left out are stack pointers below 4, those less than four bytes above UXSTACKTOP, where the word below is not user memory, and those in the handler's copy page, which the handler itself overwrites.
- Stab.FoundIff: a symbol at address 2^32-1 is excluded, because `addr++` wraps after a hit there.
- Stab.RightIff: the address 2^32-2 is excluded, because after hits on it and on 2^32-1 the wrapped search is sometimes right by accident.
- Timer interrupts as a separate cause: giving up the CPU is one kind of call, whatever asked for it.
- Liveness of IPC and of the sieve: only what was delivered is stated, not that a message must be.
- User programs inside kernel runs: the fork model and the sieve are transition systems of their own, tied to the kernel step by step (`CowKernel`) and by the channel law (`Sieve.KernelChannel`), not as projections of kernel runs.
- Debugging code behind `__PT_REF__`, `__PD_REF__` and DEBUG switches, and user programs other than `primes` and `dumbfork`.
