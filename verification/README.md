# A verified model of the four systems projects

The repository holds a JOS kernel with its user library (`sched`), a FUSE filesystem
(`fisopfs`), a process sieve (`fork`) and a shell (`shell`). This Dafny project models their
core and proves what they are for. `dafny verify dfyconfig.toml` checks all of it.

Each component has a specification on values, functions from state to state with the branches,
constants and error codes of the C code. Where the code changes memory in place there is a class
with the code's fields, whose methods are proved equal to those functions. The lemmas are about
the functions, so they hold of the methods.

## The modules

- **Paging, AddressSpace, Pmap**: physical pages, `pp_ref`, the free list, and two-level page
  tables that lie in the pages the allocator hands out. `Paging` has the invariant and every
  operation, `AddressSpace` shows the tables as a map from virtual page to page and permissions
  and runs all operations from boot, `Pmap` has the code on `pages[]`, links and memory words.
- **Spaces**: the environment table and the page directories in one machine, with `sys_exofork`
  and `sys_ipc_try_send` on both.
- **Cow, Fork, ForkRuns**: copy-on-write fork against a machine in which every environment has a
  memory of its own. The fault handler is four steps, and the handlers of any number of
  environments may be under way at once. `Fork` has the loops of system calls and the faults that
  `fork` takes itself, on the word of `_pgfault_handler` and on the stack it has just made
  copy-on-write, with the exact number of free pages all that needs. `ForkRuns` has a fork whose
  calls interleave with everything that other environments do.
- **Sched**: the priority scheduler and the round-robin one, with their waiting bounds.
- **Envs, Lifecycle, Smp**: environment ids and slots; what one CPU does to environments while it
  holds the lock; and all CPUs around the lock, action by action, with the messages they pass.
- **Frames**: the frames that a page fault pushes and `_pgfault_upcall` unwinds, byte by byte.
- **Primes, Sieve**: the chain of processes joined by bounded pipes, under every interleaving.
- **Files, Image, Fisopfs**: the inode tree as a value, its disk image, and the inodes in memory.
- **Kdebug, Numbers, Shell**: the filtered binary search, number printing against parsing, and
  the command tree with its pipes.
- **Base, Links**: small datatypes and linked lists.

Where C code has a fixed width the model writes it out: `pp_ref` is 16 bits, ids and the sums of
`user_mem_check` and `strtol` are 32 bits. Clocks, inode addresses, bytes that `realloc` leaves
undefined, the registers and the environment that the scheduler prefers are parameters.

## Model

| member | source | states |
|---|---|---|
| `Paging.SetupOk` | sched/kern/env.c:161-195 | a new directory maps nothing below UTOP, costs one free page, and fails exactly when none is free, changing nothing |
| `Paging.EnvFreeOk` | sched/kern/env.c:410-457 | the free set gains exactly the pages that only the dying environment referenced, every other page loses exactly its references, all other address spaces and their contents stay |
| `AddressSpace.WalkRefines` | sched/kern/pmap.c:412-429 | creating a page table changes no mapping of anybody; when it succeeds |
| `AddressSpace.InsertRefines` | sched/kern/pmap.c:489-505 | page_insert is an update of one key in one address space, re-insertion included; it fails exactly when a table is missing and no page is free, and then changes nothing; what it takes from the free list |
| `AddressSpace.LookupRefines` | sched/kern/pmap.c:518-532 | page_lookup reads the map, and its logical-and test agrees with the present bit |
| `AddressSpace.RemoveRefines` | sched/kern/pmap.c:549-568 | page_remove deletes one key |
| `AddressSpace.EnvPageAllocOk` | sched/kern/syscall.c:46-58 | one fresh zeroed page is mapped, or a given error leaves every map alone; exactly when a failure loses the page |
| `AddressSpace.EnvPageMapOk` | sched/kern/syscall.c:61-73 | the source page is shared and write permission never added; each error exactly when |
| `AddressSpace.IpcPageOk` | sched/kern/syscall.c:374-391 | a page sent by message appears in the receiver's map at the one address it asked for; a send that fails changes no map; each error exactly when |
| `AddressSpace.UserStoreOk` | sched/kern/pmap.c:398-411 | a store by user code changes one data page and no mapping |
| `AddressSpace.RunKeepsInv` | sched/kern/pmap.c:346-568 | every run of all operations keeps counts, free list and tables in agreement |
| `AddressSpace.Reachable` | sched/kern/pmap.c:291-388 | from boot: each count is the number of references, a page is free exactly if it is neither referenced nor held, tables and directories are never data |
| `Spaces.EnvAllocOk` | sched/kern/env.c:205-270 | env_alloc takes a slot that has no directory; each error exactly when, and then nothing changes |
| `Spaces.EnvFreeOk` | sched/kern/env.c:410-457 | the slot loses its directory as it joins the free list; no other memory changes and no page is lost |
| `Spaces.RunKeepsJoint` | sched/kern/env.c:205-457 | every run keeps it so that an environment is live exactly if it has a page directory; what envid2env finds can then be given to the memory functions |
| `Spaces.Reachable` | sched/kern/env.c:114-457 | in every state reached from boot an environment is off the free list exactly if it has a page directory, and maps data pages only |
| `Spaces.ExoforkOk` | sched/kern/syscall.c:137-157 | sys_exofork with the page allocator: each error exactly when, and then nothing changes; a child that does not run yet and maps nothing |
| `Spaces.TrySendOk` | sched/kern/syscall.c:356-400 | sys_ipc_try_send with the page tables: value, sender, permission and page arrive together, or an error leaves all environments and maps as they were |
| `Pmap.Kernel.PageInit` | sched/kern/pmap.c:291-332 | the allocator starts with exactly the usable pages |
| `Pmap.Kernel.PageAlloc` | sched/kern/pmap.c:346-360 | the code on the linked free list is `Paging.Alloc` |
| `Pmap.Kernel.PageFree` | sched/kern/pmap.c:366-377 | the page becomes the head of the free list |
| `Pmap.Kernel.PageDecref` | sched/kern/pmap.c:383-388 | the code is `Paging.Decref`, which frees at zero |
| `Pmap.Kernel.PgdirWalk` | sched/kern/pmap.c:412-429 | the code is `Paging.Walk` and returns the word that holds the slot |
| `Pmap.Kernel.PageLookup` | sched/kern/pmap.c:518-532 | the code is `Paging.Lookup` |
| `Pmap.Kernel.PageRemove` | sched/kern/pmap.c:549-568 | the code is `Paging.Remove` |
| `Pmap.Kernel.PageInsert` | sched/kern/pmap.c:489-505 | the code is `Paging.Insert` |
| `Pmap.Kernel.EnvSetupVm` | sched/kern/env.c:161-195 | the code is `Paging.SetupVm` |
| `Pmap.Kernel.EnvFreeMemory` | sched/kern/env.c:426-451 | both loops together are `Paging.EnvFree` |
| `Pmap.Kernel.EnvPageAllocate` | sched/kern/syscall.c:46-58 | the code is `AddressSpace.EnvPageAlloc` |
| `Pmap.Kernel.EnvPageMapping` | sched/kern/syscall.c:61-73 | the code is `AddressSpace.EnvPageMap` |
| `Pmap.Kernel.UserMemCheck` | sched/kern/pmap.c:643-664 | success exactly if all pages up to the rounded end allow the access; a failure names the lowest refused address, or va past UTOP |
| `Pmap.CheckMeans` | sched/kern/pmap.c:646-651 | success means that every byte of the range is accessible, both ways, if the sums do not wrap; if they do, what the check looks at instead |
| `Pmap.TopPagePasses` | sched/kern/pmap.c:646-651 | a range at the top of the address space passes although no byte of it is accessible |
| `Cow.DupOk` | sched/lib/fork.c:61-96 | duppage copies one page's contents into the child's memory and nobody else's; afterwards nobody can write the shared page |
| `Cow.DupSome` | sched/lib/fork.c:61-96 | it succeeds exactly if the page is mapped and the child has its table or a page is free |
| `Cow.PgFaultOk` | sched/lib/fork.c:14-48 | the handler alone succeeds exactly if a page is free and not lost to a missing table; then no contents change anywhere and the page is writable |
| `Cow.FaultStart` | sched/lib/fork.c:38-40 | first step, while other handlers run: nobody reads anything new |
| `Cow.FaultCopy` | sched/lib/fork.c:42 | second step, likewise; the temporary page now reads like the faulting one |
| `Cow.FaultMove` | sched/lib/fork.c:43-44 | third step, likewise; the page is mapped at both slots |
| `Cow.FaultEnd` | sched/lib/fork.c:46-47 | last step, likewise; the faulting slot is writable, so the retried store goes through |
| `Cow.FaultTakes` | sched/lib/fork.c:38-47 | a handled fault takes its page, and a table for PFTEMP if there is none, gives the old page back if nobody else maps it, and touches no other slot of anybody |
| `Cow.StepEnabled` | sched/lib/fork.c:36-94 | exactly which steps run out of memory; a handler can fail at its first step only |
| `Cow.StepRefines` | sched/lib/fork.c:14-251 | one step of copy-on-write is one step of private memories, or none inside a handler |
| `Cow.RunRefines` | sched/lib/fork.c:14-251 | after every run each environment reads at every page what it would with its own full copies |
| `Cow.BootCow` | sched/kern/pmap.c:291-332 | the invariant holds at boot |
| `Fork.Duppage` | sched/lib/fork.c:61-96 | the system calls are `Cow.DupPage`, success included |
| `Fork.SetPgfaultHandler` | sched/lib/pgfault.c:24-46 | the exception stack the first time, and the store of the handler, which may fault, are `Fork.HandlerSet` |
| `Fork.HandlerSetSome` | sched/lib/pgfault.c:29-45 | exactly when that works |
| `Fork.CopyAll` | sched/lib/fork.c:221-237 | the loop over all pages copies everything but the exception stack, paid with one page for each table and those of the fault on the parent's stack; it fails only if the fault cannot be handled or the free list is too short for all that |
| `Fork.UserFork` | sched/lib/fork.c:211-242 | fork from exofork on succeeds exactly if there is an exception stack and the free list holds the child's directory, exception stack and tables, the parent's new stack page, and perhaps a table for PFTEMP; the child has the parent's memory with a fresh exception stack, all others are unchanged |
| `Fork.ForkAll` | sched/lib/fork.c:206-242 | the same for the whole of fork, with what set_pgfault_handler takes the first time and later, and the handler in both memories |
| `ForkRuns.CopiedThen` | sched/lib/fork.c:225-237 | in any run the child's page is the parent's as it was when duppage was called for it |
| `ForkRuns.ForkCopies` | sched/lib/fork.c:206-242 | a fork anywhere in a run, interleaved with all others, gives the child every page of the parent as it was at exofork, but for the pages that the parent itself stores to meanwhile |
| `Fork.Pgfault` | sched/lib/fork.c:14-48 | the system calls are `Cow.PgFault`, success included |
| `Sched.YieldChooses` | sched/kern/sched.c:198-225 | the chosen environment beats all that come before it in the scan and is not beaten, before its own aging, by those after it |
| `Sched.YieldAges` | sched/kern/sched.c:201-225 | everybody but the chosen one ages by one call, the chosen one is lowered and starts to wait anew |
| `Sched.NoStarvation` | sched/kern/sched.c:198-246 | an environment that stays RUNNABLE at priority p is chosen within 3 * (5 - p) + 1 + NENV calls, if none but the first starts without curenv |
| `Sched.BlockedWithoutCurenv` | sched/kern/sched.c:198 | without curenv it is passed over as long as a lower slot holds a RUNNABLE environment of top priority |
| `Sched.ForkersStarve` | sched/kern/sched.c:198-218 | such runs exist at every length: two environments that fork and exit in turn |
| `Sched.NoStarvationRR` | sched/kern/sched.c:171-185 | round robin chooses it within NENV calls |
| `Sched.Scheduler.SchedYield` | sched/kern/sched.c:198-225 | the loop over envs[] and the choice are `Sched.Yield` |
| `Sched.Scheduler.SchedYieldRoundRobin` | sched/kern/sched.c:171-185 | the loop is `Sched.YieldRR` |
| `Envs.LookupExact` | sched/kern/env.c:72-106 | an id finds the one live environment that carries it; with the check only the caller or its child |
| `Envs.IdRecurs` | sched/kern/env.c:219-223 | the ids of a slot come back after exactly 2^19 - 1 allocations, with the 32-bit wrap |
| `Envs.StaleIds` | sched/kern/env.c:219-223 | after any run an old id is accepted exactly if its slot is in use and was reallocated a multiple of 2^19 - 1 times |
| `Envs.EnvTable.EnvInit` | sched/kern/env.c:114-128 | all slots are free and handed out in array order |
| `Envs.EnvTable.Alloc` | sched/kern/env.c:205-270 | the code on the linked list is `Envs.EnvAlloc` |
| `Envs.EnvTable.Free` | sched/kern/env.c:453-456 | the code is `Envs.FreeSlot` |
| `Envs.EnvTable.Lookup` | sched/kern/env.c:72-106 | the code is `Envs.Envid2Env` |
| `Lifecycle.SchedulersAreInstances` | sched/kern/sched.c:171-225 | both schedulers change statuses and curenv as the lifecycle's sched_yield does |
| `Lifecycle.TrapKeepsExactly` | sched/kern/trap.c:265-301 | a trap keeps the lifecycle invariant if and only if its call is guarded as stated |
| `Lifecycle.HarmfulStates` | sched/kern/syscall.c:166-186 | for each of the three unguarded calls a state that keeps the invariant and that the call breaks |
| `Lifecycle.SendReports` | sched/kern/syscall.c:356-400 | a send succeeds only at a waiting receiver and reports sender and value; exactly when the permission field is not the documented one |
| `Lifecycle.Kernel.Exofork` | sched/kern/syscall.c:137-157 | the code is `Lifecycle.SysExofork` |
| `Lifecycle.Kernel.EnvSetStatus` | sched/kern/syscall.c:166-186 | the code is `Lifecycle.SysEnvSetStatus` |
| `Lifecycle.Kernel.DestroyEnv` | sched/kern/env.c:464-481 | the code is `Lifecycle.EnvDestroy` |
| `Lifecycle.Kernel.IpcTrySend` | sched/kern/syscall.c:356-400 | the code is `Lifecycle.SysIpcTrySend` |
| `Lifecycle.Kernel.IpcRecv` | sched/kern/syscall.c:413-426 | the code is `Lifecycle.SysIpcRecv` |
| `Lifecycle.Kernel.Reschedule` | sched/kern/sched.c:251-283 | the end of sched_yield and sched_halt is `Lifecycle.SchedYield` |
| `Lifecycle.Kernel.Trap` | sched/kern/trap.c:265-301 | the whole visit to the kernel is `Lifecycle.TrapUser` |
| `Smp.NextKeepsLock` | sched/kern/spinlock.c:60-124 | every single action on the lock keeps its discipline |
| `Smp.SafeRuns` | sched/kern/trap.c:244-301 | in every run from boot: no lock panic, no failed assertion, one CPU in the kernel at most; whenever the lock is free an environment is RUNNING or DYING exactly if it is current on exactly one CPU, the free list is exactly the FREE slots, a receiver is current nowhere |
| `Smp.ExactlyOnce` | sched/lib/ipc.c:22-60 | the successful sends to an environment are what its receives returned, in order, plus at most one not yet read |
| `Frames.UnwindRestores` | sched/lib/pfentry.S:33-91 | all registers, flags, eip and esp come back; memory changes only in the saved esp and in the word below the trap-time esp |
| `Frames.UnwindAtTop` | sched/kern/trap.c:363-370 | with esp exactly at UXSTACKTOP the low 24 bits of eip are replaced |
| `Frames.RunActs` | sched/kern/trap.c:346-378 | faults nested to any depth, in a handler or in the store of the upcall, resume with their own registers, return to the right place and leave the interrupted frame alone |
| `Frames.TopFault` | sched/kern/trap.c:346-378 | a fault is invisible to the code that takes it, exactly except at UXSTACKTOP; memory below is what the handler's own writes make of it |
| `Frames.Machine.PageFault` | sched/kern/trap.c:346-378 | the frame is pushed as specified, or the stack overflows exactly when |
| `Frames.Machine.UpcallCall` | sched/lib/pfentry.S:35-38 | the call of the handler |
| `Frames.Machine.UpcallReturn` | sched/lib/pfentry.S:39-91 | the instructions after it are `Frames.Unwind` |
| `Primes.ChainIsPrimes` | fork/funciones_para_primes.c:13-102 | the chain of filters over 2..n-1 finds the list of primes below n |
| `Primes.PrimesExact` | fork/funciones_para_primes.c:67 | that list holds a number exactly if it is a prime in the range |
| `Primes.PrimesIncreasing` | fork/funciones_para_primes.c:67 | and it is strictly increasing |
| `Primes.InputMembers` | fork/funciones_para_primes.c:73-88 | stage k is to receive exactly the numbers that the first k primes do not divide |
| `Sieve.SentMembers` | fork/funciones_para_primes.c:73-88 | at every moment stage k has received only such numbers, in strictly increasing order, and at the end all of them |
| `Sieve.NoDeadlock` | fork/primes.c:29-53 | until everything has finished some process can move |
| `Sieve.EveryInterleaving` | fork/funciones_para_primes.c:13-102 | every interleaving over pipes of any capacity prints primes in increasing order, ends within a fixed number of steps, and then every process has finished and each prime below n was printed exactly once |
| `Sieve.RunStage` | fork/funciones_para_primes.c:13-102 | one stage and all its descendants print the chain of their input |
| `Sieve.RunMain` | fork/primes.c:38-48 | the program prints exactly the primes below n, in increasing order |
| `Files.BuscarExact` | fisopfs/fisopfs.c:52-82 | the lookup is right exactly when no file lies on the way, and else returns that file |
| `Files.InsertAddsOne` | fisopfs/fisopfs.c:366-399 | mkdir and create are refused exactly when, and add exactly one binding; every other path shows what it showed |
| `Files.UnlinkRemovesOne` | fisopfs/fisopfs.c:457-470 | unlink removes exactly one binding; exactly when it succeeds, and when without removing anything |
| `Files.RmdirRemovesOne` | fisopfs/fisopfs.c:472-485 | rmdir removes exactly one empty directory, never the root |
| `Files.WriteChangesOne` | fisopfs/fisopfs.c:428-455 | write changes the bytes of one file, and which; the gap before the buffer is unspecified |
| `Files.TruncateChangesOne` | fisopfs/fisopfs.c:535-571 | truncate keeps the bytes before the new end and fills with zeros |
| `Files.ApplyKeeps` | fisopfs/fisopfs.c:366-571 | every operation keeps the shape of the tree, sibling names different and names short |
| `Image.LoadSave` | fisopfs/fisopfs.c:161-220 | loading an image, with anything behind it, rebuilds the saved tree and takes exactly its bytes |
| `Image.StoredExactly` | fisopfs/fisopfs.c:171 | the rebuilt tree is the original exactly if every link count fits its int |
| `Image.MountRestores` | fisopfs/fisopfs.c:487-494 | unmount and mount restore the exact tree after any run of operations |
| `Image.ImageLagsBehind` | fisopfs/fisopfs.c:379-398 | right after mkdir or create the image is the tree before it |
| `Fisopfs.Filesystem.Make` | fisopfs/fisopfs.c:366-399 | the code on heap inodes is `Files.Insert`, and saves the tree before |
| `Fisopfs.Filesystem.Unlink` | fisopfs/fisopfs.c:457-470 | the code is `Files.Unlink`, and saves the tree after |
| `Fisopfs.Filesystem.Rmdir` | fisopfs/fisopfs.c:472-485 | the code is `Files.Rmdir`, and saves the tree after |
| `Fisopfs.Filesystem.EliminarInode` | fisopfs/fisopfs.c:110-142 | the two loops on the array of children are `Files.Eliminar` |
| `Fisopfs.Filesystem.AgregarHijo` | fisopfs/fisopfs.c:144-157 | the new child goes last |
| `Fisopfs.Filesystem.Escribir` | fisopfs/fisopfs.c:428-455 | the code is `Files.Write` |
| `Fisopfs.Filesystem.Leer` | fisopfs/fisopfs.c:401-426 | the bytes between the offset and the end of file or request, whichever comes first |
| `Fisopfs.Filesystem.Truncar` | fisopfs/fisopfs.c:535-571 | the code is `Files.Truncate` |
| `Fisopfs.Filesystem.Guardar` | fisopfs/fisopfs.c:161-186 | the recursive writes append `Image.Save` of the tree |
| `Fisopfs.Loader.CargarInode` | fisopfs/fisopfs.c:188-220 | the recursive reads build the tree of `Image.Load` at new addresses and stop where it stops |
| `Kdebug.RoundTerminates` | sched/kern/kdebug.c:68-94 | every round shortens a measure on every table, sorted or not, even where addr wraps |
| `Kdebug.SearchBrackets` | sched/kern/kdebug.c:59-106 | on a table in order the region brackets addr, unless a stab at addr is followed by one at addr + 1 or lies at the largest address |
| `Kdebug.SearchBracketsExactly` | sched/kern/kdebug.c:79-93 | it brackets addr if and only if the search meets its address at most once |
| `Kdebug.SearchRight` | sched/kern/kdebug.c:59-106 | for every address, exactly when the region is right, as a condition on the table |
| `Kdebug.OvershootMeans` | sched/kern/kdebug.c:79-93 | that condition: a stab at addr + 1 is not yet cut off when the plain bisection first probes one at addr |
| `Kdebug.LargestAddressExactly` | sched/kern/kdebug.c:87-93 | at the largest address if and only if no stab is there |
| `Kdebug.ConsecutiveAddresses` | sched/kern/kdebug.c:87-93 | a table of two stabs on which the answer is wrong |
| `Kdebug.LargestAddress` | sched/kern/kdebug.c:87-93 | a table of one stab on which the answer is wrong |
| `Kdebug.StabBinsearch` | sched/kern/kdebug.c:59-106 | the loops are `Kdebug.BinSearch` |
| `Numbers.PrintedPads` | sched/lib/printfmt.c:36-55 | the output is the numeral padded on the left |
| `Numbers.PrintedLength` | sched/lib/printfmt.c:36-55 | its length is the larger of width and number of digits |
| `Numbers.Printnum` | sched/lib/printfmt.c:36-55 | the recursion emits that output |
| `Numbers.ReadNumber` | sched/lib/string.c:246-291 | the loops are `Numbers.Strtol` |
| `Numbers.ReadPrinted` | sched/lib/string.c:246-291 | strtol reads back all of what printnum wrote and its number, exactly unless a lone 0 in base 16 stands before an x; the number is the same exactly below 2^31 |
| `Shell.SegmentsJoin` | shell/parsing.c:210-223 | the segments of a line joined by bars are the line |
| `Shell.ParseLeaves` | shell/parsing.c:210-223 | the tree is right-nested with the segments as leaves, in order, without the empty ones at the end |
| `Shell.NoneEmpty` | shell/parsing.c:210-223 | all of them if none is empty |
| `Shell.ParseBuffer` | shell/parsing.c:210-223 | parse_line builds that tree and cuts the buffer in place |
| `Shell.ExecWires` | shell/exec.c:176-223 | every command of every pipe tree runs in its place with descriptors 0, 1 and 2 only |
| `Shell.PlacesChain` | shell/exec.c:176-223 | the places form a chain from the outer input to the outer output, each joint a pipe of its own |
| `Shell.WaitersHoldPipes` | shell/exec.c:217-221 | a waiting process holds a pipe end if and only if there are two pipes or more |
| `Shell.LineWires` | shell/exec.c:176-223 | from the line to the processes: its segments run in order, chained and wired like that |
| `Shell.ExecCmd` | shell/exec.c:176-223 | the calls to pipe, fork, dup2 and close give `Shell.Exec` |

## Findings

What the proofs show the code does otherwise than its comments or its tests suggest. The model
follows the code.

- `env_page_alloc` loses its page if that was the last free one and the page table is missing as
  well; `page_insert` then fails and nobody frees it (`AddressSpace.EnvPageAllocOk`).
- `pgfault` tests `(err & FEC_WR) & !(...)`, a 2 against a 0 or 1, which is never true: it copies
  on every write fault to a mapped page, copy-on-write or not (sched/lib/fork.c:28).
- `fork` makes the page it runs on copy-on-write, so it faults on its own stack before it returns:
  it needs a page more than its child does, and another for a table if nothing is mapped near
  PFTEMP; with one page too few it panics after the copying is done (`Fork.UserFork`).
- Three system calls can break the lifecycle invariant: `sys_env_set_status` on an environment
  that runs on another CPU or waits for a message, `env_destroy` of one that is already DYING on
  another CPU, and `sys_ipc_recv`, which sets its flag before it rejects the address
  (`Lifecycle.TrapKeepsExactly`, `Lifecycle.HarmfulStates`).
- A message that offers a page to a receiver that wants none leaves the permission field as an
  earlier message set it, where 0 is documented (`Lifecycle.SendReports`).
- `user_mem_check` tests against UTOP although its comment says ULIM, and its sums wrap: a page at
  the very top passes (`Pmap.TopPagePasses`).
- Calls of `sched_yield` without curenv always start at slot 1, so environments that fork and
  exit in low slots starve the others (`Sched.ForkersStarve`).
- With esp exactly at UXSTACKTOP the frame starts one byte too low and the return address is
  damaged (`Frames.UnwindAtTop`).
- `stab_binsearch` misses its stab when it meets addr, steps on and meets addr + 1 too, and at the
  largest address (`Kdebug.SearchRight`, `Kdebug.LargestAddressExactly`).
- `strtol` reads past a printed 0 in base 16 when an x follows (`Numbers.ReadPrinted`).
- `buscar_inode` returns a file that lies on the way although names are left: the `unlink` handler
  then reports success and removes nothing, those of `write` and `truncate` change that file
  (`Files.BuscarExact`). This is about the handlers; a kernel that walks the path first may never
  call them with such a path.
- The `rmdir` handler reports success for the empty root and removes nothing
  (`Files.RmdirRemovesOne`); a kernel may refuse to remove a mount point before it comes to that.
- `mkdir` and `create` save the image before they add the entry (`Image.ImageLagsBehind`).
- The processes of the shell that wait for inner pipes keep the ends that the outer pipe gave
  them (`Shell.WaitersHoldPipes`).

## Left out

- Cow.RunRefines: duppage's two system calls are one step, programs do not share writable pages by sys_page_map or messages, and nothing faults inside the handler, whose slot PFTEMP is its own.
- Fork.UserFork: the memory part of fork; the upcall and status of the child are set by system calls of `Lifecycle`. What fork pushes on its own stack is not stored, only the fault of doing so is taken; the frame lies in one page.
- Fork.ForkAll: the same; the first fault finds the handler's code and data mapped.
- Fork.CopyAll: says nothing of the half-copied child when memory runs out; the program panics then.
- ForkRuns.ForkCopies: duppage is one step, as in `Cow.RunRefines`.
- Lifecycle.Kernel.Exofork: whether there is a page for the directory is a parameter here; `Spaces.ExoforkOk` computes it.
- Lifecycle.Kernel.IpcTrySend: the result of the page transfer is a parameter here; `Spaces.TrySendOk` computes it.
- Smp.SafeRuns: the three unguarded system calls are taken with their missing guards, the environment that the scheduler prefers is arbitrary, and an environment in ipc_recv makes no other system call but yielding or its own exit before it returns.
- Sched.NoStarvation: one CPU; the statistics of sched.c only print.
- AddressSpace.IpcPageOk: the sender has a page at srcva, as the code reads its entry unchecked. The same goes for `Spaces.TrySendOk`.
- AddressSpace.Reachable: no page is mapped 65535 times or more, as pp_ref is not checked for overflow.
- Pmap.Kernel.UserMemCheck: reads entries through the tables of the model; user_mem_assert, which destroys the environment, is not part of it.
- Files.InsertAddsOne: names below 64 characters; from there on buscar_padre copies past its buffer and crear_inode returns no inode. The same goes for unlink below a file.
- Fisopfs.Filesystem.Leer: the access time that read records.
- Fisopfs.Filesystem.Escribir: offset plus size does not wrap, and realloc succeeds.
- Fisopfs.Loader.CargarInode: images that end early, for which the code returns no inode or a partial one; `Image.Load` has no result there.
- Sieve.EveryInterleaving: pipe, fork, read and write succeed, and standard output is written line by line, so that printf is one step.
- Shell.LineWires: redirections, background commands, environment variables, builtins and argument splitting; pipe and fork succeed in the chain.
- Frames.RunActs: a handler writes whole words, not near the top of the exception stack in use, and its faults leave room for their frames.
- The accessed and dirty bits that the MMU sets in entries: no modelled code tests them.
- The kernel half of the address space, boot_map_region, mmio_map_region and the self-map beyond its use by fork: not counted by pp_ref.
- load_icode, env_create beyond its slot, device drivers, boot code and the check functions of pmap.c.
- fork_v0 and dup_or_share: the eager copy goes through UTEMP, which is a page of the parent like the others, and would need a weaker reference than a full copy.
- FUSE plumbing, getattr, readdir, utimens, open, users and groups.
- vprintfmt around printnum, and the rest of string.c.
- Registers and trap frames in the multi-CPU machine; memory ordering beyond the atomic exchange.
