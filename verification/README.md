# A verified model of the MPX kernel: processes, memory bring-up and text

MPX is a small cooperative x86 kernel. This project models four parts of it and proves what they
are for.

**Processes.** Process control blocks sit in four doubly linked queues. Which queue a block is in
is stored nowhere: it is worked out from two flags at every insertion and removal. On top runs a
cooperative scheduler that keeps the running block in no queue at all.

* `Processes` holds the block as a value, the priority insertion, and the stable sort by priority.
* `SystemState` is the whole system as one value: the queues, the running block, the kernel heap,
  and two history variables. `live` maps each block set up and not freed to its name; `arrived`
  lists the ready queue's members by latest insertion. Every system call and command is a step on
  it. `kpanic` and power-off are statuses in which nothing happens any more.
* `PcbQueues`, `Kernels` and `Dispatchers` are the same system on the heap: blocks with nullable
  `next` and `prev`, relinked in place. Each method is proved equal to its step in `SystemState`,
  so all that is proved about steps and runs holds of the linked structure.
* `Outcomes` says what each command and load achieves in terms of the queues before and after, with
  every name, priority, code and size written out.
* `Invariants`, `Scheduling`, `Commands`, `ResumingAll`, `Shutdown` and `ContextSwitch` prove the
  results over runs. `ContextSwitch` adds registers, stacks and the interrupt handler, and
  `WholeRuns` runs the process programs on them, from commhand's leaving to the return to kmain.

**Memory.** `FrameBitmaps`, `VirtualMemory` and `Allocators` model the frame bitmap, page tables
made on demand, `vm_init` and the two bump allocators. Page tables are rows of one array; that
freshly allocated physical memory reads as zero is an assumption (`Blank`), since a new page table
is never cleared. The kernel image ends at `p`, at least one page up, and addresses do not wrap.

**Decimal text.** `Decimals` says what decimal text is; `TextConversions` has `itoa`, `atoi` and
`itoBCD` with a 32-bit integer type, so that every intermediate result is shown to fit.

**Strings.** `Strings` has `strtok`, its static pointer included, and `strcmp`.

Some results are about where the code falls short of what one would expect, with the exact
condition.

* A waiting process is starved exactly when two others are strictly better (`StarvedIff`); with
  exits it waits for all of them but one to leave (`StarvedUntilExits`). `PlaceExact` tells its
  place at every moment.
* Suspending and resuming a ready process is no identity: it sends the process behind its equals,
  and changes nothing exactly when none waits behind it (`RequeueChanges`). After `load` it turns
  proc1 from the first of the five into the last (`SuspendResumeMoves`).
* A process is cut off by power-off exactly when it yields with nobody else ready (`CutOffIff`). An
  idle process prevents that (`AlwaysPowersOff`), but `block` looks at no class, so the operator can
  block idle: `CutOffFromBoot` gives such a run.
* `resume all` empties its queue exactly when no name to be resumed is found elsewhere first
  (`ResumeAllClearsIff`). In the program that is always so, because only commhand loads, and never
  under its own name (`ResumeAllFromBoot`). A process that loaded its own name would break it
  (`ResumeAllCanFail`); no caller in the program does that.

Where the code and its own words disagree, the code is followed. The commands report that names
have 1 to 16 characters, but `pcb_setup` refuses 16. `kmalloc` offers page alignment, but moves up
from an aligned address too, and ignores the request once the heap is in use. A name that
`block_pcb` or `unblock_pcb` does not find is dereferenced before the check for it; as page 0 is
unmapped by then, that is modelled as the page fault's panic.

Assumptions on processes, stated in `Allowed`: a process writes to no other's stack and does not
overflow its own; for the return to kmain also that it leaves kmain's saved registers alone
(`Spares`). That commands meet their side of both is proved (`Perform`).

## Model

| member | source | states |
|---|---|---|
| PcbQueues.PcbQueue.InsertByPriority | kernel/pcb.c:118-143 | the links after insertion spell the old sequence with the block before the first larger priority value, prev the exact mirror of next |
| PcbQueues.PcbQueue.LinkBefore | kernel/pcb.c:137-143 | relinking in front or in the middle adds the block at that place only |
| PcbQueues.PcbQueue.Append | kernel/pcb.c:145-165 | appending adds the block at the tail only, also to an empty queue |
| PcbQueues.PcbQueue.Unlink | kernel/pcb.c:190-200 | removing any member, head, middle, tail or only one, deletes just that one and clears its links |
| PcbQueues.PcbQueue.Search | kernel/pcb.c:83-91 | the walk, comparing by `strcmp`, finds the first block of a name along the queue, or there is none |
| Kernels.Kernel.Choose | kernel/pcb.c:103-115 | the queue is the one the two flags name |
| Kernels.Kernel.InsertLinks | kernel/pcb.c:96-167 | the chosen queue gains the block where it belongs, stably by priority in ready; the other three queues keep contents and elements |
| Kernels.Kernel.RemoveLinks | kernel/pcb.c:169-201 | the queue the flags name loses just this block; the other three are untouched, and the block is in none |
| Kernels.Kernel.Insert | kernel/pcb.c:96-167 | the linked structure refines insertion on values, and stays well linked |
| Kernels.Kernel.Remove | kernel/pcb.c:169-201 | the linked structure refines removal on values, and stays well linked |
| Kernels.Kernel.Find | kernel/pcb.c:76-94 | the first block of a name over the four queues in order; the running block is not looked at |
| Kernels.Kernel.Allocate | kernel/pcb.c:18-36 | two heap requests; a panic leaves the queues alone, a new block is at a fresh address with its context at the top of its stack |
| Kernels.Kernel.WriteFrame | kernel/pcb.c:64-72 | on a zeroed stack the stores give exactly the initial register frame, and no other memory changes |
| Kernels.Kernel.Setup | kernel/pcb.c:45-74 | a new block in no queue, its context at the top of its stack with the frame to start at the entry point, or NULL for long names, bad priorities and names in use |
| Kernels.Kernel.Suspend | user/pcb/ready.c:24-42 | result code and whole new state of `suspend_pcb`, with all invariants kept; no saved context can change |
| Kernels.Kernel.Resume | user/pcb/ready.c:93-110 | result code and whole new state of `resume_pcb`, and just which pointer left the suspended-ready list |
| Kernels.Kernel.ResumeAll | user/pcb/ready.c:116-135 | the pointer walk over the list that it unlinks from terminates and does what resuming each of the original names in turn does |
| Kernels.Kernel.Block | user/pcb/block.c:23-49 | whole new state, a missing name included, which `BlockOutcome` describes |
| Kernels.Kernel.Unblock | user/pcb/block.c:92-118 | whole new state, a missing name included, which `UnblockOutcome` describes |
| Kernels.Kernel.SetPriority | user/pcb/setPriority.c:9-36 | whole new state, which `SetPriorityOutcome` describes |
| Kernels.Kernel.Delete | user/pcb/init.c:143-167 | whole new state, which `DeleteOutcome` describes |
| Kernels.Kernel.Load | user/loadR3.c:21-24 | set up and insert, on the heap; only the new block joins the table, with its first context and frame |
| Kernels.Kernel.LoadTracked | user/loadR3.c:21-24 | and after it every saved context is known, the new block has the frame to start at its program, and the stacks of waiting processes and the memory below the heap are left alone |
| Kernels.Kernel.LoadR3 | user/loadR3.c:19-31 | the five loads in order; each block that they add has its first context and the frame to start at the program of its name, and the stacks of waiting processes and the memory below the heap are left alone |
| Kernels.Kernel.LoadR3Suspended | user/loadR3.c:34-41 | the five loads, then the five suspensions by name, likewise |
| Kernels.Kernel.LoadProcess | user/loadR3.c:44-72 | the load of one of the five names, or nothing, likewise |
| Kernels.Kernel.AllocMem | lib/core.c:51-54 | any other request gets the end of the heap, which moves by it, or panics; the queues and all invariants are kept |
| Kernels.Kernel.Idle | kernel/sys_call.c:37-58 | the IDLE branch on the queues: head read before the yielder is reinserted, running block in no queue, saved contexts kept |
| Kernels.Kernel.Exit | kernel/sys_call.c:61-75 | the EXIT branch on the queues: the running block freed, the head runs, or power-off |
| Dispatchers.Dispatcher.SysCall | kernel/sys_call.c:26-83 | `sys_call` on the linked structure, memory, saved contexts and kernel context is exactly the step that the context-switch results are about, in all branches |
| Dispatchers.Dispatcher.PushContext | kernel/sys_call_isr.s:7-16 | the stores of the trap and the handler are the pushes in order |
| Dispatchers.Dispatcher.Trap | kernel/sys_call_isr.s:5-27 | pushes, call and pops on the heap are exactly the interrupt that the context-switch results are about |
| Dispatchers.Dispatcher.Perform | kernel/comhand.c:70-172 | any command on the heap is exactly the command step of those results and one that they allow; every block that it adds will start at its own program, however long it waits; kmain's saved registers are left alone |
| Dispatchers.Kmain | kernel/kmain.c:93-100 | booting by allocation, two loads and the first trap reaches the boot state and the machine that the results from boot start with: control at the entry point of commhand on its own empty stack, and idle to start at its own when its turn comes |
| Invariants.OnePlace | kernel/pcb.c:103-115 | a live block is in exactly one queue once, or running, never both; nothing else is queued |
| Invariants.Found | kernel/pcb.c:76-94 | a found block is in the queue its flags name; with none found no queued block has the name |
| Invariants.MoveKeeps | user/pcb/setPriority.c:32-34 | remove, change a flag or the priority, reinsert: partition, flags, stable order and spacing of blocks are kept |
| Invariants.IdleKeeps | kernel/sys_call.c:37-58 | a yield keeps all of them |
| Invariants.ExitKeeps | kernel/sys_call.c:61-75 | an exit keeps all of them |
| Invariants.StepKeeps | kernel/sys_call.c:26-83 | every system call and command keeps all of them |
| Invariants.RunKeeps | kernel/sys_call.c:26-83 | so does every run of them |
| Invariants.BootState | kernel/kmain.c:93-100 | after boot commhand runs at priority 0, only idle waits, at the lowest priority, and the invariant holds |
| Invariants.EveryRunFromBoot | kernel/kmain.c:93-100 | the invariant holds after any run of calls and commands from boot |
| Processes.StableSortHead | kernel/pcb.c:118-143 | the head of the ready queue's order is the oldest among the best |
| Scheduling.IdleShape | kernel/sys_call.c:34-55 | reading the head first amounts to inserting the yielder into the tail |
| Scheduling.DispatchesOldestBest | kernel/sys_call.c:34-74 | every dispatch, by IDLE or EXIT, picks the oldest by latest insertion of the best priority waiting, never the process that yields or leaves |
| Scheduling.RunTurns | kernel/sys_call.c:34-82 | a run of IDLE, READ and WRITE depends only on its number of yields |
| Scheduling.StarvedIff | kernel/sys_call.c:34-55 | no run of any length dispatches a waiting process, if and only if two processes, counting the running one, are strictly better |
| Scheduling.WaitExact | kernel/sys_call.c:34-55 | the exact number of yields until a process runs (i+1 from index i when none is better; 2i+1 or 2i when one is), and never sooner |
| Scheduling.ExactWait | kernel/sys_call.c:34-58 | up to that many yields, a run ends with the process running if and only if it has exactly that many |
| Scheduling.PlaceExact | kernel/sys_call.c:34-75 | over runs of any calls, for any number of better processes: a waiting process comes forward one place in each switch but those in which a better one yields past it, and runs when it has done so i+1 times |
| Scheduling.BoundedWait | kernel/sys_call.c:34-75 | over runs of all calls, exits included, and whoever is about: if all who yield meanwhile are no better, the process at index i runs if and only if i+1 switches are done; in any case not before that; and with at most one better about, within the wait for yields |
| Scheduling.StarvedUntilExits | kernel/sys_call.c:34-75 | over runs of all calls, for every k: k exits cannot bring a waiting process to run, whatever is called, if and only if at least k + 2 are strictly better |
| Scheduling.RoundRobin | kernel/sys_call.c:34-55 | equals of the best priority run in exact round robin; the state is back at multiples of their number only |
| Scheduling.Alternation | kernel/sys_call.c:49-55 | one strictly best process gets every second dispatch, the next group takes turns, with period exactly 2n |
| Scheduling.BootMix | user/loadR3.c:19-31 | from boot and `load`: commhand at even dispatches, the five processes in order at odd ones, idle never |
| Commands.LoadNames | kernel/pcb.c:45-55 | a load keeps names unique if and only if it does not succeed under the running process's name |
| Commands.RunNames | kernel/pcb.c:45-55 | names stay unique on every run whose loads avoid that name |
| Commands.NamesFromBoot | kernel/kmain.c:93-100 | names are unique on every run from boot in which only commhand loads, and not its own name |
| Commands.SomeRunsFromBoot | kernel/sys_call.c:26-83 | on every run from boot some process runs for as long as the machine is on |
| Commands.FoundMoved | user/pcb/ready.c:36-39 | a requeued process is found again under its name, in the queue of its new flags |
| Commands.BlockSuspendCommute | user/pcb/block.c:43-46 | block then suspend is suspend then block, on whole states |
| Commands.UnblockResumeCommute | user/pcb/block.c:112-115 | unblock then resume is resume then unblock, on whole states |
| Commands.ThreeRequeues | user/pcb/setPriority.c:32-34 | suspend-resume, block-unblock and setting the same priority give one and the same state |
| Commands.RequeueChanges | user/pcb/setPriority.c:32-34 | that state has the old ready queue if and only if no equal waits right behind the process |
| Commands.SuspendResumeMoves | user/pcb/ready.c:24-110 | and it does not have it after boot and `load`: suspending and resuming proc1 makes it the last of the five |
| Outcomes.MoveBecomes | kernel/pcb.c:96-201 | remove, change, reinsert: the block is in the queue of its new flags, last or behind its equals, and every other block stays in its queue and its order |
| Outcomes.SuspendOutcome | user/pcb/ready.c:24-42 | result code and effect: a user process becomes suspended, a system process is refused with -2, a suspended one with 1, an unknown name with -1 |
| Outcomes.ResumeOutcome | user/pcb/ready.c:93-110 | result code and effect: a suspended process becomes active, an active one is refused with 1, an unknown name with -1 |
| Outcomes.BlockOutcome | user/pcb/block.c:23-49 | a process of any class becomes blocked; a missing name panics and changes nothing else |
| Outcomes.UnblockOutcome | user/pcb/block.c:92-118 | a process of any class becomes ready; a missing name panics and changes nothing else |
| Outcomes.SetPriorityOutcome | user/pcb/setPriority.c:9-36 | a user process has the new priority, behind its new equals if it is ready, and is found with it; a system process or a priority outside 0 to 9 is refused |
| Outcomes.DeleteOutcome | user/pcb/init.c:143-167 | a user process is in no queue, not live and not found any more, all others as they were; a system process is refused |
| Outcomes.SystemProtected | user/pcb/ready.c:29-30 | suspending, setting a priority and deleting leave every system process where and as it is, under whatever name |
| Outcomes.ResumeAllOutcome | user/pcb/ready.c:116-135 | with unique names `resume all` as a step empties its queue into the stable sort and changes nothing else |
| Outcomes.LoadOutcome | kernel/pcb.c:45-74 | which loads are refused, which panic, and that else a ready, active block of the given name, class and priority waits behind its equals |
| Outcomes.LoadProcessOutcome | user/loadR3.c:44-72 | just the five names load, as user processes of priority 1 |
| Outcomes.LoadR3Outcome | user/loadR3.c:19-31 | from any system with room and the names free, all five are ready behind everything of priority 1, in order, and nothing else changes |
| Outcomes.LoadR3SuspendedOutcome | user/loadR3.c:34-41 | from any such system all five are last of the suspended-ready queue, in order, and nothing else changes, the ready queue included |
| Outcomes.LoadR3NoRoom | user/loadR3.c:19-41 | with room for n of the five, those n are loaded and the machine panics, before any is suspended |
| Outcomes.LoadSuspendedFromBoot | user/loadR3.c:34-41 | at the first prompt that leaves idle ready and the five suspended |
| Outcomes.AllocOutcome | kernel/core-c.c:315-327 | a request moves the end of the heap by its size, or panics past the window |
| Outcomes.StoppedStays | kernel/core-c.c:226-237 | after a panic or power-off nothing happens any more |
| ResumingAll.WalkStep | user/pcb/ready.c:129-133 | each step of the walk resumes the very block it met, or changes nothing because the name is found elsewhere |
| ResumingAll.ClearsWhenResumable | user/pcb/ready.c:116-135 | then the walk moves the suspended-ready queue, in its order, into ready, and nothing else changes |
| ResumingAll.ResumeAllClearsIff | user/pcb/ready.c:116-135 | `resume all` empties the queue if and only if each of its names is found there first and once |
| ResumingAll.UniqueNamesResumable | kernel/pcb.c:76-94 | unique names are enough for that |
| ResumingAll.ResumeAllSorts | user/pcb/ready.c:116-135 | with unique names, ready becomes the stable sort of old ready followed by old suspended-ready, and both blocked queues stay |
| ResumingAll.ResumeAllFromBoot | user/pcb/ready.c:116-135 | on every run from boot in which only commhand loads, `resume all` empties the queue into that stable sort |
| ResumingAll.ResumeAllCanFail | kernel/pcb.c:45-55 | a run from boot, with a load that no caller in the program makes, after which a block is left behind |
| Shutdown.R3Proc | user/core.c:60-79 | the calls of a process are WRITE and IDLE in each round, then WRITE and EXIT, place by place |
| Shutdown.R3RunIs | user/core.c:60-79 | they are the rounds one after the other, and then the last two |
| Shutdown.R3Yields | user/core.c:69-72 | so it yields exactly once a round |
| Shutdown.ScriptCalls | user/core.c:60-79 | a program of given calls makes just them, in order |
| Shutdown.IdleLoopCalls | user/core.c:124-132 | the idle process makes WRITE and IDLE in turn, without end |
| Shutdown.ProceedProgress | kernel/sys_call.c:37-75 | every call of any process lowers a measure of work left, or is the last: an EXIT or IDLE with nobody ready |
| Shutdown.AlwaysPowersOff | user/core.c:60-89 | any number of finite processes, at any priorities, and at most one idle loop reach the return to kmain within that many calls; the last call is an EXIT, after which none is left, or an IDLE, and then its caller has the processor; with an idle loop about that caller is the idle process |
| Shutdown.CutOffIff | kernel/sys_call.c:38-40 | a call powers off under a process that still has the processor if and only if that process yields with nobody ready |
| Shutdown.CutOffFromBoot | user/pcb/block.c:23-49 | a run from boot in which only commhand loads and that powers off under proc1: idle is blocked, proc1 loaded, commhand exits, proc1 yields |
| Shutdown.LoadedGoesDown | user/core.c:60-131 | the machine that boot and `load` give, when commhand exits, is such a machine for any numbers of rounds: it goes down within a bound with only idle left |
| ContextSwitch.EntryMatchesStruct | kernel/sys_call_isr.s:7-16 | what the trap and the handler push is `struct context`, each register under its own name, and nothing else in memory changes |
| ContextSwitch.PushOrder | kernel/sys_call_isr.s:7-16 | each register is at the distance below the old stack pointer where the processor and the handler push it |
| ContextSwitch.ExitMatchesStruct | kernel/sys_call_isr.s:18-27 | what the handler pops is what the struct holds |
| ContextSwitch.TrapFrozen | kernel/sys_call.c:50-55 | any call by another process leaves a waiting process's context and stack alone, or resumes it with them |
| ContextSwitch.TrapSane | kernel/sys_call.c:26-83 | stacks of live blocks stay apart, and every saved context lies in its own stack |
| ContextSwitch.Transparency | kernel/sys_call_isr.s:5-27 | through any interleaving a waiting process stays frozen until it runs again, or is freed |
| ContextSwitch.YieldIsTransparent | kernel/sys_call.c:50-55 | a process that yields runs again with every register it had but eax, which is -1, and with its stack as it was |
| ContextSwitch.ApplySane | kernel/sys_call.c:26-83 | computing, calling and issuing commands all keep what that needs |
| ContextSwitch.BootSane | kernel/kmain.c:93-100 | which holds when kmain is about to make the first trap |
| ContextSwitch.FirstTrapBoots | kernel/kmain.c:100 | that trap gives the boot state and leaves through the context set up for commhand |
| ContextSwitch.TransparentFromBoot | kernel/sys_call.c:50-55 | transparency after any allowed run from the first trap on, with nothing assumed of the state in between; that some process runs is proved |
| ContextSwitch.KernelStays | kernel/sys_call.c:29-31 | once a process runs, the kernel's context stays that of the first trap, over any allowed run |
| ContextSwitch.ReturnsToKmain | kernel/sys_call.c:38-67 | when the machine goes down, after any allowed run that leaves kmain's saved registers alone, control is back in kmain with every register of its trap but eax, which is -1 |
| WholeRuns.TrapProceeds | kernel/sys_call.c:26-83 | an interrupt whose eax is the next call of the program does to the queues what that call does |
| WholeRuns.CallsCounted | user/core.c:60-89 | every run in which processes compute anything and make the calls of their programs ends at exactly one number of calls, with the queues as the programs leave them |
| WholeRuns.ShutdownReturns | kernel/sys_call.c:37-67 | from boot, any allowed run to a state of finite programs and at most one idle loop, then any such run: a fixed number of calls within the measure takes the machine to kmain with its registers, and such a run exists |
| WholeRuns.LoadAtPrompt | user/loadR3.c:19-31 | `load` right after the first trap gives the state that the next result starts from |
| WholeRuns.LoadedReturns | user/core.c:60-131 | in particular after `load` at the first prompt, for any numbers of rounds, with an explicit bound and only idle left |
| ContextSwitch.NewProcessStarts | kernel/pcb.c:64-72 | however long it waits, a new process first runs at its entry point, with its initial registers on an empty stack |
| ContextSwitch.FramedStart | user/loadR3.c:19-72 | so does every block that a command adds with such a frame, each at the program of its name |
| ContextSwitch.BootIdleStarts | kernel/kmain.c:97-100 | and the idle process, set up before the first trap |
| FrameBitmaps.FullWord | kernel/core-c.c:388 | a word is all ones if and only if each of its 32 bits is set |
| FrameBitmaps.SetOneBit | kernel/core-c.c:402 | setting a bit changes that bit and no other |
| FrameBitmaps.Bitmap.FindFree | kernel/core-c.c:384-394 | the least frame not in use, or -1 if and only if all are |
| FrameBitmaps.Bitmap.SetBit | kernel/core-c.c:397-403 | the set of used frames gains exactly the frame of the address |
| FrameBitmaps.HandsOutInOrder | kernel/core-c.c:384-426 | successive least unused frames from an empty set are 0, 1, 2 and so on without repeats, and after the last frame none |
| VirtualMemory.Vm.NewFrames | kernel/core-c.c:409-426 | any sequence of `new_frame` calls on different zeroed entries from an empty bitmap does just that, and panics if and only if the frames run out |
| Allocators.GrantMoves | kernel/core-c.c:355-381 | one request gets the stretch at the front: page-aligned and past the old end if so asked before the heap is on, inside the window afterwards |
| Allocators.RegionsDisjoint | kernel/core-c.c:355-381 | over any run of requests, across the switch to the heap, each region starts after all before it have ended, unless physical memory has grown into the heap window |
| VirtualMemory.BringUpEnds | kernel/core-c.c:428-464 | the requests of memory bring-up leave physical memory 64 KB short of the end of the identity mapping, whatever is asked for afterwards |
| VirtualMemory.NoOverlapEver | kernel/core-c.c:428-464 | when memory comes up at all, no two regions ever handed out overlap, those of bring-up and all later ones, without exception |
| VirtualMemory.MovingBound | kernel/core-c.c:442-444 | the bound that the loop itself raises is met exactly at a closed form of the image's end |
| VirtualMemory.FitsIff | kernel/core-c.c:442-450 | frames suffice if and only if the kernel image ends below 0x3FBC000 |
| VirtualMemory.Vm.GetPage | kernel/core-c.c:332-353 | an existing table is reused, a missing one is allocated once and entered with its physical address in both memory phases, or NULL |
| VirtualMemory.Vm.Kmalloc | kernel/core-c.c:355-381 | the method agrees with the allocator function; the physical address reported is the page's frame plus the offset |
| VirtualMemory.Vm.NewFrame | kernel/core-c.c:409-426 | a zeroed entry gets the least unused frame, which is marked, and becomes present, writeable and not open to user mode; any other entry is left alone |
| VirtualMemory.Vm.IdentityMap | kernel/core-c.c:439-444 | the loop terminates, panics if and only if its pages outnumber the frames, and maps each page to the frame of its number |
| VirtualMemory.Vm.VmInit | kernel/core-c.c:428-464 | what memory bring-up leaves, entry by entry, and exactly when it panics instead |
| VirtualMemory.Vm.FramesNotShared | kernel/core-c.c:439-450 | distinct present pages have distinct frames, all marked as used |
| VirtualMemory.Vm.PagesAreTheKernels | kernel/core-c.c:422-425 | after bring-up every present page is writeable and closed to user mode, and just the used memory with its margin and the heap window are present |
| VirtualMemory.Vm.UsedMemoryIsIdentity | kernel/core-c.c:442-453 | address 0 is unmapped with its frame reserved; all used memory and 64 KB more is reached at its own address |
| VirtualMemory.Vm.TablesReachThemselves | kernel/core-c.c:343-348 | the directory and all tables are page-aligned, apart from each other and past the image, and identity-mapped |
| VirtualMemory.Vm.EntriesApart | kernel/core-c.c:272-288 | different page entries are different words of memory, past the directory and mapped to where they are |
| VirtualMemory.Vm.HeapIsMapped | kernel/core-c.c:448-450 | every heap byte is in a present page, and the window is one stretch of physical memory |
| VirtualMemory.Vm.SysAllocMem | lib/core.c:51-54 | every byte of a block handed out is mapped, contiguously, and paging is not disturbed |
| Decimals.Canonical | kernel/itoa.c:11-73 | digits only, no leading zero, and the exact length for the value |
| Decimals.PaddedIsDigits | kernel/itoa.c:53-65 | dividing by falling powers of ten gives the same text as dividing by ten from the back |
| Decimals.ReadAs | lib/stdlib.c:4-29 | a text of blanks, a sign or none, digits or none, and something else is read as the positional value of the digits under the sign |
| Decimals.ReadingExists | lib/stdlib.c:4-29 | every text has that form, so that what is read of it is known |
| Decimals.RoundTrip | lib/stdlib.c:4-29 | reading the text of any integer gives that integer, also with any of the six blank characters before it, a plus sign, and a non-digit after |
| Decimals.BcdRoundTrip | kernel/itoBCD.c:29-95 | four bits a digit can be decoded back to the digits |
| TextConversions.MaxPower | kernel/itoa.c:11-20 | the loop finds one less than the number of digits |
| TextConversions.Itoa | kernel/itoa.c:1-74 | the buffer holds the canonical text and NUL and is otherwise unchanged, without overflow |
| TextConversions.Atoi | lib/stdlib.c:4-29 | the value of any text whose magnitude fits, as `ReadAs` gives it, without intermediate overflow |
| TextConversions.PrintedIsReadable | lib/stdlib.c:4-29 | what `itoa` wrote meets what `atoi` needs and is read back as the same number |
| TextConversions.CountDigits | kernel/itoBCD.c:10-14 | the number of digits of a positive number, none for others |
| TextConversions.ItoBCD | kernel/itoBCD.c:1-101 | for a positive number the four-bit form of each character of its decimal text, in order, from which that text can be read back; else the empty text |
| Strings.FieldsAreStretches | lib/string.c:44-91 | fields are the whole stretches between delimiters: put back together with the delimiters they are the string |
| Strings.TokensMean | lib/string.c:44-91 | tokens are exactly the fields that are not empty |
| Strings.TokensInOrder | lib/string.c:44-91 | and they come in the order of the fields |
| Strings.TakesFirst | lib/string.c:59-87 | where one call stops is the first token, and what it leaves has the other tokens |
| Strings.SkipDelimiters | lib/string.c:59-66 | the loop that starts on the set again after each match terminates and skips just the leading delimiters |
| Strings.Tokenizer.Strtok | lib/string.c:44-91 | the token's place, the static pointer, and the one character overwritten |
| Strings.AllTokens | lib/string.c:44-91 | calls until NULL give exactly the tokens of the original string, all still readable in place, with only delimiters after tokens overwritten |
| Strings.Strcmp | lib/string.c:5-20 | zero if and only if the strings are equal, else the difference where they first differ |
| Strings.TerminatedText | lib/string.c:5-20 | a name stored with its terminator reads back as the name |

## Left out

- Port I/O, interrupt and descriptor tables, device drivers, the clock and alarms: hardware effects and finite byte domains.
- comhand's own parsing, help, version, exit and show commands and all message text: user interface; commands start from the parsed name and priority. READ and WRITE have no effect on the queues.
- ContextSwitch.TransparentFromBoot: rests on the assumptions in `Allowed`; segment and control registers that the handler does not save are not modelled.
- WholeRuns.ShutdownReturns: that processes make the calls of their programs in order, and that no commands come once commhand has left, is assumed (`Performs`); the instructions between the calls are arbitrary.
- VirtualMemory.Vm.GetPage: page tables are rows of one array rather than memory at the addresses handed out; that those addresses are disjoint is proved apart (`TablesReachThemselves`, `NoOverlapEver`), as is that no two entries would share a word there (`EntriesApart`).
- VirtualMemory.Vm.NewFrame: the accessed, dirty and reserved bits of an entry are not modelled.
- Allocators.RegionsDisjoint: addresses are unbounded, so 32-bit wrap-around is not modelled.
- TextConversions.Itoa: the least 32-bit integer is excluded, as its negation overflows in the source.
- TextConversions.Atoi: texts whose value does not fit are excluded, as the source overflows on them.
- User-supplied heap functions: nothing installs any, so freeing never reuses memory.
- `strncpy`, `strncmp`, `strlen`, `memcpy`, `memset`: they would only add easy members.
- The second, endless part of a process after its EXIT (`user/core.c:81-88`): never reached while EXIT does not return.
