# A verified model of a 3DS emulator's kernel

This project models, in Dafny, the parts of the emulator whose correctness depends on several
lists, maps or flags staying in step, and proves what they are meant to keep. Identifiers stand for
pointers; a weak pointer that no longer locks is an identifier that is gone from its map. Every
assert, contract check and exception of the modelled code is an explicit fault outcome, so that
"this check never fires" is a theorem and not an assumption.

`dafny verify dfyconfig.toml` checks everything.

## What is modelled

* **Thread synchronisation** (`Kernel*.dfy`). Events, semaphores, mutexes, timers and thread ends;
  `observers` and `wait_list`; the ready, waiting and timer queues; the system calls, the passing of
  time, and the dispatcher loop. `Kernel` holds the step functions, `KernelInvariants`,
  `KernelWaiting` and `KernelRuns` the invariants and their proofs over every run from boot,
  `KernelFacts` reads the invariants out, `KernelEffects` and `KernelServing` say who gets an announced
  object and what is left of it, `KernelWaits` what a wait does and when it times out, `KernelCalls` what
  the other calls do, `KernelOwners` that nobody waits for itself, `KernelQueues` that runnable threads are
  queued and take turns, `KernelTimeouts` that no timeout is lost, `KernelEndings` what becomes of threads
  that exited, and `KernelMachine` has the loops that change the queues in place, proved equal to the
  step functions.
* **The IPC rendezvous** (`Rendezvous.dfy`): one session, any number of client threads, one server
  thread, all interleavings between thread switches.
* **Physical memory** (`Intervals`, `Blocks`, `PhysicalMemory`): the first-fit allocator with owners
  and full merging, and process teardown.
* **Address spaces** (`AddressSpace`, `IpcBuffers`, `CodeLoading`): the interval map of a process
  against the partial function from address to physical address and permissions it stands for;
  IPC buffer mapping; from a loader's memory to code set to process.
* **Memory hooks** (`HookLists`, `MemoryHooks`, `HookHandlers`): per-page lists of hooked ranges, the
  backed/unbacked notifications, and which handler serves which byte.
* **Smaller machines**: the exclusive monitor under preemption (`ExclusiveMonitor`), the debugger's
  pause and step handshake as atomic reads and writes (`PauseHandshake`), load and store multiple
  (`LoadStoreMultiple`), frame rotation between renderer and display (`DisplayFrames`).

Some promises turn out to be false of the code as it stands. Each has a concrete counterexample and
the exact condition under which the code does what a caller expects:

* A thread that exited keeps its entry in the waiting queue. If that comes due, the thread is put back
  into the ready queue, and if its last reference goes after that (a closed handle, the end of a process
  that has the handle, a last waiter that gives up), the dispatcher dereferences a null pointer: `KernelEndings.GoneEntriesExactly`, `KernelEndings.LeftoverTimeoutIsFatal`.
* `UnmapVirtualMemory` damages a neighbour (or fails its own contract) on a range with a hole that is
  followed by a mapped byte: `AddressSpace.UnmapExact`, `AddressSpace.UnmapMovesNeighbour`.
* Reprotecting a range gives away its frames unless they are contiguous:
  `AddressSpace.ReprotectExact`, `AddressSpace.ReprotectLosesFrame`.
* A mapped IPC buffer shows wrong bytes if a chunk of the client ends inside a page before the end of the
  buffer: `IpcBuffers.AliasIffPaged`, `IpcBuffers.HalfPagesRepeat`.
* The reply to a mapped IPC buffer takes bytes of the server's own, or leaves some of the window, unless the
  window starts a page: `IpcBuffers.ReplyRestores`, `IpcBuffers.ReplyDamagesServer`.
* A failing `ClearHook` can leave subscribers with a stale view: `MemoryHooks.ClearMisleadsExactly`,
  `MemoryHooks.FailedClearMisleads`.
* Clearing zero bytes inside a hook splits it into touching ones: `HookLists.ClearExact`,
  `HookLists.EmptyClearSplits`.
* A hook that touches one with another handler gets that handler, or gives the hook behind it the handler of the
  one in front: `HookHandlers.HandsAsAskedIff`, `HookHandlers.SetHands`.
* A debugger that steps right after pausing can block both sides: `PauseHandshake.StepStuckIff`,
  `PauseHandshake.MissedPulse`.
* A word that shares its granule with a counter can make it lose an update:
  `ExclusiveMonitor.LostUpdateExactly`, `ExclusiveMonitor.NeighbourLosesUpdate`.
* A replied client stays asleep behind another observer: `Rendezvous.WakesAtOnce`,
  `Rendezvous.ReplyWithoutWakeUp`.
* Store multiple in a privileged mode saves the user bank: `LoadStoreMultiple.PushPopRestores`.

## Model

| member | source | states |
|---|---|---|
| KernelInvariants.UnregisterAllExact | source/os.cpp:1099-1104 | unregistering a thread from a list of objects it is registered with never trips the assert, and removes exactly as many registrations per object as the list names, of no other thread |
| KernelInvariants.TryAcquireLinks | source/os.cpp:1084-1093 | a successful acquisition takes exactly one registration out of an otherwise matching wait relation |
| KernelInvariants.TryAcquireBooks | source/os.cpp:1164-1265 | an acquisition keeps semaphore counts in bounds and equal to given minus taken, mutex lock counts equal to taken minus given; it fails only on an unavailable object and makes nothing available |
| KernelInvariants.AcquiredLinks | source/os.cpp:433-448 | the object is found on the wait list, no check fires, and both views of the wait relation agree again |
| KernelInvariants.GrantedOk | source/os.cpp:445-473 | a granted wait-any made exactly one acquisition, of the object at the wake index; a wait-all has acquired plus still awaits exactly what it listed |
| KernelInvariants.GrantStep | source/os.cpp:1571-1583 | one round of the wake-up loop: the observer was asleep, all invariants hold again, nothing became available, and the observer list got shorter |
| KernelInvariants.ReadyKeeps | source/os.cpp:1564-1584 | the wake-up loop ends, trips no check, keeps all invariants, and leaves nobody asleep on the object if it is still available |
| KernelInvariants.TimersKeep | source/os.cpp:5768-5777 | running expired timers keeps everything and leaves nobody asleep on an expired timer |
| KernelInvariants.InterruptsSettle | source/os.cpp:5380-5392 | signalling all events bound to fired interrupts keeps the invariants, and no object ends up available with somebody asleep on it that did not start so |
| KernelInvariants.ExpireKeeps | source/os.cpp:5820-5837 | a timeout never trips the unregister check, leaves a sleeping thread ready with an empty wait list and the timeout code, and keeps everything else |
| KernelInvariants.TimeoutsKeep | source/os.cpp:5816-5841 | the loop over the waiting queue, with its erasures, keeps everything |
| KernelInvariants.ElapseSettles | source/os.cpp:5754-5841 | after the clock moved by any amount nobody sleeps on anything available, expired timers included, and running threads still run |
| KernelWaiting.ScanKeeps | source/os.cpp:2916-2948 | the initial scan acquires for a wait-any at most one object and for a wait-all exactly those it takes off the list, and trips no check |
| KernelWaiting.WaitKeeps | source/os.cpp:2872-2968 | a wait by a running thread, with any handles (repeated ones too), mode and timeout, keeps all invariants or fails for a reason that is the program's and not an internal check |
| KernelWaits.TryExact | source/os.cpp:1164-1265 | an acquisition succeeds exactly if the object is available to that thread, faults exactly at a mutex whose owner is gone, and leaves the object as its kind and reset type say; stated without the acquisition functions |
| KernelWaits.WaitAnyExact | source/os.cpp:2872-2968 | a wait for any of some objects takes the first that can be acquired, reports its position and leaves no trace at the others; if there is none the thread sleeps behind the other observers of all of them; it faults exactly at an orphaned mutex before that |
| KernelWaits.WaitOne | source/os.cpp:2872-2968 | a wait for one object by kind: a signalled sticky event stays signalled and a one-shot event does not, the owner of a mutex locks it once more, timers change by their reset type, the end of a thread is there to stay; in all other cases the thread sleeps |
| KernelWaits.HandlesChecked | source/os.cpp:2876-2913 | an invalid handle in third and last place is ignored; any other handle that names no object makes the wait fail, and nothing else does so with that error |
| KernelWaits.WaitTimesOut | source/os.cpp:2893-2960 | a thread that began to wait with timeout n and is not served when the clock moves times out if and only if the clock moved by n or more, for every n but -1 whose end can be represented; with -1 it never does; and it is not served if none of its objects is signalled or expires |
| KernelWaits.ServedBeforeTimeout | source/os.cpp:5768-5841 | a thread that waits for any of some objects, one of them a sticky event whose interrupt fires, is served and does not time out, even if its time has come |
| KernelWaits.ElapseRecord | source/os.cpp:5754-5841 | what the passing of time does to any one thread, awake or asleep |
| KernelWaits.SleepWakes | source/os.cpp:2290-2305 | a thread that pauses for n is off the ready queue and ready again exactly if the clock moved by n or more |
| KernelWaits.ReadySpares | source/os.cpp:1564-1584 | announcing an object does not change a thread that does not observe it |
| KernelRuns.ExitSound | source/os.cpp:2233-2278 | ending a thread trips no internal check and keeps all invariants, so nobody is left asleep on a mutex it released or on its end |
| KernelRuns.DestroySound | source/os.cpp:2761-2855 | dropping an exited thread, stopped or made ready again, keeps all invariants if nobody waits for its end; what the ready queue then holds is stated by KernelEndings.DropHaunts |
| KernelRuns.PerformSound | source/os.cpp:2233-2520 | no system call of a running thread trips an internal check or breaks an invariant |
| KernelRuns.DispatchSound | source/os.cpp:5574-5692 | one turn of the dispatcher keeps all invariants and its own check that ready threads wait for nothing never fires; it dereferences a gone thread if and only if the front entry is of one, and resumes an exited thread that did not unwind if and only if that is at the front |
| KernelRuns.RunsAreSound | source/os.cpp:5510-5697 | whatever threads ask for and however time passes, every run from boot keeps all invariants, and stops only at faults that a program caused or that a leftover timeout of an exited thread led to |
| KernelFacts.WaitRelation | source/os.cpp:1084-1104 | in every reachable state a thread is among an object's observers exactly as often as the object is on its wait list, it sleeps exactly while the list is not empty, and every ready queue entry of a thread that exists is ready; entries of gone threads are characterised by KernelEndings.GoneEntriesExactly |
| KernelFacts.SleepersAreBlocked | source/os.cpp:1564-1584 | in every reachable state whoever observes an event, semaphore, mutex or thread end could not acquire it |
| KernelFacts.ResourcesAddUp | source/os.cpp:1164-1218 | semaphore counts stay within 0 and the maximum, a locked mutex has an owner, and counts match what was taken and given |
| KernelFacts.FinishedWait | source/os.cpp:2906-2968 | a wait that ended without timeout acquired exactly the object at the wake index, or each listed object as often as listed, and left no registration |
| KernelEffects.ReadyOnlyWakes | source/os.cpp:1564-1584 | the wake-up loop changes the books of its object only, no queue but the ready queue, and of the threads only sleeping ones, which become ready or stay asleep |
| KernelEffects.SignalOneShot | source/os.cpp:2430-2449 | signalling a one-shot event grants it to the first observer and changes no other thread; without an observer it stays signalled |
| KernelEffects.ReleaseAddsUnits | source/os.cpp:2404-2414 | a release that fits adds exactly its units, another adds none; afterwards nothing is available or nobody waits, and what is missing was acquired |
| KernelEffects.UnlockHandsOver | source/os.cpp:2381-2396 | releasing the last lock hands the mutex to the first observer, releasing an inner one keeps the owner |
| KernelServing.LastingServesAll | source/os.cpp:1564-1584 | announcing an object that stays available when it is acquired (a signalled sticky event, an expired sticky timer, the end of a thread) leaves it as it is and without observers: whoever observed it has been given it as often as it asked, and nobody else changed |
| KernelServing.SignalSticky | source/os.cpp:2430-2449 | signalling a sticky event leaves it signalled and without observers; every observer that waited for any object is ready, in the ready queue, and acquired exactly this event |
| KernelServing.TimerServes | source/os.cpp:1245-1265 | an expired timer with observers: afterwards a one-shot timer is off, a sticky one unchanged and a pulse timer runs for its period from now on; with a one-shot timer or a period exactly the first observer acquired it, once, and otherwise all of them did |
| KernelServing.InterruptsSignal | source/os.cpp:5380-5392 | every event bound to a fired interrupt is signalled with nobody asleep on it, or was a one-shot event and has been acquired since; the books of all other objects are untouched |
| KernelEffects.ExitStops | source/os.cpp:2233-2278 | a thread that ended is stopped, registered nowhere, in no ready queue entry, and nobody waits for its end any more |
| KernelTimeouts.TimeoutsFire | source/os.cpp:5816-5841 | the pass over the waiting queue leaves only entries whose time has not come, and loses nobody who waits for a point in time |
| KernelTimeouts.NobodyOversleeps | source/os.cpp:5754-5841 | over every run whoever waits with a timeout is in the waiting queue, and after the clock moved nobody is left whose time has come |
| KernelQueues.RunnableAreQueued | source/os.cpp:5510-5697 | over every run from boot a thread can run if and only if it is in the ready queue, so no thread that was woken, timed out, was created or gave way is forgotten |
| KernelQueues.TakeTurns | source/os.cpp:5952-5969 | threads that only give way to each other take turns: after k turns the first k have run once each and stand behind the others in the same order, and exactly the time that passed is on the clock |
| KernelQueues.WaitCosts | source/os.cpp:2949-2968 | a wait that is over at once costs the thread neither time nor its turn; one that is not lets time pass |
| KernelQueues.CallCosts | source/os.cpp:5952-5990 | for every other call, how far it moves the clock: sleeping and terminating another process not at all, reading the clock by its own ticks, all others by the time a reschedule lets pass |
| KernelQueues.PollingMovesClock | source/os.cpp:2987-3004 | a thread that polls the clock keeps its turn and the clock moves with every call, by exactly what the calls and the time in between add, and nothing else changes |
| KernelCalls.CreatesNew | source/os.cpp:2215-2481 | what each kind of new object starts as, that it is new and nobody waits for it, and that nothing else changed; a new thread is ready and last in the queue |
| KernelCalls.ClearedBlocks | source/os.cpp:2451-2466 | a wait for an event that was cleared sleeps, whatever happened to the event before |
| KernelCalls.TimerSet | source/os.cpp:2483-2496 | a timer set to n runs out n from now; it is acquired at once exactly if that is now and somebody waits for it |
| KernelCalls.TimerRings | source/os.cpp:2483-2496 | until the clock has moved by n it stays as it was set, and once it is expired nobody is asleep on it |
| KernelCalls.CloseUnlocks | source/os.cpp:2808-2813 | closing a handle to a mutex unlocks it once if the caller owns it and does nothing otherwise; a mutex that becomes free goes to its first observer |
| KernelCalls.RefusedExactly | source/os.cpp:2381-2496 | signalling, clearing, releasing, unlocking and setting a timer fail if and only if the call names no object of that kind, a mutex the caller does not own, or a negative time; closing a mutex never fails |
| KernelOwners.NobodyWaitsForItself | source/os.cpp:1084-1104 | over every run from boot no thread is an observer of a mutex that it owns, also if it asked for it several times and others wait for it too |
| KernelOwners.ReadyOwned | source/os.cpp:1564-1584 | the wake-up loop serves all registrations of the thread it gives a mutex to before it stops at another observer |
| KernelOwners.ExitGivesBack | source/os.cpp:2233-2278 | in every reachable state a thread can end if and only if it locked none of the mutexes it owns more than once; it then owns none of those its process has a handle to, and the mutexes of others are as they were |
| KernelEndings.ElapseRevives | source/os.cpp:5816-5841 | when the clock moves, an exited thread becomes ready exactly if it still has an entry in the waiting queue and its time has come |
| KernelEndings.DropHaunts | source/os.cpp:2761-2855 | dropping the last reference to an exited thread leaves an entry of a gone thread in the ready queue exactly if there was one or the thread had been made ready again |
| KernelEndings.DropAllHaunts | source/os.cpp:5899-5902 | closing the handles of an ended process leaves such an entry exactly if there was one or one of the threads they kept had been made ready again |
| KernelEndings.ExitsHaunt | source/os.cpp:5275-5309 | ending any threads one after the other does so exactly if a process that ends with one of them has the last handle to such a thread |
| KernelEndings.PerformHaunts | source/os.cpp:2233-2855 | of all calls, only closing the last handle to such a thread and ending a process that has it do that |
| KernelEndings.DispatchHaunts | source/os.cpp:5585-5692 | the same for a whole turn, at whose end the caller's own process may be torn down and last waiters may have given up; the dispatcher trips over such an entry exactly if it is at the front |
| KernelEndings.GoneEntriesExactly | source/os.cpp:5510-5697 | over every run from boot the ready queue has an entry of a gone thread if and only if some turn dropped the last reference to an exited thread after a leftover timeout had made it ready, be it by CloseHandle, by the teardown of a process or by a last waiter that gave up; the dispatcher dereferences a gone thread only after such a turn |
| KernelEndings.LeftoverTimeoutIsFatal | source/os.cpp:5585-5592 | a five-turn run from boot that ends in that dereference |
| KernelMachine.Os.Unregister | source/os.cpp:1099-1104 | removes the first occurrence of the thread |
| KernelMachine.Os.UnregisterAll | source/os.cpp:452-455 | the loop that clears remaining registrations does what its function says, or reports the assert |
| KernelMachine.Os.TryAcquire | source/os.cpp:1084-1093 | the acquisition changes object and observers as its function says |
| KernelMachine.Os.OnResourceAcquired | source/os.cpp:433-474 | in-place version agrees with its function, faults included |
| KernelMachine.Os.OnResourceReady | source/os.cpp:1564-1584 | the while loop agrees with its function, faults included |
| KernelMachine.Os.RunTimers | source/os.cpp:5768-5777 | the loop agrees with its function |
| KernelMachine.Os.FireInterrupts | source/os.cpp:5387-5391 | the loop agrees with its function |
| KernelMachine.Os.RunTimeouts | source/os.cpp:5816-5841 | the erasing loop agrees with its function |
| KernelMachine.Os.Expire | source/os.cpp:5820-5837 | the timeout of one thread agrees with its function |
| KernelMachine.Os.ElapseTime | source/os.cpp:5754-5841 | timers, then interrupts, then timeouts |
| KernelMachine.Os.Reschedule | source/os.cpp:5952-5969 | time passes, then the ready queue is rotated |
| KernelMachine.Os.Register | source/os.cpp:2906-2914 | registration loop agrees with its function |
| KernelMachine.Os.Scan | source/os.cpp:2916-2948 | the erasing scan loop agrees with its function |
| KernelMachine.Os.Wait | source/os.cpp:2872-2968 | the whole wait agrees with its function |
| KernelMachine.Os.ReleaseOwned | source/os.cpp:2238-2251 | the loop over the handle table agrees with its function |
| KernelMachine.Os.ExitThread | source/os.cpp:2233-2278 | agrees with its function |
| Rendezvous.RendezvousSound | source/os.cpp:3117-3159 | in every interleaving the queue of a client session has as many threads as there are unannounced, pending and in-service requests, no check fails, a client whose call returns had every request delivered and answered, and with an empty queue nobody sleeps |
| Rendezvous.StepKeeps | source/os.cpp:3762-3850 | every step keeps the rendezvous invariant and none of the non-empty, membership or sleeping checks fails |
| Rendezvous.ReceiveExact | source/os.cpp:3810-3812 | waiting for a request puts the server to sleep exactly if every queued request is still unannounced, and otherwise calls it; it never leaves it running with nothing to do |
| Rendezvous.RequestExact | source/os.cpp:3117-3159 | a request to an accepted session calls a sleeping server and is left pending otherwise; the client then sleeps as the last observer unless it was answered while it was spinning; before the session is accepted it spins |
| Rendezvous.LookExact | source/os.cpp:3835-3850 | a server that was called takes the request of the first queued thread and of no other |
| Rendezvous.ReplyExact | source/os.cpp:3762-3786 | a reply answers exactly the first queued thread and takes it out of the queue, the server is free again, and other clients change at most from sleeping to woken |
| Rendezvous.ResumeExact | source/os.cpp:3117-3159 | a call that returns leaves its client idle and everything else as it is |
| Rendezvous.EveryCallCanReturn | source/os.cpp:3117-3159 | no deadlock: after any run there is a continuation in which every call returns, all clients are idle, the queue is empty, and every request was answered |
| Rendezvous.ReplyMatchesRequest | source/os.cpp:3769-3786 | the thread that gets the reply is the one whose request is in service, and no other queued request has been delivered |
| Rendezvous.WakeKeeps | source/os.cpp:1564-1584 | the wake-up loop on a client session keeps the books and stops at the first observer without a reply |
| Rendezvous.WakesAtOnce | source/os.cpp:3784-3785 | a reply wakes its client at once exactly if that client is the first observer |
| Rendezvous.OvertakenReached | source/os.cpp:3117-3159 | the run from the start in which a client that was spinning falls asleep behind one that sent later, from which ReplyWithoutWakeUp goes on |
| Rendezvous.ReplyWithoutWakeUp | source/os.cpp:3124-3159 | a reachable example of a client that has its reply and stays asleep |
| Rendezvous.NotifyClients | source/os.cpp:1564-1584 | the loop equals its function |
| Blocks.CoalesceExact | source/os.cpp:1314-1333 | merging changes no byte's owner and no total size and leaves nothing to merge |
| Blocks.Defragment | source/os.cpp:1314-1333 | the in-place merge loop computes the merged list |
| Blocks.RunInOneBlock | source/os.cpp:1342-1350 | in a merged list, bytes in a row with one owner lie in one block |
| PhysicalMemory.AllocateExact | source/os.cpp:1287-1338 | hands out the lowest run of free bytes that is long enough, changes no other byte, and fails exactly if there is no such run |
| PhysicalMemory.DeallocateExact | source/os.cpp:1340-1400 | succeeds exactly on ranges that the given owner holds throughout, and frees exactly those bytes |
| PhysicalMemory.TransferExact | source/os.cpp:1402-1454 | succeeds exactly on ranges that the old owner holds throughout, and moves exactly those bytes |
| PhysicalMemory.AnySequenceTiles | source/os.cpp:1282-1469 | after any sequence of the three operations free and taken blocks tile the region, no two touching blocks of equal owner remain, and the total size is unchanged |
| PhysicalMemory.TeardownExact | source/os.cpp:5904-5914 | the restarting teardown loop ends with no block of the dead process; every other owner keeps exactly its bytes |
| PhysicalMemory.MemoryManager.constructor | source/os.cpp:1282-1285 | one free block that tiles the region |
| PhysicalMemory.MemoryManager.AllocateBlock | source/os.cpp:1287-1338 | the search loop agrees with its function, and the region stays tiled |
| PhysicalMemory.MemoryManager.TakeFrom | source/os.cpp:1297-1333 | the in-place split and merge of one free block agrees with its function |
| PhysicalMemory.MemoryManager.DeallocateBlock | source/os.cpp:1340-1400 | agrees with its function, each refusal included |
| PhysicalMemory.MemoryManager.TransferOwnership | source/os.cpp:1402-1454 | agrees with its function, each refusal included |
| PhysicalMemory.MemoryManager.Reassign | source/os.cpp:1421-1445 | erasing the block and inserting the new one and the remainders in place agrees with its function |
| PhysicalMemory.MemoryManager.ReleaseAll | source/os.cpp:5904-5914 | afterwards exactly the process's bytes are free, and the region is still tiled |
| PhysicalMemory.MemoryManager.Size | source/os.cpp:1456-1469 | sums the blocks |
| AddressSpace.MapExact | source/os.cpp:1622-1650 | succeeds exactly on an unmapped non-empty range, and adds exactly that range |
| AddressSpace.UnmapExact | source/os.cpp:1652-1710 | removes exactly the range and answers whether all of it was mapped, if and only if the range is mapped throughout or the byte behind it is not mapped |
| AddressSpace.UnmapsExactlyIf | source/os.cpp:1652-1710 | the sufficient half: however many blocks the range cuts through, exactly its bytes go |
| AddressSpace.UnmapGoesWrong | source/os.cpp:1663-1700 | the other half: the contract check fires or the translation behind the range changes |
| AddressSpace.UnmapFrame | source/os.cpp:1652-1710 | whatever the range, also where unmapping goes wrong: nothing below it changes, and nothing inside it becomes mapped |
| AddressSpace.UnmapTakesFirst | source/os.cpp:1663-1700 | and the first mapped byte of the range always goes |
| AddressSpace.UnmapMovesNeighbour | source/os.cpp:1694-1699 | a concrete map where unmapping moves a neighbouring page to other physical memory |
| AddressSpace.CutExact | source/os.cpp:1680-1700 | one round removes exactly the chunk's part of the range |
| AddressSpace.ResolveExact | source/os.cpp:1712-1750 | both lookups agree with the translation, and the reported chunk is contiguous with equal permissions |
| AddressSpace.FindAvailableExact | source/os.cpp:1752-1785 | for every size, the least address at or above the lower bound where there is room below the upper bound, none exactly if there is none; a range with bytes is unmapped there and mapping it succeeds |
| AddressSpace.MapUnmap | source/os.cpp:1622-1710 | mapping and then unmapping restores the map block for block |
| AddressSpace.ReprotectExact | source/os.cpp:2184-2202 | on a mapped range never fails and touches nothing else; frames are kept if and only if they are contiguous |
| AddressSpace.ReprotectLosesFrame | source/os.cpp:2184-2202 | a concrete map that loses a frame |
| AddressSpace.Process.MapVirtualMemory | source/os.cpp:1622-1650 | agrees with its function |
| AddressSpace.Process.UnmapVirtualMemory | source/os.cpp:1652-1710 | the recursive in-place version agrees with its function |
| AddressSpace.Process.TakeOut | source/os.cpp:1680-1700 | erases the chunk and puts the remainders back |
| AddressSpace.Process.FindAvailableVirtualMemory | source/os.cpp:1752-1785 | the loop agrees with its function |
| IpcBuffers.MappedSize | source/os.cpp:3658-3658 | whole pages, and just as many as the buffer touches |
| IpcBuffers.RequestAliases | source/os.cpp:3688-3720 | a request that succeeds fills a window of the server and changes no other address; unless a chunk of the client ends inside a page before the end of the buffer, every byte of the buffer is the same physical byte in both processes; success is exact when no chunk ends inside a touched page; an empty buffer maps and unmaps nothing |
| IpcBuffers.AliasIffPaged | source/os.cpp:3703-3717 | a successful request of a client that sees no physical byte twice shares the bytes of the buffer if and only if no chunk ends inside a page before the end of the buffer |
| IpcBuffers.WindowByte | source/os.cpp:3703-3717 | every byte of the window comes from the page of the loop position that mapped it, however the client's chunks are cut |
| IpcBuffers.HalfPagesRepeat | source/os.cpp:3704-3708 | two half-page chunks: the server sees the first half twice |
| IpcBuffers.ReplyRestores | source/os.cpp:3658-3720 | after any request that succeeded, the reply that names the address and size the server was given succeeds and restores its translation and permissions everywhere, if and only if that address has the page offset of the client's buffer |
| IpcBuffers.PagedServerRestores | source/os.cpp:3658-3720 | it always does in a server whose mappings all end at page boundaries |
| IpcBuffers.ReplyDamagesServer | source/os.cpp:3658-3683 | a server with a mapping of half a page: the reply answers success, unmaps the server's own bytes and leaves half of the window |
| IpcBuffers.MapBuffer | source/os.cpp:3703-3717 | the mapping loop agrees with its function |
| CodeLoading.CollectExact | source/os.cpp:4116-4129 | a section is taken exactly if it is mapped to the caller's memory, whole pages, no physical byte twice; the pieces are its bytes in order and exactly they change hands |
| CodeLoading.CodeSetExact | source/os.cpp:4098-4185 | exact condition for success of code set creation, and its effect on ownership and on the caller's map; the zero-initialised data are frames that were free |
| CodeLoading.BssLostExactly | source/os.cpp:4133-4142 | memory for zero-initialised data is taken but no part of the code set if and only if it starts at physical address zero, which happens exactly if there is room for it there |
| CodeLoading.ProcessImage | source/os.cpp:4293-4313 | creating a process from memory the code set holds never fails, hands all of it over, maps nothing outside the segments, and every segment is where it belongs if and only if no two segments claim the same address |
| CodeLoading.LoadingKeepsMeaning | source/os.cpp:4098-4313 | the new process maps nothing but the sections and, right behind the last one and with its permissions, frames that were free for the zero-initialised data; it sees in each section the physical bytes the loader had there, and all of the zero-initialised data, if and only if no two of these ranges share an address; it owns them, no other owner changed, and the loader no longer maps the sections |
| CodeLoading.UnmapAllExact | source/os.cpp:4178-4184 | the sections are unmapped exactly; it fails exactly on an empty section |
| CodeLoading.TakeSection | source/os.cpp:4118-4128 | the loop over one section agrees with its function |
| CodeLoading.PlaceSegment | source/os.cpp:4294-4298 | the mapping loop, which ignores the answer of the map call, agrees with its function |
| HookLists.SetExact | source/memory.cpp:1334-1377 | refused exactly if a byte is hooked already; otherwise exactly its bytes are added and the list stays sorted, disjoint and not touching |
| HookLists.ClearExact | source/memory.cpp:1417-1448 | removes exactly the bytes of the range, also of an empty one; the list stays sorted, disjoint and not touching if and only if there are bytes to clear or no hook straddles the address |
| HookLists.EmptyClearSplits | source/memory.cpp:1418-1428 | a concrete hook that an empty clear cuts into two touching ones |
| HookHandlers.HandsAsAskedIff | source/memory.cpp:1352-1377 | the bytes of a new hook get its handler and all others keep theirs if and only if the bytes right before and right behind it are not hooked or have the same handler |
| HookHandlers.SetHands | source/memory.cpp:1352-1377 | which handler every byte has after any hook was set, merged or not |
| HookHandlers.SetHookHandsIff | source/memory.cpp:1316-1390 | the same condition for both kinds of hooks on all pages of the bus |
| HookHandlers.ClearHookHands | source/memory.cpp:1402-1470 | clearing takes the handlers of exactly the range; what remains of a shortened or split hook keeps its handler |
| HookLists.InsertRange | source/memory.cpp:1334-1377 | the search loop and both refusals agree with the function |
| HookLists.Splice | source/memory.cpp:1352-1377 | extending, three-way merging and adding in place give the extended list |
| HookLists.RemoveRange | source/memory.cpp:1417-1448 | the walk that shortens, splits and drops in place ends and agrees with the function |
| MemoryHooks.SetHookExact | source/memory.cpp:1316-1390 | an in-page hook is refused exactly on overlap, hooks exactly its bytes of its kind, and keeps subscribers informed |
| MemoryHooks.ClearHookExact | source/memory.cpp:1402-1470 | for every length: fails exactly if a page of the range lacks hooks of a meant kind; otherwise exactly the range loses them, subscribers stay informed, and the lists keep their form if and only if there are bytes to clear or nothing straddles the address |
| MemoryHooks.ClearMisleadsExactly | source/memory.cpp:1411-1464 | after a clear, successful or not, subscribers are informed if and only if it is not the case that both kinds were to be cleared and the first page without one of them lost all its read hooks before its write hooks turned out to be missing |
| MemoryHooks.AnyRunInformed | source/memory.h:353-380 | over every sequence of successful calls the notifications of each page alternate, and a subscriber's view is exactly "no read and no write hooks"; unless a clear was empty the lists are sorted, disjoint and not touching |
| MemoryHooks.FailedClearMisleads | source/memory.cpp:1413-1464 | a concrete failing clear that leaves a stale view |
| MemoryHooks.PiecesTile | source/memory.h:599-604 | the pieces are non-empty, in-page, adjacent, and tile the request |
| MemoryHooks.GenerateExact | source/memory.h:593-610 | hooks exactly the bytes of the request on the pages for which the callback has a handler, and fails exactly if one of those is hooked |
| MemoryHooks.LookupContiguous | source/memory.cpp:1521-1568 | succeeds exactly if the range lies on the bus and no byte of it has a hook of a kind that matters |
| MemoryHooks.HookedMemory.Set | source/memory.cpp:1326-1385 | agrees with its function |
| MemoryHooks.HookedMemory.ClearOn | source/memory.cpp:1411-1464 | agrees with its function |
| MemoryHooks.HookedMemory.Clear | source/memory.cpp:1408-1466 | the page loop agrees with its function |
| MemoryHooks.HookedMemory.GenerateHooks | source/memory.h:593-610 | the piece loop agrees with its function |
| ExclusiveMonitor.StoreUndisturbed | source/interpreter.cpp:1326-1376 | in every interleaving a performed STREX was preceded by an LDREX of the same thread on the granule, and that thread was active at every point in between |
| ExclusiveMonitor.PairSucceeds | source/interpreter.cpp:1333-1376 | with only plain stores in between, LDREX and STREX of one thread on one address succeed from any state and store the value |
| ExclusiveMonitor.StrexExact | source/interpreter.cpp:1333-1376 | after an LDREX of a and only plain stores, a STREX of b throws if and only if a and b differ in a bit of 0xffffff8; otherwise it stores, and a second STREX stores nothing |
| ExclusiveMonitor.ReadsLastWrite | source/interpreter.cpp:1351-1376 | after any run an LDREX reads the value of the last plain store or performed STREX to its address, by whatever thread, or the word from the start if there was none |
| ExclusiveMonitor.CounterCounts | source/interpreter.cpp:1351-1376 | a counter updated only by LDREX, add, STREX equals its initial value plus the number of performed STREX, modulo 2^32 |
| ExclusiveMonitor.LostUpdateExactly | source/interpreter.cpp:1326-1376 | a performed STREX of one more than the thread's last LDREX of the counter counts if and only if the word is still the one it read; if it is not, the thread executed LDREX on another word of the granule in between |
| ExclusiveMonitor.StepMonitor | source/interpreter.cpp:2815-2836 | only the active thread can have a set monitor; system calls and preemption clear it |
| ExclusiveMonitor.HalfwayReached | source/interpreter.cpp:1326-1376 | the run from the start that leads to the state NeighbourLosesUpdate goes on from |
| ExclusiveMonitor.NeighbourLosesUpdate | source/interpreter.cpp:1326-1335 | an LDREX of another word in the granule lets a stale STREX through |
| PauseHandshake.HandshakeSound | source/interpreter.h:189-242 | in every interleaving each returned RequestPause and RequestStep left the core stopped, each returned RequestContinue left it running, each returned RequestStep ran exactly one instruction, and no assert of the handshake fails |
| PauseHandshake.PauseHolds | source/interpreter.cpp:3293-3311 | once RequestPause or RequestStep is about to return, or has returned, no instruction runs until a continue or a step is requested |
| PauseHandshake.ContinueRuns | source/interpreter.cpp:3293-3311 | once RequestContinue has returned, and before the first request, three steps of the core run exactly one instruction |
| PauseHandshake.ContinueCanReturn | source/interpreter.h:206-215 | from every reachable stopped state some schedule lets RequestContinue return, with the core running |
| PauseHandshake.PauseCanReturn | source/interpreter.h:189-204 | from every reachable running state some schedule lets RequestPause return, with the core stopped |
| PauseHandshake.StepStuckIff | source/interpreter.h:217-229 | a step that has raised the pause flag again never gets past releasing the core, in any schedule, if and only if the core has not seen the flag down; otherwise some schedule lets it return |
| PauseHandshake.MissedPulse | source/interpreter.cpp:3293-3298 | one run from the start: a debugger that steps right after pausing reaches that state, and no further events change it |
| LoadStoreMultiple.StmExact | source/interpreter.cpp:1660-1735 | in all four addressing modes the k-th lowest listed register is written to the manual's start address plus 4k, the program counter as the address of the instruction plus 8 modulo 2^32 and registers 8 to 14 of a privileged mode from the user bank; nothing else is written, and write-back is base plus or minus 4n |
| LoadStoreMultiple.LdmExact | source/interpreter.cpp:1660-1735 | the same for loading, including the jump and the encoding bit when the program counter is listed |
| LoadStoreMultiple.FirstIsStart | source/interpreter.cpp:1682-1683 | the handler's start expression is the manual's lowest address in all four modes |
| LoadStoreMultiple.AddressIsNewBase | source/interpreter.cpp:1687-1732 | the running address ends at base plus or minus 4n |
| LoadStoreMultiple.PushPopRestores | source/interpreter.cpp:1660-1735 | STMDB and LDMIA with write-back restore the base, and the listed registers if and only if the mode is User mode or the user bank agrees with them, whatever happened to the registers in between |
| LoadStoreMultiple.Processor.HandleLdmStm | source/interpreter.cpp:1660-1735 | the handler's loop agrees with its function |
| LoadStoreMultiple.CountListed | source/interpreter.cpp:1675-1680 | the counting loop counts the listed registers |
| DisplayFrames.FramesConserved | source/display.cpp:298-362 | in every interleaving each frame is in exactly one of retired, incoming, ready or the renderer's hands, so no push finds a full queue |
| DisplayFrames.SeekDiscardsOldest | source/display.cpp:327-362 | with increasing timestamps ready frames stay sorted, and a step of SeekTo discards only the oldest ready frame, older than the target, and keeps a newer one |
| DisplayFrames.SeekRetiresPrefix | source/display.cpp:347-360 | SeekTo as a whole retires the longest prefix of outdated frames, never the newest |
| DisplayFrames.SeekInSteps | source/display.cpp:327-362 | the steps of one SeekTo, with no renderer step in between, move all incoming frames and end with exactly the longest prefix of outdated frames retired |
| DisplayFrames.NextFrameCanBeShown | source/display.cpp:298-362 | the pipeline never gets stuck: after any run renderer and display can go on so that a new frame with any given timestamp is the newest one ready to be shown |
| DisplayFrames.StepConserves | source/display.cpp:298-362 | every queue operation keeps each frame in exactly one place |
| DisplayFrames.EmuDisplay.SeekTo | source/display.cpp:327-362 | both loops agree with their function |

## Left out

- Addresses and sizes that wrap at 2^32 in the memory managers and address spaces, and zero-sized allocations, releases and transfers.
- Owners that have expired while their blocks are still taken: owners are live.
- Conversion between ticks and nanoseconds, which interrupts fire when, and handle tables: how far the clock moves, which events are signalled and what a handle denotes are parameters of a step.
- Waiting for Process, ServerPort, ClientPort and session objects in the synchronisation model; sessions are modelled on their own in the rendezvous.
- SVCArbitrateAddress beyond putting the caller to sleep, thread priorities, and fairness beyond taking turns; a woken thread may occur in the ready queue more than once, as in the code.
- What a thread does that another one ended while it was preempted between two instructions, should a leftover timeout make it ready again: an exited thread is taken to have unwound or to throw when it is resumed.
- The Semaphore constructor's precondition on its counts is a fault of the caller; closing a handle, by CloseHandle or by the teardown of a process, is modelled for the last handle to a thread, and CloseHandle also for its effect on a mutex. Which references exist is a parameter, except that a process's list and threads waiting for its end keep a thread.
- SVCTerminateProcess ends all threads of a process before it lets go of any; the model ends and releases them one after the other.
- ClientSession and ServerSession closing, several server threads on one session, and a server that replies without a received request.
- PrepareImage's wait for a retired frame (a Prepare is possible once there is one) and its exit path, and the other two streams, which are copies of the modelled one.
- IPC messages other than mapped buffers: static and PXI buffers, handle translation, descriptor bit layouts, and a client and server thread in the same process.
- SVCCreateCodeSet for FIRM modules and for the boot process, copying and zeroing of memory contents, sections spread over several memory regions, and the mappings that process creation adds afterwards.
- SetHook calls that span pages, and the hook-blind lookup; one bus is modelled.
- Instructions whose condition fails, LDM and STM with the S bit, faults of the memory accesses, and words that overlap because of unaligned addresses; LDREX and STREX of other sizes.
- Breakpoints and traps during the pause handshake, filtering by process and thread, and that requests return under every fair schedule: some schedule is given for each.
- AddressSpace.ReprotectExact: is about ranges that are mapped throughout; on others the operation inherits the behaviour stated by UnmapExact.
- IpcBuffers.AliasIffPaged: assumes a client that sees no physical byte twice, since equal bytes can make a wrong mapping look right.
- KernelFacts.SleepersAreBlocked: says nothing about timers, which are announced only when the clock moves; for them see KernelInvariants.ElapseSettles.
- Logging, profiling, coroutines, devices, graphics, audio, input, the debugger's network protocol and everything else that is plumbing around the modelled core.
