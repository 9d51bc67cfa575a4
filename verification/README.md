# The HOCA nucleus and its support-level protocols

A Dafny model of the HOCA operating system: the process queues, the active semaphore list, the
nucleus built on them, and the concurrent protocols of the support level.

* `Base`, `Semaphore`, `Locks`: sequences without repetitions, the table sizes, a semaphore word
  with its queue as LOCK and UNLOCK change it, and a semaphore used as a lock.
* `ProcQ`, `Asl`: the process table and the descriptor pool as arrays, with the loops of the
  source over link slots, rings and lists. A pointer is the index of a table entry and `ENULL`
  is -1. A ghost sequence of links per queue says what each ring holds; the class invariants say
  that all rings share the entries without sharing a slot, that `qcount` and `semvec` match the
  rings, and that active and free descriptors partition the pool.
* `ProcTree`, `TreeLinks`: the forest of processes, and its encoding by first child, brother
  chain and a parent link on the last brother only.
* `Spec`, `Invariant`: the nucleus as a state machine over free list, running queue, semaphores
  and tree, and the invariant of every run. `Nucleus` has a class whose methods follow the C
  functions on the tables, each proved to do to the state they stand for what `Spec` says.
* `Theorems`, `Deadlock`, `RoundRobin`, `ClockPeriods`, `Rendezvous`, `CpuTime`, `SingleWaits`:
  facts about whole runs.
* `Elevator`, `DiskDaemon`, `DaemonDrains`, `VirtualSem`, `VirtualWakeup`, `VirtualCount`, `Cron`,
  `CronDelays`, `Paging`, `FrameCredit`, `FrameUse`, `PagerWakeup`, `PageState`, `FlatMemory`,
  `RealMemory`, `DiskPositions`, `EvictionRace`, `DoubleRelease`: the support level, as processes
  whose steps interleave on semaphores with the semantics of `Sem_OP`. Code that touches only what
  its process owns, or that runs under a lock, is one step; searches that others can interrupt are
  one step per entry. Each step function has theorems over whole runs that say, in terms of what
  the processes asked for, what it has done.

MAXPROC, SEMMAX, MAXFRAMES and TER are symbolic. The descriptor pool needs two entries, each
frame table at least one frame for each terminal.

Four properties that one would expect do not hold of the code as it stands; each is stated with
the condition under which it holds, and with runs that break it.

* The page daemon tests `pd_r` and clears `pd_p` with interrupts enabled
  (support/part2/page.c:388-391). A process that refers to the page between the two loses what
  it wrote: the page becomes absent with its reference bit set, and the fault handler takes a set
  bit to mean that nothing was written out. `RealMemory.FoundIff` says, for every run on private
  pages, that a value is found again after an eviction if and only if the bit was clear when
  `pd_p` was cleared, or the frame that the handler chose happened to hold it.
  `EvictionRace.LostWrite` makes such a run from every state in which the daemon is about to
  clear the bit, and `EvictionRace.LostFromStart` one from the start.
  A page lost by such a race also loses its disk position, which in the model is never given
  back (the loop of `putframe` that does so is left out). `DiskPositions.PositionsConserved` counts
  them: in every run the taken positions are those of the pages that have one, and one for each
  race. So a page keeps its position if and only if it is not raced
  (`DiskPositions.PositionKeptIff`), and the search for a free one fails if and only if the pages
  that have one and the races make up the table (`DiskPositions.SearchFailsIff`), which takes
  more races than there are positions beyond the private pages (`DiskPositions.PositionsSuffice`);
  `EvictionRace.RunsOff` is such a run, in which only one page was ever written out.
  A calm run is one in which terminals use their private pages only, never refer to one between
  the test and the clearing, and give back no frame that is being written out.
* A slot of `vs_arr` is cleared before it is signalled (support/part2/slsyscall2.c:67-76), and can
  be taken for another address in between; then the wakeup goes to a process that waits for the
  other address, as in `VirtualSem.WrongWakeup`. `VirtualWakeup.WakeupsRight` shows that no P goes
  on without a V on its own address if P takes a slot only when nobody is about to LOCK it for
  another address, and `VirtualWakeup.GuardIff` that this guard is exact: from a state that guarded
  runs reach, a step keeps it if and only if the counters stay right in every guarded run that
  follows. Waiting for pending UNLOCKs alone is not enough (`VirtualWakeup.NoSignalPending`). Which process a V wakes can then still differ from the one
  that it let in; it cannot when slots are taken only after every call in them is done
  (`VirtualWakeup.SignalsOwn`).
* The elevator finds a request only within 10000 sectors of the head
  (support/part2/slsyscall2.c:146-166); otherwise the daemon goes on with entry -1, as in
  `DiskDaemon.FarRequest`. `DiskDaemon.DaemonCounts` shows that it does so only when every request
  that was pending when it began to choose is out of reach, and `DiskDaemon.LostIff` that this is
  the exact condition when nothing arrives meanwhile; a request that arrives during the choice can
  be near and still be passed over (`DiskDaemon.NearButLost`). `Elevator.Pick` is the same for
  one choice without arrivals.
* A process that terminates gives back its frames and signals `sem_pf` for each
  (support/part2/page.c:354-358), also for one that the page daemon is writing out, which then
  frees and signals it once more (support/part2/page.c:403-404). `FrameCredit.FramesConserved`
  accounts for every frame in every run; `FrameCredit.FailsIff` says exactly when `getfreeframe`
  returns -1, `FrameCredit.FrameCredit` that it never does in runs without such a double release,
  and `DoubleRelease.SearchFails` is a run in which it does.

Other observations: neither `allocProc` nor `freeProc` clears `cpu_time`, so a process created in
a used entry starts with its predecessor's total; `initSemd` has 19 and 18 where it means
MAXPROC - 1 and MAXPROC - 2 (queues/asl.c:124), and the model uses the latter.

## Model

| member | source | states |
|---|---|---|
| `ProcQ.ProcTable.constructor` | queues/procq.c:35-65 | Every entry is free, in table order, with no link, count or semaphore, and every queue is empty. |
| `ProcQ.ProcTable.HeadQueue` | queues/procq.c:19-24 | The first process of the queue that the tail pointer stands for, or the null pointer. |
| `ProcQ.ProcTable.AllocProc` | queues/procq.c:25-34 | Takes the first free entry, or none when none is left; no queue changes. |
| `ProcQ.ProcTable.FreeProc` | queues/procq.c:130-149 | An entry in no queue becomes the last of the free list, cleared; every other entry and queue is as before. |
| `ProcQ.ProcTable.InsertProc` | queues/procq.c:66-98 | Appends to the queue through the lowest unused link slot; every other ring through the same entries keeps its exact sequence, and counts still match. |
| `ProcQ.ProcTable.RemoveProc` | queues/procq.c:99-128 | Takes the first process out, for empty, one-node and longer queues; every other ring is unchanged. |
| `ProcQ.ProcTable.Walk` | queues/procq.c:170-193 | The walk along a ring stops at the node of the process, or at the tail when it is absent, with the node before it. |
| `ProcQ.ProcTable.OutProc` | queues/procq.c:151-211 | Takes out the one occurrence of the process wherever it is, or changes nothing when it is absent; the tail pointer is right in all cases. |
| `ProcQ.LinkedRing` | queues/procq.c:80-96 | Writing two links makes the ring one longer at its end. |
| `ProcQ.UnlinkedRing` | queues/procq.c:176-205 | Bypassing a node leaves the ring of the other nodes in their order. |
| `ProcQ.ReplaceRings` | queues/procq.c:66-98 | Changing one ring through its own nodes and free slots leaves every other ring intact and disjoint from it. |
| `ProcQ.InsertRep` | queues/procq.c:66-98 | The whole representation, with slot and queue counts of every entry, survives an insertion. |
| `ProcQ.RemoveRep` | queues/procq.c:99-128 | The whole representation survives the removal of any node of any queue. |
| `Asl.SemList.constructor` | queues/asl.c:110-128 | All descriptors are on the free list, in order, and no semaphore has waiters. |
| `Asl.SemList.Find` | queues/asl.c:77-83 | The walk ends at the only descriptor of the address, or past the end exactly when the address is not listed. |
| `Asl.SemList.HeadBlocked` | queues/asl.c:172-185 | The first process waiting at the address, or the null pointer. |
| `Asl.SemList.UnlistedEmpty` | queues/asl.c:172-185 | An address is on the active list exactly when some process waits there. |
| `Asl.SemList.ActiveCount` | queues/asl.c:65-108 | There are as many active descriptors as semaphores with waiters, and the rest of the pool is free. |
| `Asl.SemList.PoolFacts` | queues/asl.c:65-128 | Active and free descriptors partition the pool; the active ones map each address with waiters, once, to its queue, and the free ones hold nothing. |
| `Asl.SemList.HeadASL` | queues/asl.c:186-190 | True exactly when some process waits for some semaphore. |
| `Asl.SemList.ReplaceSem` | queues/asl.c:12-29 | The first matching position of the vector changes and nothing else. |
| `Asl.SemList.InsertBlocked` | queues/asl.c:65-108 | The process joins the end of the queue of the address, with a new descriptor if there was none; reports failure exactly when one was needed and none free, and then changes nothing. |
| `Asl.SemList.RemoveBlockHelper` | queues/asl.c:30-64 | Moves a descriptor from any place of the active list to the end of the free list, both still well formed. |
| `Asl.SemList.RemoveBlocked` | queues/asl.c:129-146 | The first waiter leaves; the descriptor is freed with the last one; the vector of the waiter forgets the address. |
| `Asl.SemList.OutOne` | queues/asl.c:152-168 | The process leaves the queue of one awaited semaphore, wherever it is in it, and its word rises by one. |
| `Asl.SemList.OutBlocked` | queues/asl.c:148-171 | The process leaves every semaphore queue, each awaited word rises by one and no other, and the others keep their order. |
| `ProcTree.VictimsFacts` | nucleus/traps/syscall.c:37-69 | The processes that the recursion frees are different live ones, closed under children. |
| `ProcTree.VictimsAreDescendants` | nucleus/traps/syscall.c:37-112 | The processes freed are exactly those from which following parents leads to the caller. |
| `ProcTree.GrowClosed` | nucleus/traps/syscall.c:20-31 | A new last child keeps an ordered rooted forest. |
| `ProcTree.PruneClosed` | nucleus/traps/syscall.c:37-112 | Without a set closed under children the forest is still one. |
| `ProcTree.CutClearIsPrune` | nucleus/traps/syscall.c:70-112 | Cutting the caller out and clearing the victims' child links is removing the subtree from the forest. |
| `TreeLinks.HungRep` | nucleus/traps/syscall.c:20-31 | The links written for a new child encode the forest with that child last, whether or not there were others. |
| `TreeLinks.CutTable` | nucleus/traps/syscall.c:72-102 | The links written when a child goes encode the forest without it, for an only, first, middle or last child. |
| `TreeLinks.PopRep` | nucleus/traps/syscall.c:40-42 | Clearing the brother link of the first child leaves the encoding of the rest. |
| `TreeLinks.LastRep` | nucleus/traps/syscall.c:65-68 | Clearing the last links leaves a process without children. |
| `Semaphore.PBalanced` | nucleus/traps/syscall.c:119-124 | After LOCK a word of value v still has max(0, -v) waiters, and the caller is one exactly when no unit was left. |
| `Semaphore.DropBalanced` | queues/asl.c:148-171 | Killing waiters keeps a word of value v at max(0, -v) waiters. |
| `Nucleus.Kernel.constructor` | nucleus/traps/main.c:16-44 | The tables stand for the initial state: one process, a root, runs and all other entries are free. |
| `Nucleus.Kernel.EntryCounts` | queues/procq.c:66-128 | In the tables `qcount` counts the queues that hold a process and `semvec` lists exactly the semaphores that it waits for, each once. |
| `Nucleus.Kernel.UnlockSem` | nucleus/traps/syscall.c:125-133 | The first waiter leaves, and joins the running queue exactly when it waits for nothing else. |
| `Nucleus.Kernel.SemOp` | nucleus/traps/syscall.c:113-140 | The loop over a batch and the final removal do to the tables what the batch does to the state machine. |
| `Nucleus.Kernel.IntLock` | nucleus/interrupts/int.c:123-133 | LOCK from inside the nucleus: the running process moves to the queue when the word goes negative. |
| `Nucleus.Kernel.WaitForPclock` | nucleus/interrupts/int.c:101-105 | The caller waits for the clock. |
| `Nucleus.Kernel.WaitForIo` | nucleus/interrupts/int.c:107-121 | The caller gets the saved result at once if the interrupt has come, else waits for it. |
| `Nucleus.Kernel.IntHandler` | nucleus/interrupts/int.c:141-164 | The waiter gets amount and status and is released, or both are saved for the wait to come. |
| `Nucleus.Kernel.ClockHandler` | nucleus/interrupts/int.c:201-220 | A clock interrupt does to the tables what it does to the state: the running process goes to the end of the queue, and `ClockPeriods.EveryTwentieth` says which interrupt releases whom. |
| `Nucleus.Kernel.Schedule` | nucleus/interrupts/int.c:240-261 | Dispatches the head of the running queue; with none, sleeps, or halts with a verdict, by what the semaphore queues hold. |
| `Nucleus.Kernel.CreateProcess` | nucleus/traps/syscall.c:12-35 | Creation does to the tables what it does to the state, which `Theorems.CreateExact` determines: a new last child that runs last and 0 for the caller, or -1 and no other change. |
| `Nucleus.Kernel.LastSibling` | nucleus/traps/syscall.c:24-27 | The walk along brothers ends at the last child, the only one whose parent link is set. |
| `Nucleus.Kernel.Detach` | nucleus/traps/syscall.c:70-102 | Exactly the caller leaves its parent's children; the forest is otherwise unchanged. |
| `Nucleus.Kernel.KillOne` | nucleus/traps/syscall.c:43-52 | One process and all its descendants leave every queue and become free; terminates by depth. |
| `Nucleus.Kernel.CheckSibling` | nucleus/traps/syscall.c:37-69 | All proper descendants leave every queue and become free, through the recursion and the loop over brothers. |
| `Nucleus.Kernel.TerminateProcess` | nucleus/traps/syscall.c:70-112 | The tables then stand for the state without the caller's subtree. |
| `Nucleus.Kernel.Handle` | nucleus/traps/trap.c:75-100 | Every call that the state machine has, and every interrupt, does to the tables what the state machine does and keeps the run invariant. |
| `Nucleus.Kernel.HandleAll` | nucleus/traps/trap.c:65-109 | A run of events takes the tables to the state that the state machine reaches, if each process that has to wait finds a link slot and a descriptor; so what is proved of its runs holds of the tables. |
| `Nucleus.Kernel.RunFindsRoom` | queues/asl.c:65-108 | In every run whose batches LOCK at most one semaphore each, a process that has to wait always finds a link slot and a descriptor, given two link slots for each process. |
| `Nucleus.Kernel.HandleSingles` | nucleus/traps/trap.c:65-109 | For such runs nothing need be assumed about slots and descriptors. |
| `Nucleus.Boot` | nucleus/traps/main.c:16-44 | From `main` on, any such run takes the tables to the state that the state machine reaches from its start. |
| `Invariant.OpsSem` | nucleus/traps/syscall.c:118-134 | A batch on different semaphores is each operation on its own semaphore, and nothing on the others. |
| `Invariant.BlocksMeans` | nucleus/traps/syscall.c:119-123 | The flag is set exactly when some LOCK of the batch found no unit. |
| `Invariant.OpsWaits` | nucleus/traps/syscall.c:119-123 | After a batch the caller waits for exactly the locked semaphores that had no unit. |
| `Invariant.UnlockBut` | nucleus/traps/syscall.c:125-133 | A release keeps the invariant while the caller is still both running and waiting. |
| `Invariant.SemOpInv` | nucleus/traps/syscall.c:113-140 | A batch keeps the run invariant. |
| `Invariant.TerminateInv` | nucleus/traps/syscall.c:70-112 | Termination of a subtree keeps the run invariant. |
| `Invariant.CreateInv` | nucleus/traps/syscall.c:12-35 | Creation keeps the run invariant, with or without a free entry. |
| `Invariant.TickInv` | nucleus/interrupts/int.c:201-220 | A clock interrupt keeps the run invariant. |
| `Invariant.WaitIoInv` | nucleus/interrupts/int.c:107-121 | A device wait keeps the run invariant. |
| `Invariant.DevIntInv` | nucleus/interrupts/int.c:141-164 | A device interrupt keeps the run invariant. |
| `Invariant.StepInv` | nucleus/traps/trap.c:65-109 | Every entry into the nucleus keeps the run invariant. |
| `Theorems.InitialInv` | nucleus/traps/main.c:16-44 | At the start entry 0 alone runs, with its registers, the others are free in order and nobody waits; the invariant holds when no semaphore is below zero and nothing is pending. |
| `SingleWaits.StepNarrow` | nucleus/traps/syscall.c:113-140 | If no batch LOCKs more than one semaphore, no process ever waits for more than one. |
| `SingleWaits.RoomToJoin` | queues/asl.c:65-108 | Then at the LOCK of a batch a descriptor and a link slot are left for the caller. |
| `Theorems.RunInvariant` | nucleus/traps/syscall.c:12-140 | In every state of every run each process is in exactly one of free list, running queue and semaphore queues, a word v has max(0, -v) different waiters, and device words stay in -1..1. |
| `Theorems.BatchValues` | nucleus/traps/syscall.c:118-134 | A batch changes each named word by exactly one, up or down, and no other semaphore at all. |
| `Theorems.BatchCaller` | nucleus/traps/syscall.c:113-140 | AND-wait: the caller waits for exactly the locked semaphores that went below zero, and keeps running exactly when there are none. |
| `Theorems.BatchWakes` | nucleus/traps/syscall.c:125-133 | At every point of a batch a waiting process is back in the running queue exactly when nothing it waited for is left. |
| `Theorems.BatchFifo` | queues/asl.c:129-146 | Each semaphore of a batch lets its waiters go in the order in which they came. |
| `Theorems.BatchOrder` | nucleus/traps/syscall.c:118-139 | The processes that a batch makes runnable join the running queue in the order of its operations, behind those already there. |
| `Theorems.TerminateExact` | nucleus/traps/syscall.c:70-112 | Exactly the caller and its descendants become free and leave every queue, each word rises by one for each killed waiter, and survivors keep their order. |
| `Theorems.TerminateTree` | nucleus/traps/syscall.c:37-112 | Freed entries have no tree links, and survivors keep their surviving children in order. |
| `Theorems.TerminateOrder` | nucleus/traps/syscall.c:37-112 | The freed entries follow those free before, each after its descendants and before those at or below a younger brother. |
| `Theorems.CreateExact` | nucleus/traps/syscall.c:12-35 | The caller gets -1 if and only if no entry is free, and then nothing else differs; otherwise it gets 0, and the former first free entry, with the given registers, is last in the running queue and last child of the caller, with every other register, queue, semaphore and tree link as before. |
| `Theorems.LockExact` | nucleus/interrupts/int.c:123-131 | The running process waits, last in the queue, exactly when its LOCK drives the word below zero, and otherwise goes on. |
| `Theorems.WaitExact` | nucleus/interrupts/int.c:101-121 | A caller that waits for the clock, or for a device that is not done, leaves the head of the running queue for the end of that queue, waits for nothing else, and nothing else changes. |
| `Theorems.StepFrame` | nucleus/interrupts/int.c:101-220 | In every step registers change only for the caller and the child of a creation, a caller that finds its device done and the waiter of a device interrupt; saved results, clock count, free list, tree and each semaphore only by the events that are theirs. |
| `Deadlock.NormalIffAllFree` | nucleus/interrupts/int.c:254-261 | With nothing to run, normal termination is reported exactly when every entry is free. |
| `Deadlock.DeadlockSound` | nucleus/interrupts/int.c:240-261 | After a deadlock verdict some process is live, and no interrupts whatever make a process run again. |
| `Deadlock.DeviceWakes` | nucleus/interrupts/int.c:152-158 | The interrupt of a device that is waited for makes the waiter run, last in the running queue. |
| `Deadlock.ClockWakes` | nucleus/interrupts/int.c:212-217 | Some number of clock interrupts alone makes a process waiting for the clock run; `ClockPeriods.TicksRelease` says which number. |
| `Deadlock.SleepIffWakeable` | nucleus/interrupts/int.c:249-253 | The nucleus sleeps exactly when some run of interrupts makes a process run again. |
| `Deadlock.TimedIff` | nucleus/interrupts/int.c:249-253 | The timer runs while the nucleus sleeps exactly when clock interrupts alone can make a process run. |
| `Deadlock.RunSole` | nucleus/interrupts/int.c:101-140 | In every run a process that waits for a device or the clock waits for nothing else. |
| `Deadlock.RunSleeps` | nucleus/interrupts/int.c:240-261 | In every run from the start, whenever nothing can run the nucleus sleeps exactly when some run of interrupts makes a process run again, and with the timer on exactly when clock interrupts alone do. |
| `RoundRobin.StepForward` | nucleus/interrupts/int.c:205-211 | No step moves a process back in the running queue, and a clock interrupt moves it forward. |
| `RoundRobin.BoundedWait` | nucleus/interrupts/int.c:201-220 | A process at position k that stays in the running queue is dispatched before k clock interrupts have passed. |
| `ClockPeriods.EveryTwentieth` | nucleus/interrupts/int.c:201-220 | In every run from the start the next clock interrupt rotates the running queue, and if it is a twentieth one, and not otherwise, it lets the first process that waits for the clock go, to the end of the rotated queue; nothing else changes. |
| `ClockPeriods.TicksRelease` | nucleus/interrupts/int.c:203-217 | A number of clock interrupts lets exactly as many of those that wait for the clock go as it completes periods, in queue order, while there are any. |
| `Rendezvous.WaitThenInterrupt` | nucleus/interrupts/int.c:107-164 | Wait before interrupt: the waiter ends with the interrupt's amount and status, and the device is idle. |
| `Rendezvous.InterruptThenWait` | nucleus/interrupts/int.c:107-164 | Interrupt before wait: the caller ends with the same amount and status without waiting, and the device is idle. |
| `CpuTime.Times.Handle` | nucleus/traps/trap.c:17-109 | One entry into the nucleus does to the times of the table what the machine of `EnterSum` does: the total charged rises by exactly what passed, less what stays open or is charged to nobody, and only the process that ran is charged. |
| `CpuTime.EnterSum` | nucleus/traps/trap.c:65-109 | Each entry into the nucleus adds to the charged, open and unused time exactly the time that passed. |
| `CpuTime.TimeConserved` | nucleus/traps/trap.c:17-109 | Over any run charged, open and unused time add up to the time that passed: nothing is charged twice or lost. |
| `CpuTime.ChargedExactly` | nucleus/traps/trap.c:17-109 | Over any run each process is charged for exactly the time for which it was the running one, with its open interval. |
| `CpuTime.NeverDoubleCharged` | nucleus/traps/trap.c:17-109 | From the start the sum of all totals and the running interval never exceeds the elapsed time. |
| `CpuTime.TotalsGrow` | queues/procq.c:25-34 | Only a process that has run is charged, and no total falls, even when its entry is freed and used again. |
| `Elevator.TaskerHelper` | support/part2/slsyscall2.c:144-171 | The first of the nearest requests pending in the direction and in reach, or -1 when there is none. |
| `Elevator.Pick` | support/part2/slsyscall2.c:184-191 | The daemon turns round only when nothing is ahead, and finds nothing exactly when every pending request is 10000 or more away. |
| `Elevator.ServedOnce` | support/part2/slsyscall2.c:172-211 | With no arrivals every pending request is served exactly once, and no other. |
| `Elevator.OneSweep` | support/part2/slsyscall2.c:144-191 | With everything ahead the daemon never turns, and travels no further than the outermost request. |
| `Elevator.TwoSweeps` | support/part2/slsyscall2.c:144-191 | A drain is one sweep and at most one back, and the head travels at most twice the span. |
| `Elevator.DrainExists` | support/part2/slsyscall2.c:177-209 | Any set of requests in reach is drained. |
| `DiskDaemon.EndInv` | support/part2/slsyscall2.c:184-191 | A scan that finds nothing turns once; a second one leaves the daemon with entry -1 and everything of the beginning out of reach. |
| `DiskDaemon.StepInv` | support/part2/slsyscall2.c:88-211 | Every step of a terminal or the daemon, for requests on any track, keeps the count of requests and what the scan has found. |
| `DiskDaemon.DaemonCounts` | support/part2/slsyscall2.c:88-211 | In every interleaving the units of `sem_disk` and the request in service are the pending requests, the daemon sleeps only when nothing is pending, and it uses entry -1 only when every request pending when it began to choose is out of reach. |
| `DiskDaemon.LostIff` | support/part2/slsyscall2.c:184-191 | With no arrival during the choice, entry -1 is used if and only if every pending request is 10000 sectors or more away. |
| `DiskDaemon.FarRequest` | support/part2/slsyscall2.c:144-191 | A run from the start in which a request on track 1250 makes the daemon use entry -1. |
| `DiskDaemon.NearButLost` | support/part2/slsyscall2.c:144-191 | A run in which the daemon uses entry -1 with a request pending five sectors ahead of it. |
| `DiskDaemon.DaemonSafe` | support/part2/slsyscall2.c:101-108 | In every run with requests in a window of 10000 sectors around the first position entry -1 is never used. |
| `DiskDaemon.ChoiceNearest` | support/part2/slsyscall2.c:144-191 | The request chosen is no further from the head than any that was pending ahead when the scan began, whatever arrived since; `DaemonDrains.ServesAsked` says where the head is. |
| `DaemonDrains.ServesAsked` | support/part2/slsyscall2.c:88-206 | In every run the daemon serves a terminal that waits, with the head at the track and sector that this terminal gave last and with its operation. |
| `DaemonDrains.DaemonDrains` | support/part2/slsyscall2.c:172-211 | In every run without arrivals from where the daemon is about to choose to where all is served, it serves the requests as the elevator does, each pending one exactly once. |
| `DaemonDrains.DaemonSweeps` | support/part2/slsyscall2.c:144-211 | In such a run it makes one sweep in its direction and at most one back, over at most twice the span. |
| `DaemonDrains.DaemonGetsThrough` | support/part2/slsyscall2.c:177-209 | After any run with requests in the window, the daemon left alone serves all that is pending. |
| `VirtualSem.Shared.Search` | support/part2/slsyscall2.c:30-31 | The lowest slot that records the address, or the table length. |
| `VirtualSem.Shared.PBody` | support/part2/slsyscall2.c:22-50 | The code of P under the lock: the counter loses one unit whether the caller goes on or takes a slot, nothing changes when the address is below the segment or no slot is free, and what follows. |
| `VirtualSem.Shared.VBody` | support/part2/slsyscall2.c:55-85 | The same for V, which adds one unit. |
| `VirtualSem.VFinds` | support/part2/slsyscall2.c:63-65 | The search of V for a waiter always succeeds. |
| `VirtualSem.PFinds` | support/part2/slsyscall2.c:29-31 | The search of P for a free slot succeeds while a terminal is inside, since the others cannot take them all. |
| `VirtualSem.StuckWhen` | support/part2/slsyscall2.c:20-86 | With any number of terminals, the lock is never released exactly when P needs a slot and all are taken, or V finds no record. |
| `VirtualSem.StepInv` | support/part2/slsyscall2.c:20-86 | Every step keeps the lock exclusive and each slot's value in step with those about to use it. |
| `VirtualSem.VirtualSafe` | support/part2/slsyscall2.c:20-86 | In every interleaving a counter v is recorded in exactly max(0, -v) slots, one terminal at a time holds the lock, and it always goes on to release it. |
| `VirtualCount.CountersExact` | support/part2/slsyscall2.c:20-86 | In every run each counter is its initial value, less one for each P called on its address and plus one for each V, apart from the calls still on their way to it. |
| `VirtualCount.TerminatedIff` | support/part2/slsyscall2.c:23-53 | In every run a terminal is terminated if and only if it calls P or V on an address below the shared segment, and never returns from that call. |
| `VirtualSem.WrongWakeup` | support/part2/slsyscall2.c:67-76 | A run in which V on one address wakes the waiter of another. |
| `VirtualWakeup.StepLined` | support/part2/slsyscall2.c:20-86 | A step whose take is guarded keeps each slot's line of waiters ending with one for the address that the slot records. |
| `VirtualWakeup.WakeupsRight` | support/part2/slsyscall2.c:20-86 | In every run in which P takes a slot only when nobody is about to LOCK it for another address, a counter v keeps at least -v callers waiting, and exactly max(0, -v) once no LOCK or UNLOCK is pending. |
| `VirtualCount.MutualExclusion` | support/part2/slsyscall2.c:20-86 | In every guarded run with P and V called in turn, never more terminals are in the section than the counter had units at the start, so at most one if it had one; once settled, nobody is kept out while there is room. |
| `VirtualWakeup.UnguardedGoesWrong` | support/part2/slsyscall2.c:29-37 | From every state that the invariant allows, a take that breaks this guard has a continuation, with no further call, after which the slot's only waiter waits for another address than the slot records. |
| `VirtualWakeup.UnguardedFallsShort` | support/part2/slsyscall2.c:29-37 | With every line in order, such a take leads, with no further call, to a settled state in which fewer wait for the address than its counter says. |
| `VirtualWakeup.GuardIff` | support/part2/slsyscall2.c:20-86 | A step keeps the guard if and only if in every guarded run that follows each counter v keeps at least -v callers waiting, and exactly max(0, -v) once settled. |
| `VirtualWakeup.NoSignalPending` | support/part2/slsyscall2.c:29-37 | A run that goes wrong although no UNLOCK was pending when the slot was taken. |
| `VirtualWakeup.SignalGoesTo` | support/part2/slsyscall2.c:67-76 | The UNLOCK of a slot releases the first in its queue and nobody else, so a P on the V's own address exactly when that one waits for it; with no queue, the next to LOCK goes through, and not otherwise. |
| `VirtualWakeup.SignalsOwn` | support/part2/slsyscall2.c:20-86 | In every run in which a slot is taken only when every call in it is done, each V wakes a waiter of its own address or leaves its unit to one. |
| `Cron.SleepInv` | support/part1/slsyscall1.c:66-77 | Delaying and signalling in one batch keeps a unit for every delay that the daemon has missed. |
| `Cron.EndInv` | support/part1/slsyscall1.c:83-94 | The last terminal to end finds nobody alive and signals the daemon. |
| `Cron.StepInv` | support/part1/support.c:380-416 | Every step keeps the account of missed delays. |
| `Cron.NoLostWakeup` | support/part1/support.c:397-414 | In every interleaving, while the daemon is blocked no terminal is delayed and some terminal has still to end. |
| `Cron.NeverEarly` | support/part1/support.c:384-394 | A delayed terminal goes on only by the daemon, and only when more time has passed since it last read the clock in the run than it last asked for. |
| `Cron.ReleasedInOneScan` | support/part1/support.c:383-396 | A terminal whose time had passed when a scan began has been released when the first loop ends. |
| `CronDelays.DelayHolds` | support/part1/slsyscall1.c:66-77 | A terminal that asks for d and reads the clock at t stays delayed, and takes no step, in every run that ends at time t + d or before. |
| `CronDelays.DelayEnds` | support/part1/support.c:383-396 | Every scan that begins after time t + d lets it go before the daemon leaves its first loop. |
| `CronDelays.DelayServed` | support/part1/support.c:380-416 | In every run, when a terminal is overdue, steps of the daemon alone let it go, in a number linear in that of terminals. |
| `CronDelays.SecondLoop` | support/part1/support.c:397-414 | After the second loop the daemon waits for the clock if and only if it came to a delayed terminal, and otherwise goes on to LOCK `cron_sem`. |
| `CronDelays.ScansAlive` | support/part1/support.c:381-383 | A scan begins only while some terminal is alive. |
| `CronDelays.CronComesTo` | support/part1/support.c:380-417 | In every run the daemon terminates only when no terminal is alive; left alone it comes to rest at `cron_sem` while nobody is delayed and some are alive, and terminates once all have ended. |
| `CronDelays.UnitsExact` | support/part1/slsyscall1.c:66-94 | In every run `cron_sem` is signalled once for each delay and for each terminal that ends with none alive, and not otherwise. |
| `Paging.Tables.constructor` | support/part2/page.c:203-214 | All frames and all disk positions are free. |
| `Paging.Tables.GetDiskPos` | support/part2/page.c:82-93 | The lowest free position, which is taken, or the end of the table when there is none. |
| `Paging.Tables.GetFreeFrame` | support/part2/page.c:276-314 | A shared page in a frame is found there; else the first free frame is taken; else -1 and no change. |
| `Paging.Tables.PutFrame` | support/part2/page.c:349-359 | Exactly the private frames of the terminal become free, and `sem_pf` is signalled once for each. |
| `FrameUse.ChooseExact` | support/part2/page.c:283-314 | A shared page that is in a frame keeps it and the table is unchanged; any other request takes the first free frame for its page and nothing else; without one it fails and changes nothing. |
| `FrameUse.SharedOnce` | support/part2/page.c:285-299 | In every run at most one frame is in use for each shared page, and a fault on such a page gets that frame and takes no other. |
| `FrameUse.EndedKeepsNone` | support/part2/page.c:349-359 | In every run a terminal that has ended holds no private frame. |
| `Paging.PositionBits` | support/part2/page.c:333-334 | Packing track and sector into a word and taking them out again is exact. |
| `FrameCredit.StepKept` | support/part2/page.c:276-437 | Every step of every process keeps free frames, units of `sem_pf` and processes past it in balance, except a fault that takes no free frame and a daemon that frees a free one. |
| `FrameCredit.DropMm` | support/part2/page.c:74-81 | Releasing `sem_mm` hands it to its first waiter and keeps it exclusive. |
| `FrameCredit.StepInv` | support/part2/page.c:276-437 | Every step, but for giving back a frame that is being written out, keeps the semaphores and the frames in step, and the frame that is being written out in use. |
| `FrameCredit.FramesConserved` | support/part2/page.c:276-437 | In every interleaving, private and shared, with any terminations, the free frames are exactly the units of `sem_pf` and the processes past it that have not chosen, plus the faults that took no free frame, less the frames freed twice. |
| `FrameCredit.FailsIff` | support/part2/page.c:284-320 | In every run a process past `sem_pf` gets no frame if and only if its page is not a shared one in a frame, and units, processes past `sem_pf` and gains add up to zero. |
| `FrameCredit.FrameCredit` | support/part2/page.c:276-320 | In every interleaving without a double release the free frames are at least the units of `sem_pf` and the processes past it that have not chosen, so `getfreeframe` never returns -1. |
| `PagerWakeup.PagerWoken` | support/part2/page.c:315-316 | In every interleaving, private and shared, while the daemon sleeps and `sem_pf` is at LOW or below, some process is between its P and the test that wakes the daemon. |
| `FrameUse.NoNeedlessEviction` | support/part2/page.c:315-375 | In every run, while `sem_pf` stays at four or above a daemon that is at its test or asleep stays so, and while it stays above two one that sleeps goes on sleeping; every present page stays present. |
| `FrameUse.ScanCovers` | support/part2/page.c:375-434 | A daemon that finds fewer than four units looks at every frame before its next test, in every run. |
| `FrameUse.SecondChance` | support/part2/page.c:382-430 | A page referred to since the last look, private or shared, stays with its bit cleared; another becomes absent with the disk position that its frame is written to, unless none is left. |
| `PageState.PickSound` | support/part2/page.c:303-313 | A frame chosen for an absent page disturbs no other page. |
| `PageState.ReadSound` | support/part2/page.c:128-132 | Reading a page in gives the frame the value that the page had. |
| `PageState.LoadSound` | support/part2/page.c:338-346 | Recording where a page was read from keeps each page at its own position. |
| `PageState.MapSound` | support/part1/support.c:307-308 | Mapping the frame makes the page present with its value. |
| `PageState.ScanSound` | support/part2/page.c:386-391 | A second chance, or the choice for eviction, leaves every value where it is. |
| `PageState.ClearSound` | support/part2/page.c:391-401 | A page made absent has its own position, old or new, and its value still in the frame. |
| `PageState.WriteSound` | support/part2/page.c:128-132 | Writing a frame out puts the value at the position of its page and at no other. |
| `PageState.FreeSound` | support/part2/page.c:403-404 | Freeing a written frame loses no value. |
| `PageState.ReleaseSound` | support/part2/page.c:354-358 | Giving back the frames of a terminating process disturbs no other process. |
| `PageState.RaceSound` | support/part2/page.c:388-401 | A page made absent although it was referred to again is like one that was never written out, and all other pages keep their values and positions. |
| `PageState.AnchorSound` | support/part2/page.c:326-346 | A page mapped without being read in holds what its frame held, and all other pages keep their values. |
| `FlatMemory.JoinFloppy` | support/part2/page.c:114-122 | A process that gives up `sem_mm` for the floppy is behind a pending write of the page it wants. |
| `FlatMemory.OkStep` | support/part2/page.c:276-437 | Every step of a calm run keeps every value where it can be found, also when no disk position is left. |
| `FlatMemory.ReadsLastWrite` | support/part1/support.c:293-314 | In every calm run a process reading a present private page finds what it last wrote, whatever was evicted and read in between. |
| `FlatMemory.LastWrite` | support/part1/support.c:293-314 | The value promised is that of the last write: in any run, only a write to the page changes it. |
| `RealMemory.FineStep` | support/part2/page.c:276-437 | Every step on private pages, whenever a page is referred to, keeps every value where the record of what is really there says; only a race loses one. |
| `RealMemory.RunSame` | support/part2/page.c:276-437 | Keeping that record changes nothing else in a run. |
| `RealMemory.TruthRead` | support/part1/support.c:293-314 | In every run on private pages a process that reads a present page finds what the record says. |
| `RealMemory.Outcome` | support/part2/page.c:388-401 | A page made absent comes back with its value if its reference bit was clear, and with what the chosen frame held if it was set, whatever happens before, between and after. |
| `RealMemory.FoundIff` | support/part2/page.c:388-401 | From the start: a value written and since evicted is found again if and only if the reference bit was clear at the clearing of the present bit, or the chosen frame happened to hold it. |
| `RealMemory.FoundUnraced` | support/part1/support.c:293-314 | In every run on private pages a value is found where it was last written, unless its page has since been made absent with its reference bit set. |
| `DiskPositions.ClearDoes` | support/part2/page.c:391-401 | The clearing of a present bit finds a position unless the page has none and none is free; it takes the first free one only for a page without, and a race costs the page its own. |
| `DiskPositions.PositionsConserved` | support/part2/page.c:388-401 | Over every run on private pages the taken positions, less the pages that have one, grow by exactly the number of races. |
| `DiskPositions.SearchFailsIff` | support/part2/page.c:82-93 | In every run, the daemon finds no position for the page that it is about to clear if and only if that page has none, and the pages that have one and the races so far make up the table. |
| `DiskPositions.PositionsSuffice` | support/part2/page.c:82-93 | In every run at most one position for each private page and each race is taken, and the search never fails while there are as many. |
| `DiskPositions.PositionKeptIff` | support/part2/page.c:392-401 | In every run a page that has a position has the same one at the end if and only if it was not raced. |
| `DiskPositions.EvictionTakes` | support/part2/page.c:392-401 | An eviction goes to the position that the page has, or else to a free one, which is then taken. |
| `DiskPositions.SecondPosition` | support/part2/page.c:392-401 | A page made absent by a race takes another position at its next eviction, and both stay taken. |
| `DiskPositions.DiskKept` | support/part2/page.c:82-93 | In any run of the model, which leaves out the second loop of `putframe`, a position once taken stays taken. |
| `DiskPositions.SlotKept` | support/part2/page.c:392-401 | In a calm run a page keeps one disk position for good. |
| `DiskPositions.SlotsDistinct` | support/part2/page.c:392-401 | In every calm run no two pages share a position, only positions of pages are taken and at most one per private page, the search never runs off the table, and an eviction goes to the page's own. |
| `EvictionRace.LostWrite` | support/part2/page.c:388-391 | From every state of every run in which the daemon is about to clear the present bit of a page whose owner runs, with a frame to be had and nobody waiting for `sem_mm`, some run writes a value and then finds what another frame held. |
| `EvictionRace.LostFromStart` | support/part2/page.c:388-391 | Such a run from the start, for any number of terminals and two to thirty-three frames more. |
| `EvictionRace.RunsOff` | support/part2/page.c:82-93 | A run from the start in which the search for a disk position fails although only one page was ever written out. |
| `DoubleRelease.SearchFails` | support/part2/page.c:354-358 | A run from the start in which a process past `sem_pf` finds no free frame, after another one ended while its page was written out. |

## Left out

- Hardware setup: trap and interrupt vectors, the bits of `state_t`, device registers other than amount and status, inline assembly, panic. LDST is the choice of the process that runs next, HALT a verdict. Integers are unbounded.
- Saved registers other than r2 and r3, and Specify_Trap_State_Vector and its saved areas: single-branch copying.
- The mapping of device type and number to a position in `dev_sem`; the handlers take the position.
- Printer and terminal transfers, boot code, and the construction of page tables in `p1` and `pageinit`: the paging model starts from the state they leave.
- A link slot, a pair of pointer and index in the source, is written as one value; tail pointers are passed and returned instead of updated through a pointer, except for the running queue.
- `Nucleus.Kernel.SemOp`: the semaphores of a batch must be different and not those of devices or the clock, and each LOCK that blocks must find a link slot and a descriptor; the source neither checks this nor uses the result of `insertBlocked`.
- `ProcQ.ProcTable.InsertProc`: a process is in a queue at most once and has a free link slot, where the source would panic.
- `ProcQ.ProcTable.FreeProc`: the process is in no queue and not already free, which the source relies on.
- `Rendezvous.WaitThenInterrupt`: the waiter is not killed while it waits, and a device has one waiter and one operation at a time.
- `DiskDaemon.DaemonCounts`: the end of the daemon when no terminal is alive is not modelled, nor what it does with entry -1, and no fairness is claimed, since requests at the head's own position can always be chosen first.
- `DiskDaemon.DaemonSafe`: requests lie in a window of 10000 sectors around the first one, which the source does not check; `DiskDaemon.DaemonCounts` and `DiskDaemon.LostIff` have no such restriction.
- `Deadlock.DeadlockSound`: a device does not interrupt again before its last interrupt has been claimed, since it has one operation at a time.
- `Nucleus.Kernel.IntLock`: a LOCK that blocks finds a descriptor, which the source does not check.
- `Nucleus.Kernel.WaitForPclock`: the same.
- `Nucleus.Kernel.WaitForIo`: the same.
- `Nucleus.Kernel.Handle`: the privilege check, calls 4 to 6 and `pass_up` (nucleus/traps/trap.c:26-73, 86-94, 101-104) are not modelled; they change no queue unless a process without a handler is terminated.
- `Nucleus.Kernel.HandleAll`: each process that has to wait finds a link slot and a descriptor, at every event of the run; the source panics or ignores the failure otherwise. `Nucleus.Kernel.RunFindsRoom` proves it for batches with one LOCK.
- `Nucleus.Kernel.HandleSingles`: each process has at least two link slots; the source has ten.
- `VirtualSem.VirtualSafe`: counters start at zero or above and are changed by these calls only; the code under `protected_sem` is one step, which the lock justifies. The header that gives the segment's address is not part of this model; the address is symbolic.
- `Cron.NoLostWakeup`: lowering `p_alive` is one step.
- `VirtualCount.MutualExclusion`: guarded runs, in which each terminal calls P and V on the address in turn; without the guard `VirtualSem.WrongWakeup` lets one in too many. `VirtualCount.CountersExact` covers all runs.
- `DaemonDrains.DaemonDrains`: runs without arrivals; with them `DiskDaemon.ChoiceNearest` covers each choice.
- `DaemonDrains.DaemonGetsThrough`: requests in the window of `DiskDaemon.DaemonSafe`. The transfer and its status are not modelled.
- `ClockPeriods.TicksRelease`: a run of clock interrupts only; `ClockPeriods.EveryTwentieth` covers each interrupt of any run.
- `FlatMemory.OkStep`: steps of calm runs; `RealMemory.FineStep` covers every step on private pages.
- `FlatMemory.ReadsLastWrite`: calm runs, in which no page is referred to between the daemon's test and its clearing; `RealMemory.FoundUnraced` and `RealMemory.FoundIff` cover the others.
- `DiskPositions.SlotKept`: calm runs; `DiskPositions.PositionKeptIff` covers all runs on private pages.
- `DiskPositions.DiskKept`: the second loop of `putframe`, which marks positions of a terminating process free, is left out (see `Paging.Tables.PutFrame`); with it a position can also come free when its terminal ends.
- `DiskPositions.SecondPosition`: the same; and `DiskPositions.PositionsConserved` counts positions without that loop.
- `DiskPositions.SlotsDistinct`: calm runs, and a floppy with a position for each private page; `DiskPositions.SearchFailsIff` and `DiskPositions.PositionsSuffice` cover all runs on private pages.
- `RealMemory.TruthRead`: private pages, and runs without a double release, only. A shared page's reference bit and frame are looked up without protection against a concurrent eviction (support/part1/support.c:316-331, support/part2/page.c:285-298), so shared pages are in the frame count and the daemon's wakeup alone.
- `EvictionRace.LostWrite`: nobody waits for `sem_mm`; with waiters the owner's fault is served after theirs.
- `EvictionRace.LostFromStart`: frames and terminals differ by two to thirty-three, which includes the source's twenty frames and five terminals; with more frames one terminal alone cannot make them short.
- `FrameCredit.StepInv`: steps other than a double release; `FrameCredit.StepKept` covers every step.
- `FrameCredit.FrameCredit`: runs in which no process gives back a frame that is being written out; `FrameCredit.FramesConserved` covers all runs. What follows a search that fails is not modelled.
- `DoubleRelease.SearchFails`: two terminals or more, and up to thirty frames, which includes the source's five and twenty.
- `PagerWakeup.PagerWoken`: runs without a double release, and with the daemon signalled by `p1` if frames are short from the start.
- `Paging.Tables.PutFrame`: the second loop, which gives back disk positions, is left out: it indexes `pfs_arr` by page number, up to 31, although the table has MAXFRAMES entries (support/part2/page.c:360-367).
- The end of the page daemon, and what a frame holds before its first write: a page never written has no promised contents.
