# A verified model of the RTOS core

The bare-metal RTOS keeps four things together that are easy to get subtly wrong: a lock made of plain loads and
stores, a kernel of intrusive linked lists with priority inheritance and timeouts, a firmware update path that must
never brick the board, and a boot sequence that decides which image to trust. This project models them in Dafny and
proves what they are for. `dafny verify dfyconfig.toml` checks the whole project.

## How the model is built

* **Locks.** `Spinlock.dfy` holds the Bakery lock as a step machine, one load or store per step, for any number of
  cores: mutual exclusion, first-come-first-served, and deadlock freedom. `SharedLock` is the same machine on the two
  shared arrays. `LockOrder.dfy` has every kernel call as the sequence of locks it takes and releases, and any number of
  cores running such calls: no wait goes in a circle, and from every reachable state all calls can run to their end.
  Tickets are natural numbers and memory is sequentially consistent, as the spinlock's own
  documentation assumes.
* **Kernel.** `Scheduler.dfy` and `Kernel.dfy` give one core's tasks, ready lists, sleepers, semaphores and mutexes as a
  value, and every critical section, interrupt and tick as one act on it. `KernelSafety.dfy` proves that each act keeps
  the invariant; `KernelRuns.dfy` draws the conclusions for all runs: exact lists, token conservation, priority
  inheritance, no inversion, waits that end exactly once. `KernelResults.dfy` says what each call answers and leaves
  behind, and that waiting tasks are served in order. `KernelLists.dfy`, `KernelTasks.dfy`, `KernelCore.dfy` and
  `KernelCalls.dfy` are the same kernel on the heap: nodes with `next`, `prev` and `container`, lists with `head`,
  `listEnd`, `index` and a length. Each method does to the linked objects exactly what the act of the same name does to
  the value, and `KernelCalls.Execute` does so for any run.
* **Queue, timers, UART.** `Queue.dfy` interleaves any number of senders and receivers between their accesses to the
  two semaphores, the lock and the single bytes of the buffer, and shows a FIFO. `SoftwareTimer.dfy` and
  `TimerService.dfy` are the two timer lists as a value and as singly linked nodes. `UartRing.dfy` is the transmit ring
  with locked producers and a lock-free consumer, for the DMA and the byte-by-byte drain.
* **Firmware update.** `Crc.dfy` relates the word, halfword and byte CRC instructions to the CRC-32 of section 8 of RFC
  1952. `Storage.dfy` is the eMMC as a map from sectors to 512 bytes, with image validation and the metadata record.
  `Packet.dfy` is the wire format and its parser, `Dfu.dfy` the session as a function of the bytes received,
  `DfuSafety.dfy` what no session can break, `DfuBounds.dfy` exactly when one stays inside its slot and its packet
  buffer, and `DfuFlash.dfy` what every sector holds afterwards, both read off the bytes that arrive, as
  `DfuReplies.dfy` does for every answer and for how the session ends and `DfuCommit.dfy` for which images are
  committed, `DfuReceiver.dfy` the receive loop with its buffers, `DfuSender.dfy` the host's loop and the end-to-end
  theorem, `DfuTransfer.dfy` both ends run together, `DfuFailures.dfy` inputs on which the receiver breaks its promises.
* **Boot and watchdog.** `Boot.dfy` is the bootloader's trial and tolerance logic and one attempt of its execute loop;
  `BootSafety.dfy` follows boots, resets, update sessions and confirmations over any run; `BootTrials.dfy` says exactly
  when the trial promise holds. `Watchdog.dfy` is the
  multicore watchdog gate, one flag access per step, for any number of cores.

`Sequences.dfy` holds the few facts about lists of distinct elements that several parts share.

## Where code and documentation differ

* The kernel's documentation calls the rollback policy reserved and not implemented; the bootloader implements it. When
  it fires in the same boot in which a trial expires, the two slot changes cancel out and the unconfirmed image stays
  (`Boot.DoubleFlip`, `Boot.TrialRevertsExactly`). With a tolerance of two resets the third boot after a commit is such a
  boot: `BootTrials.RollbackBreaks` launches a never confirmed image a fourth time, off trial. The run theorems
  therefore exclude that policy with a non-negative tolerance.
* The watchdog's documentation promises that an image that is never confirmed is rolled back from. An update committed
  while the active slot is still on trial forgets that trial (`Boot.TrialForgotten`): the later rollback lands on the
  older image, which is then launched without limit. `BootTrials.FourthLaunch` is such a run, from an empty board;
  `BootTrials.BoundLostExactly` says that a commit while the stored trial flag is set is what loses the bound, and
  nothing else does. A bootloader that refuses updates while the flag is set would keep the promise.
* The update documentation says an aborted session cannot harm the active slot. The receiver never bounds the sectors it
  writes. The sectors a session claims avoid the active slot exactly when slot A is active or header and data fit slot A
  (`DfuBounds.AppSessionOverlap`); a claimed sector that is not full is written only by a FINISH whose CRC agrees. So
  slot B, when active, is written to exactly when the bytes carried fill slot A and one sector more, or end in that
  sector, or open it with an empty DATA packet, and such a FINISH follows, whether or not the image then validates
  (`DfuFlash.ActiveSlotExactly`, `DfuFlash.ActiveSlotAfter`). `DfuFailures.ActiveHeaderOverwritten` puts any content in
  place of the active image's header. A self-update reaches the metadata sector under the same condition at that
  distance (`DfuFlash.MetadataAfter`).
* Re-arming a periodic timer is unconditional, and creating a timer never takes it off its list. An act leaves the lists
  sound, also after the pending re-arm, if and only if it does not create a timer that is still linked
  (`SoftwareTimer.CreateTwiceBreaks`) and does not reset, or create anew as periodic, the periodic timer that the
  service task has in hand (`SoftwareTimer.ResetInHandBreaks`): `SoftwareTimer.CallsSoundExactly`. On the linked nodes
  themselves, creating a linked timer always leaves something that is no list or that the tags contradict
  (`TimerService.Service.Create`). Stopping a timer in hand is harmless to the lists, but the stop is lost, and lost
  only then (`SoftwareTimer.StopLostExactly`).
* A packet length above 256 makes the parser store past its buffer, exactly when 257 bytes of such a packet arrive in
  time (`Packet.OverrunExactly`, `DfuBounds.ReceiveOverruns`, `DfuFailures.LongPacketOverruns`). The model ends such a
  session there; what memory holds afterwards is not the program's any more, and the session theorems speak of sessions
  without such a packet.

## Model

| member | source | states |
|---|---|---|
| Spinlock.StepInv | source/kernel/spinlock/spinlock.c:11-72 | every single load or store of any core keeps the Bakery invariant |
| Spinlock.MutualExclusion | source/kernel/spinlock/spinlock.c:11-72 | in every interleaving, no two cores are past acquire and before the ticket clear of release |
| Spinlock.FirstComeFirstServed | source/kernel/spinlock/spinlock.c:15-60 | a core that stored its ticket, its choosing flag still set or not, before another began drawing enters before it |
| Spinlock.ForemostEnters | source/kernel/spinlock/spinlock.c:33-60 | the core with the least (ticket, id) gets in by its own steps when nobody is drawing or inside |
| Spinlock.DeadlockFree | source/kernel/spinlock/spinlock.c:15-60 | from any reachable state with waiters and nobody inside, a finite run lets one enter |
| Spinlock.SharedLock.Access | source/kernel/spinlock/spinlock.c:18-70 | each access to the shared arrays in place is one step of the machine and keeps the invariant |
| LockOrder.CallsDisciplined | source/kernel/mutex/mutex.c:63-245 | every kernel call, on every branch, takes an object's lock first and alone, then one core's at a time, and releases in the opposite order |
| LockOrder.NoCyclicWait | source/kernel/mutex/mutex.c:91-121 | in every reachable state of any number of cores running such calls, every chain of waits has at most three cores and none is a circle |
| LockOrder.SomebodyMoves | source/kernel/semaphore/semaphore.c:93-100 | whenever a core is in the middle of a call, some core in the middle of one can go on |
| LockOrder.NeverStuck | source/kernel/mutex/mutex.c:91-121 | from every reachable state a finite schedule ends every call begun, all locks released, and no lock ever has two holders |
| Scheduler.PlaceAfter | source/kernel/scheduler/scheduler.c:326-340 | the search stops at the first later wake-up, past all earlier or equal ones |
| Scheduler.TopBelow | source/kernel/scheduler/scheduler.c:256-268 | the highest non-empty ready list, every list above it being empty |
| Scheduler.ParkKeeps | source/kernel/scheduler/scheduler.c:186-226 | leaving the ready list to wait keeps every ready list, its cursor and the sorted sleepers consistent |
| Scheduler.UnparkKeeps | source/kernel/scheduler/scheduler.c:347-380 | waking keeps them and takes off the sleepers exactly the woken task |
| Scheduler.ChangePriorityKeeps | source/kernel/scheduler/scheduler.c:386-423 | moving a task between priority lists keeps them and changes only its priority and place, blocked tasks included |
| Scheduler.SwitchKeeps | source/kernel/scheduler/scheduler.c:229-272 | a context switch moves only the RUNNING mark and one cursor |
| Scheduler.SwitchPicksHighest | source/kernel/scheduler/scheduler.c:256-268 | with any unblocked task there is a current task afterwards, none of higher priority passed over |
| Scheduler.RoundRobin | source/kernel/scheduler/scheduler.c:244-268 | n consecutive switches over unchanged lists run each of the top list's n tasks exactly once, wherever the cursor stood |
| Kernel.ScanSpec | source/kernel/mutex/mutex.c:169-189 | the handoff scan finds the first waiter of highest priority and the highest priority among the others |
| KernelSafety.BlockUntilKeeps | source/kernel/scheduler/scheduler.c:425-444 | a delay keeps the kernel invariant |
| KernelSafety.TakeTryKeeps | source/kernel/semaphore/semaphore.c:68-107 | taking a token, giving up, or queueing keeps the kernel invariant |
| KernelSafety.TakeWokenKeeps | source/kernel/semaphore/semaphore.c:109-121 | the wake-up check of a waiting taker keeps it |
| KernelSafety.GiveKeeps | source/kernel/semaphore/semaphore.c:124-171 | direct handoff, counting up and refusal keep it, tokens conserved |
| KernelSafety.LockKeeps | source/kernel/mutex/mutex.c:63-124 | acquiring, giving up, and queueing with the owner's boost keep it |
| KernelSafety.LockWokenKeeps | source/kernel/mutex/mutex.c:126-134 | the wake-up check of mutex_lock keeps it |
| KernelSafety.ReleasedHolds | source/kernel/mutex/mutex.c:211-221 | demotion happens only when no inheriting mutex is left, so no other waiter's claim on the holder is cut short |
| KernelSafety.SecondBounds | source/kernel/mutex/mutex.c:169-209 | the priority left to inherit covers every remaining waiter's priority at enqueue time |
| KernelSafety.UnlockKeeps | source/kernel/mutex/mutex.c:137-245 | unlocking, with or without a handoff, keeps the kernel invariant |
| KernelSafety.SetInheritanceKeeps | source/kernel/mutex/mutex.c:31-44 | switching inheritance on an idle mutex, or refusing, keeps it |
| KernelSafety.CreateKeeps | source/kernel/task/task.c:53-122 | creating a task as one atomic act, priority capped and pool bounded, keeps it |
| KernelSafety.ExpireKeeps | source/kernel/scheduler/scheduler.c:484-516 | waking one timed-out task takes it off the sleepers and off the one list it waits on |
| KernelSafety.InitInv | source/kernel/scheduler/scheduler.c:62-145 | the state after initialisation satisfies the kernel invariant |
| KernelSafety.StepKeeps | source/kernel/scheduler/scheduler.c:154-517 | every act of tasks, interrupts and creators keeps the kernel invariant |
| KernelRuns.RunSafe | source/kernel/scheduler/scheduler.c:154-517 | over every run: each unblocked task is on exactly its priority's ready list, cursors are members, sleepers sorted; tokens conserved; inheritance bounds hold |
| KernelRuns.Consequences | source/kernel/mutex/mutex.c:104-121 | initial count plus gives equals count plus takes plus handoffs in flight; owner priority at least the inherited one at least every waiter's; held count exact; none held means base priority |
| KernelRuns.NoInversion | source/kernel/scheduler/scheduler.c:256-268 | while an inheriting mutex's owner can run, no task below a waiter's priority at enqueue time is picked |
| KernelRuns.AlwaysRunning | source/kernel/scheduler/scheduler.c:256-271 | every switch leaves a RUNNING task of maximal priority, never none |
| KernelRuns.TickExact | source/kernel/scheduler/scheduler.c:481-517 | a tick wakes exactly the sleepers that are due, with a timeout, off every wait list, and changes no other task |
| KernelRuns.OthersEvolve | source/kernel/semaphore/semaphore.c:124-171 | another task's wait can only be ended by the tick at its time, a give to its semaphore, or an unlock of its mutex |
| KernelRuns.WaitEndsOnce | source/kernel/scheduler/scheduler.c:484-516 | one act at a time: a wait ends by handoff or timeout, never undone; a timed-out task never becomes owner |
| KernelRuns.OneEnding | source/kernel/scheduler/scheduler.c:484-516 | over a whole run: a wait is pending up to one point and from there on ended, by one reason that never changes |
| KernelRuns.NoEarlyTimeout | source/kernel/scheduler/scheduler.c:484-516 | a pending wait times out at a tick exactly when it has a timeout and its time has come |
| KernelRuns.LockReport | source/kernel/mutex/mutex.c:126-134 | mutex_lock reports success exactly when the caller owns the mutex, exactly when it was handed over |
| KernelRuns.LockOutcome | source/kernel/mutex/mutex.c:63-135 | a whole mutex_lock, whatever happens meanwhile: success exactly when the caller owns the mutex, a timeout never before its time, no wait exactly when the mutex is free or the timeout is 0 |
| KernelRuns.TakeOutcome | source/kernel/semaphore/semaphore.c:62-122 | a whole semaphore_take, retries included: success having taken exactly one token, or a timeout having taken none, with none there and never before its time |
| KernelRuns.TakeBegins | source/kernel/semaphore/semaphore.c:62-66 | every semaphore_take begins with the deadline now + timeout, and none without a positive timeout |
| KernelResults.DelayOutcome | source/kernel/scheduler/scheduler.c:425-444 | a whole block_until, whatever happens meanwhile, returns no earlier than the tick asked for |
| KernelResults.DelayWakes | source/kernel/scheduler/scheduler.c:484-516 | and its sleeper is made ready by the very tick that brings that time |
| KernelResults.CreateResult | source/kernel/task/task.c:53-122 | unless the pool is full there is one more task, ready, last in the list of the priority asked for or of the highest there is, and nothing else changes |
| KernelResults.SetInheritanceResult | source/kernel/mutex/mutex.c:31-44 | the flag is then what was asked for, unless the mutex is in use; nothing else changes |
| KernelResults.TakeTryResult | source/kernel/semaphore/semaphore.c:68-107 | one token exactly less if there is one; a timeout exactly if there is none and no time left; else the caller waits behind everyone else until its deadline |
| KernelResults.TakeWokenResult | source/kernel/semaphore/semaphore.c:109-121 | a woken taker returns with a token exactly if one was handed to it, and otherwise goes round again with the same deadline |
| KernelResults.GiveResult | source/kernel/semaphore/semaphore.c:124-171 | the token goes to the longest waiting task, who is put last in its ready list; with nobody waiting the count rises by one up to its ceiling |
| KernelResults.LockResult | source/kernel/mutex/mutex.c:63-124 | a free mutex is the caller's; otherwise it waits behind everyone else, and the owner of an inheriting mutex then has at least the priority of each |
| KernelResults.UnlockResult | source/kernel/mutex/mutex.c:137-245 | the mutex goes to the first waiter of highest priority, with the highest priority among the others left to inherit, and the holder loses the claim it gave |
| KernelResults.CursorResult | source/kernel/scheduler/scheduler.c:192-223 | when the task under the cursor leaves its ready list, the cursor goes to the next one round |
| KernelResults.PlaceResult | source/kernel/scheduler/scheduler.c:312-344 | a sleeper goes behind all that wake no later, except in front of a first one that wakes at the same tick |
| KernelResults.OrderOfWaiting | source/kernel/semaphore/semaphore.c:101-107 | whatever act happens, the tasks waiting for a semaphore or a mutex keep the order in which they began to wait |
| KernelResults.ServedInOrder | source/kernel/semaphore/semaphore.c:131-160 | over any run: while a task that began to wait for a semaphore earlier still waits, no token goes to one that began later |
| KernelLists.List.Append | source/kernel/scheduler/scheduler.c:163-177 | linking in at the end keeps an acyclic doubly linked chain with ends, length, containers and cursor in agreement |
| KernelLists.List.InsertAfter | source/kernel/scheduler/scheduler.c:331-342 | linking in behind a node does, at that place |
| KernelLists.List.Prepend | source/kernel/scheduler/scheduler.c:317-325 | linking in before the head does |
| KernelLists.List.Unlink | source/kernel/scheduler/scheduler.c:192-223 | unlinking a node anywhere does, the cursor going to the successor or else the head |
| KernelLists.List.Advance | source/kernel/scheduler/scheduler.c:249-252 | the cursor goes to the cyclic successor |
| KernelTasks.TaskPool.LinkLast | source/kernel/mutex/mutex.c:46-61 | linking a task's node into one list leaves every other list's chain and contents alone |
| KernelTasks.TaskPool.Unlink | source/kernel/scheduler/scheduler.c:491-510 | so does unlinking it, after which the node points nowhere |
| KernelCore.Core.AddToReady | source/kernel/scheduler/scheduler.c:154-182 | the objects do exactly what the value operation does |
| KernelCore.Core.RemoveFromReady | source/kernel/scheduler/scheduler.c:186-226 | likewise, a task outside its ready list being left alone |
| KernelCore.Core.AddToBlocked | source/kernel/scheduler/scheduler.c:301-344 | likewise, the search over nodes ending where the value's place is |
| KernelCore.Core.RemoveFromBlocked | source/kernel/scheduler/scheduler.c:347-380 | likewise |
| KernelCore.Core.ChangeTaskPriority | source/kernel/scheduler/scheduler.c:386-423 | likewise |
| KernelCore.Core.SwitchContext | source/kernel/scheduler/scheduler.c:229-272 | likewise, by the loop over priorities |
| KernelCalls.DelayUntil | source/kernel/scheduler/scheduler.c:425-444 | block_until on the linked lists is the act BlockUntil |
| KernelCalls.SemaphoreTry | source/kernel/semaphore/semaphore.c:68-107 | semaphore_take's first critical section is the act TakeTry |
| KernelCalls.SemaphoreWoken | source/kernel/semaphore/semaphore.c:111-120 | its second is the act TakeWoken |
| KernelCalls.SemaphoreGive | source/kernel/semaphore/semaphore.c:124-171 | semaphore_give is the act Give, accepted exactly with a waiter or below the ceiling |
| KernelCalls.MutexLock | source/kernel/mutex/mutex.c:63-124 | mutex_lock's first critical section is the act Lock |
| KernelCalls.MutexWoken | source/kernel/mutex/mutex.c:128-134 | its second is the act LockWoken |
| KernelCalls.Scan | source/kernel/mutex/mutex.c:173-189 | the pointer walk over the waiters computes the handoff scan |
| KernelCalls.MutexUnlock | source/kernel/mutex/mutex.c:137-245 | mutex_unlock is the act Unlock, mid-list removal included |
| KernelCalls.MutexSetInheritance | source/kernel/mutex/mutex.c:31-44 | refused exactly while locked or waited for |
| KernelCalls.TimerTick | source/kernel/scheduler/scheduler.c:465-517 | the tick's draining loop is the act Tick |
| KernelCalls.TaskCreate | source/kernel/task/task.c:53-122 | task_create is the act Create, refused exactly when the pool is full |
| KernelCalls.SchedulerInit | source/kernel/scheduler/scheduler.c:62-145 | builds objects that represent the initial kernel |
| KernelCalls.Execute | source/kernel/scheduler/scheduler.c:154-517 | any run of calls, ticks and switches on the objects: every list stays a chain, and they represent the run's value |
| Queue.NextKeeps | source/kernel/queue/queue.c:40-88 | every access of any sender or receiver keeps the queue invariant |
| Queue.TokensAddUp | source/kernel/queue/queue.c:40-88 | space tokens plus data tokens plus operations in flight equal the capacity |
| Queue.CeilingNeverHit | source/kernel/queue/queue.c:60-85 | the closing semaphore_give always finds its semaphore below the ceiling |
| Queue.WritesFreeSlot | source/kernel/queue/queue.c:51-53 | no byte of an unread item is overwritten |
| Queue.ReadsWrittenSlot | source/kernel/queue/queue.c:76-78 | no unwritten slot is read: a receiver's slot holds the oldest unread item |
| Queue.Fifo | source/kernel/queue/queue.c:40-88 | in any interleaving items leave in the order they were written, with at most the capacity between |
| Queue.WritesAreOffered | source/kernel/queue/queue.c:40-62 | in any run the items a task writes are the items its queue_send calls were given, byte for byte, in order, each once, the last perhaps still on its way |
| Queue.ItemsDelivered | source/kernel/queue/queue.c:40-88 | from the beginning: the items that queue_recv calls copied out, in the order they complete, are a prefix of an interleaving of those, at most the capacity behind |
| Queue.QueueBuffer.Store | source/kernel/queue/queue.c:51-55 | the byte loop fills one slot of the flat buffer, leaves the others, and advances head modulo the capacity |
| Queue.QueueBuffer.Fetch | source/kernel/queue/queue.c:76-80 | the byte loop returns one slot and advances tail |
| Queue.StoreByte | source/kernel/queue/queue.c:51-53 | one byte stored in the flat buffer changes one place of one slot |
| Queue.SharedQueue.Access | source/kernel/queue/queue.c:40-88 | every access to the flat buffer, the indices, the counts and the lock is one step of the interleaved machine |
| SoftwareTimer.TickExact | source/kernel/software_timer/software_timer.c:205-214 | a tick moves exactly the timers whose expiry has come and gives one token for each |
| SoftwareTimer.StepKeeps | source/kernel/software_timer/software_timer.c:22-214 | create, stop, reset, tick and the service task keep the lists disjoint, tagged, sorted and covered by tokens, under the conditions that CallsSoundExactly shows necessary |
| SoftwareTimer.RunSafe | source/kernel/software_timer/software_timer.c:22-214 | over every run under those conditions, and pending tokens with the one in flight never fall below the active list's length |
| SoftwareTimer.DriftFree | source/kernel/software_timer/software_timer.c:108-114 | a periodic timer left alone expires at e0 plus n periods after n re-arms, however late the service |
| SoftwareTimer.CreateResult | source/kernel/software_timer/software_timer.c:140-164 | a timer created running expires one period from now, one not running is linked nowhere, and a period of 0 is refused |
| SoftwareTimer.RestartResult | source/kernel/software_timer/software_timer.c:186-203 | a reset timer expires one period from now |
| SoftwareTimer.PlaceResult | source/kernel/software_timer/software_timer.c:42-62 | a timer is armed behind exactly those that expire no later |
| SoftwareTimer.PopResult | source/kernel/software_timer/software_timer.c:80-101 | a token taken by the service task is used up and serves one expired timer exactly if there is one, the others being left as they were |
| SoftwareTimer.RearmSoundExactly | source/kernel/software_timer/software_timer.c:108-114 | the unconditional re-arm keeps the lists sound exactly when the timer is on no list |
| SoftwareTimer.CreateSoundExactly | source/kernel/software_timer/software_timer.c:140-164 | creating a timer, armed at once or not, leaves the lists sound if and only if the period is 0 or the timer is on no list |
| SoftwareTimer.CallsSoundExactly | source/kernel/software_timer/software_timer.c:81-214 | for every act in every state: the lists are sound after it and after the pending re-arm if and only if it neither creates a linked timer nor arms the one in hand as periodic |
| SoftwareTimer.CreateTwiceBreaks | source/kernel/software_timer/software_timer.c:140-164 | creating one timer twice, from initialisation, breaks the lists |
| TimerService.Service.Create | source/kernel/software_timer/software_timer.c:140-164 | on the nodes: what the two heads lead to afterwards is sound if and only if the period is 0 or the timer was on no list, and then it is the act Create |
| TimerService.Circle | source/kernel/software_timer/software_timer.c:47-64 | a timer linked in once more behind its own cut-off list makes the links run in a circle |
| SoftwareTimer.ResetInHandBreaks | source/kernel/software_timer/software_timer.c:186-203 | create, tick, take, pop, reset, re-arm: a run from initialisation after which the lists are broken |
| SoftwareTimer.StopLostExactly | source/kernel/software_timer/software_timer.c:166-184 | a stopped timer comes back untouched if and only if the service task had it, a periodic one, in hand |
| TimerService.Unlink | source/kernel/software_timer/software_timer.c:22-42 | removes exactly the timer from a singly linked list, or reports it absent |
| TimerService.Insert | source/kernel/software_timer/software_timer.c:47-64 | links a timer in at its sorted place, behind equals |
| TimerService.Service.ExpireHead | source/kernel/software_timer/software_timer.c:69-79 | pop to active and the token, on the nodes |
| TimerService.Service.Reset | source/kernel/software_timer/software_timer.c:186-203 | software_timer_reset on the nodes is the act Restart |
| TimerService.Service.RearmInHand | source/kernel/software_timer/software_timer.c:108-114 | the re-arm on the nodes is the act Rearm |
| TimerService.Service.Execute | source/kernel/software_timer/software_timer.c:81-214 | any run of calls, ticks and service steps on the nodes represents the run's value |
| UartRing.NextKeeps | source/drivers/uart/uart.c:337-445 | every access of producer or consumer keeps the ring invariant |
| UartRing.PrefixAndWake | source/drivers/uart/uart.c:337-484 | bytes sent are a prefix, in order, of bytes accepted; no DMA run crosses the end; a sleeping consumer with bytes waiting has a token or will get one |
| UartRing.DrainedWhenAsleep | source/drivers/uart/uart.c:343-369 | when the consumer sleeps and nobody is about to wake it, everything accepted was sent |
| UartRing.AcceptedInOrder | source/drivers/uart/uart.c:433-484 | over any run: the accepted bytes are those of the calls' texts, in order, without exactly the bytes that met a full ring |
| UartRing.TextAccepted | source/drivers/uart/uart.c:433-484 | a text for which there is room is accepted whole, whatever the consumer does meanwhile |
| UartRing.LineCarries | source/drivers/uart/uart.c:343-369 | once the consumer sleeps and nobody is about to wake it, the line has carried exactly those bytes |
| UartRing.TxRing.Produce | source/drivers/uart/uart.c:433-445 | the producer's accesses, modulo arithmetic and all, are the machine's |
| UartRing.TxRing.Consume | source/drivers/uart/uart.c:337-370 | so are the consumer's, DMA run split and byte drain |
| Crc.RfcConcat | source/drivers/crc/crc.c:35-48 | the RFC 1952 CRC of a concatenation is the CRC of the second part started from the first |
| Crc.AbsorbConcat | source/drivers/crc/crc.c:30-48 | streaming in any split absorbs the same as one pass |
| Crc.ByteInstruction | source/drivers/crc/crc.c:25-27 | the byte instruction is one byte of the bit-serial CRC |
| Crc.HalfInstruction | source/drivers/crc/crc.c:19-24 | the halfword instruction is two bytes, little end first |
| Crc.QuadInstruction | source/drivers/crc/crc.c:12-18 | the word instruction is four bytes, little end first |
| Crc.HwUpdate | source/drivers/crc/crc.c:10-28 | the word, halfword and byte chunking equals the bit-serial CRC for every length |
| Storage.ValidateApp | source/boot/boot/boot.c:23-64 | the sector-by-sector loop accepts exactly headers of version 1, non-zero length and matching CRC |
| Storage.ReadBytesFrame | source/boot/boot/boot.c:47-53 | the bytes read back depend on the sectors they occupy only |
| BootSafety.SlotFrame | source/boot/boot/boot.c:23-64 | the verdict on an image that fits its slot depends on the slot's own sectors only |
| Storage.MetaRoundTrip | source/drivers/watchdog/watchdog.c:72-106 | metadata written is read back field by field, magic and CRC agreeing |
| Storage.MetaLayout | source/drivers/watchdog/watchdog.c:93-106 | each field is at its place of the record, little end first |
| Storage.MetaTrustedExactly | source/drivers/watchdog/watchdog.c:72-91 | a sector with the magic and the right CRC is read for exactly what it says, every other one gives the defaults |
| Storage.WriteMetaReadsBack | source/drivers/watchdog/watchdog.c:93-106 | and the write touches no other sector |
| Packet.PacketReceive | source/boot/dfu_receive/dfu_receive.c:38-119 | the byte-driven state machine computes the packet grammar, timeouts and resynchronisation included |
| Packet.FrameRoundTrip | scripts/dfu_flash.py:199-216 | parsing a built frame after noise without a start byte returns its command and payload and consumes exactly it |
| Packet.FrameBytes | scripts/dfu_flash.py:199-216 | the bytes of a frame one by one, and its length |
| Packet.StreamRoundTrip | scripts/dfu_flash.py:199-216 | parsing a concatenation of frames with noise between returns exactly that list |
| Packet.OverrunExactly | source/boot/dfu_receive/dfu_receive.c:66-84 | from a start byte and a valid command: the parser stores past its buffer if and only if the length bytes exceed 256 and 257 payload bytes arrive without a timeout |
| Packet.ParseOverruns | source/boot/dfu_receive/dfu_receive.c:38-119 | the same for any line, counted from the first valid command |
| DfuSafety.DataReassembles | source/boot/dfu_receive/dfu_receive.c:276-306 | after a DATA packet the sectors behind the header hold the concatenated payloads in order |
| DfuSafety.FlushKeeps | source/boot/dfu_receive/dfu_receive.c:361-366 | after the flush flash holds the stream zero-padded to a sector |
| DfuSafety.PacketKeeps | source/boot/dfu_receive/dfu_receive.c:177-446 | every packet keeps the session invariant |
| DfuSafety.SessionSafe | source/boot/dfu_receive/dfu_receive.c:137-453 | every session without an overlong packet: nothing outside the written sectors changes, or the metadata names a slot that reads back valid with the marker |
| DfuBounds.ReceiveOverruns | source/boot/dfu_receive/dfu_receive.c:137-453 | a session stores past the packet buffer if and only if, after the trigger key and some packets that do not end it, an overlong packet is next: read off the line alone |
| DfuBounds.SessionIs | source/boot/dfu_receive/dfu_receive.c:177-343 | which image a session writes, its declared length and its bytes are a function of the packets alone |
| DfuBounds.StaysInsideExactly | source/boot/dfu_receive/dfu_receive.c:276-306 | what a host must keep to, in bytes carried since START, so that the session stays inside its slot |
| DfuBounds.AppSessionOverlap | source/boot/dfu_receive/dfu_receive.c:202-206 | the sectors an app session has written or claimed avoid the active slot if and only if slot A is active or the bytes carried since START fit slot A |
| DfuFlash.SectorAfter | source/boot/dfu_receive/dfu_receive.c:276-366 | every sector behind the header after any session: its piece of the image if the image fills it, or ends in it and a FINISH with matching CRC flushes it, and otherwise what it held before |
| DfuFlash.ActiveSlotAfter | source/boot/dfu_receive/dfu_receive.c:276-366 | the same for every sector of the active slot |
| DfuFlash.ActiveSlotExactly | source/boot/dfu_receive/dfu_receive.c:202-206 | some sector of the active slot is written if and only if its header sector is: slot B active, and slot A overfilled or overrun by a flushed rest |
| DfuFlash.ActiveSlotUntouched | source/boot/dfu_receive/dfu_receive.c:202-206 | otherwise every sector of the active slot is left alone |
| DfuFailures.ActiveHeaderOverwritten | source/boot/dfu_receive/dfu_receive.c:276-298 | for any sector content an input that puts it in place of the active image's header |
| DfuFailures.LongPacketOverruns | source/boot/dfu_receive/dfu_receive.c:66-84 | 265 bytes that make the receiver store past its packet buffer, whatever the board's state |
| DfuFlash.MetadataAfter | source/boot/dfu_receive/dfu_receive.c:418-434 | the metadata sector after any session without a commit: a piece of the image if a self-update reaches it, and otherwise unchanged; its RAM copy and the CRC verdict unchanged in any case |
| DfuFlash.MetadataOnlyAtCommit | source/boot/dfu_receive/dfu_receive.c:418-434 | unless a self-update reaches it, the metadata changes only at a commit |
| DfuReplies.ReceiveReplies | source/boot/dfu_receive/dfu_receive.c:137-453 | everything a session answers, from the packets alone: an ACK for the trigger, for the START and for each DATA packet, and one last byte, ACK exactly if it committed or replaced the bootloader, NACK exactly if it refused |
| DfuReplies.SessionOutcome | source/boot/dfu_receive/dfu_receive.c:345-435 | a session commits, or replaces the bootloader, exactly if the packets end in a FINISH whose CRC agrees and, for a slot, the image in flash validates and carries its marker |
| DfuCommit.CommitsExactly | source/boot/dfu_receive/dfu_receive.c:345-425 | with as many bytes carried as declared, a session commits exactly if its FINISH is accepted, version 1 and a length other than 0 were declared, and the image carries the marker, whatever flash held before |
| DfuReceiver.DataMatches | source/boot/dfu_receive/dfu_receive.c:276-315 | counters, buffer and running CRC after a payload stand for the longer stream, the CRC covering its first min(total, length) bytes |
| DfuReceiver.Receiver.HandleStart | source/boot/dfu_receive/dfu_receive.c:182-264 | the START branches on the static buffer do what the session function says |
| DfuReceiver.Receiver.HandleData | source/boot/dfu_receive/dfu_receive.c:266-335 | so does the DATA branch, sector completion included |
| DfuReceiver.Receiver.HandleFinish | source/boot/dfu_receive/dfu_receive.c:345-435 | so does the FINISH branch: CRC, padding, read-back, marker, commit |
| DfuReceiver.ReceiveSession | source/boot/dfu_receive/dfu_receive.c:137-453 | the whole loop, from the trigger key on, computes the session function of its input |
| DfuSender.FlashImage | scripts/dfu_flash.py:276-350 | refuses empty and oversized images, otherwise sends START, padded chunks and FINISH |
| DfuSender.SendChunks | scripts/dfu_flash.py:319-336 | the chunk loop sends the image in packets of at most 256 bytes |
| DfuSender.TriggerFires | source/boot/dfu_trigger/dfu_trigger.c:15-19 | a trigger key surrounded by noise starts the session, leaving only noise unread |
| DfuSender.SendData | source/boot/dfu_receive/dfu_receive.c:266-335 | the sender's DATA packets drive the receiver through the whole padded image, each acknowledged |
| DfuSender.HeldImageIsValid | source/boot/boot/boot.c:23-64 | a slot holding the header and the zero-padded image validates, and carries the marker exactly when the image does |
| DfuSender.EndToEnd | scripts/dfu_flash.py:292-350 | for every image of 36 to 65535 bytes with the marker, with noise around the trigger key and between the packets, the sender's bytes drive the receiver to DONE, the other slot holding it, metadata flipped, on trial |
| DfuTransfer.Update | source/boot/dfu_receive/dfu_receive.c:182-434 | sender loop and receiver loop run together leave the image committed |
| Boot.TrialRevertsExactly | source/samples/boot/bootloader/main.c:145-201 | an expired trial reverts exactly when the rollback policy does not fire in the same boot |
| Boot.DoubleFlip | source/samples/boot/bootloader/main.c:150-200 | a metadata record, that of the third boot after a commit, for which both slot changes happen and the unconfirmed slot stays |
| Boot.TrialForgotten | source/samples/boot/bootloader/main.c:148-162 | a commit leaves the same metadata whatever trial was pending, and three boots later names the previous slot again, off trial |
| Boot.Bootloader.Init | source/samples/boot/bootloader/main.c:78-222 | bootloader_init does trial resolution, tolerance policy, revalidation and write-back as the boot function says |
| Boot.Bootloader.Attempt | source/samples/boot/bootloader/main.c:224-262 | one bootloader_execute launches, or runs a session and launches, fails, restarts or waits |
| BootSafety.AttemptServes | source/samples/boot/bootloader/main.c:224-262 | without a request and with a trusted image an attempt launches it and changes nothing; otherwise it waits for the trigger key first and launches exactly when its session committed |
| BootSafety.TryIsExecute | source/samples/boot/bootloader/main.c:264-288 | while attempts are left, an attempt of the run machine is the bootloader's, in world and ending |
| BootSafety.RecoveryIsExecute | source/samples/boot/bootloader/main.c:264-288 | with none left it is one with an update requested, whatever image there is |
| BootSafety.ForcedUpdateHappens | source/samples/boot/bootloader/main.c:203-212 | a boot with more resets than tolerated under the force-update policy has to update, and forgets the resets |
| BootSafety.BootAsksNothing | source/samples/boot/bootloader/main.c:142-221 | every other boot asks for no update of its own, and counts one reset |
| BootSafety.BootVerdict | source/samples/boot/bootloader/main.c:142-221 | the metadata is stored, and after a cold boot or any change of slot the CRC verdict is that of the slot now active |
| BootSafety.CommitResult | source/boot/dfu_receive/dfu_receive.c:418-424 | a committing session stores the other slot as active, on trial and not yet launched, and nothing else of the record changes |
| BootSafety.TrialResult | source/samples/boot/bootloader/main.c:148-205 | a boot counts two unconfirmed tries and ends the trial at the third or at a rollback; the slot changes if exactly one of the two happens |
| BootSafety.ConfirmResult | source/drivers/watchdog/watchdog.c:108-149 | confirming ends the trial and clears both counters, configuring sets tolerance and policy, each leaving the rest of the stored record |
| BootSafety.SessionUncommitted | source/boot/dfu_receive/dfu_receive.c:202-206 | a fitting session without a commit leaves metadata and the active image's verdict alone |
| BootSafety.SessionCommitted | source/boot/dfu_receive/dfu_receive.c:383-434 | a fitting session that commits leaves a valid image in the other slot, named by the metadata |
| BootSafety.StepKeeps | source/samples/boot/bootloader/main.c:142-288 | boots, resets, sessions, confirmations and configuration keep the boot invariant |
| BootSafety.LaunchSafe | source/samples/boot/bootloader/main.c:142-262 | over any run, every launched slot, warm or cold, holds a valid image; an image on trial is launched at most three times; a reverted one never |
| BootTrials.GuardedBound | source/samples/boot/bootloader/main.c:142-214 | over any run in which nothing is committed while the stored trial flag is set, no image that was never confirmed is launched more than three times |
| BootTrials.BoundLostExactly | source/boot/dfu_receive/dfu_receive.c:418-422 | after any such run, from a board whose pending trial if any is of a valid image: the next act opens the way to more launches if and only if it is a commit while the flag is set |
| BootTrials.FourthLaunch | source/samples/boot/bootloader/main.c:142-262 | for every image with the marker, a run from an empty board, without a confirmation, in which the copy in slot B is launched a fourth time |
| BootTrials.RollbackBreaks | source/samples/boot/bootloader/main.c:150-200 | for every such image, a run with policy ROLLBACK and tolerance 2 in which it is launched a fourth time unconfirmed, both slot changes having fired in the third boot |
| WatchdogGate.NeverReportsNeverKicks | source/drivers/watchdog/watchdog.c:185-198 | while an expected core has not reported there is no hardware kick, however flag accesses interleave |
| WatchdogGate.StopsReporting | source/drivers/watchdog/watchdog.c:185-198 | after an expected core stops, each other core kicks at most twice more |
| WatchdogGate.TwoKicksHappen | source/drivers/watchdog/watchdog.c:185-198 | a run from an idle gate after which one core stops and the other still kicks twice |
| WatchdogGate.CompanionCores.Access | source/drivers/watchdog/watchdog.c:185-198 | each access to the flag array in place is one step of the machine |
| WatchdogGate.CoreKick | source/drivers/watchdog/watchdog.c:174-200 | undisturbed, it kicks exactly when every expected core has reported, and only then clears the flags |
| WatchdogGate.CallAlone | source/drivers/watchdog/watchdog.c:174-200 | the machine's own accesses, undisturbed, end in a kick exactly when every expected core has reported |
| WatchdogGate.ExpectedExactly | source/kernel/companion_core/companion_core.c:40-48 | over any run the cores that have to report are those that had to and those started since |

## Left out

- Wrap-around of tickets, ticks and sector arithmetic: natural numbers throughout; a run that wraps a 32-bit ticket or a 64-bit tick is not covered. The 32-bit metadata counters do wrap in the model.
- Weak memory ordering: every interleaving is sequentially consistent.
- KernelSafety.CreateKeeps: creating a task is one act. The source takes the core's scheduler lock there without masking interrupts, so this holds for tasks created before that core's tick runs, or by a caller that masks them; a tick that interrupts the call is not modelled.
- KernelCalls.TaskCreate: the same assumption; the statement that masked interrupts make each critical section atomic does not cover this call.
- LockOrder.CallsDisciplined: a core runs one call at a time, which for task creation is the same assumption.
- Several cores in the kernel: the list proofs are for one core, where masked interrupts make each critical section (task creation aside) and tick atomic; waking a task of another core is not modelled, nor are the loops that spin until a task is unblocked.
- Inheritance through chains of mutexes: the code does not do it, and the bound is stated against a waiter's priority when it began to wait.
- Task records and semaphore and mutex fields are values held by the core object, not separate heap objects; the lists and their nodes are objects.
- The order of two independent list removals inside one critical section: a tick takes the event node off before the state node, a handoff the other way round.
- Direct handoff inside the queue's semaphores: the queue machine takes and gives counts; a handed-over token is a give followed at once by the waiter's take.
- kmain's retry count and its endless recovery loop as one program: each attempt is a method, and the run machine chains any number of them with any input. The board waiting for bytes that never come is a stalled stage that only a reset leaves.
- eMMC and UART failures: sector reads and writes succeed, the metadata write is atomic, a byte timeout is a silence on the line; acknowledgements lost on the way to the host, the host's repeated trigger keys and its abort are not part of the sender.
- What a session does after it has stored past its packet buffer: memory is no longer the program's then; the theorems say exactly when that happens and assume it does not.
- DfuCommit.CommitsExactly: speaks of hosts that send at least as many bytes as they declare; for the others the read-back also judges what flash held before, and `DfuReplies.SessionOutcome` states the outcome in terms of it.
- Values the receiver leaves uninitialised (its CRC register and expected CRC before a START): arbitrary parameters.
- The header sector beyond its twelve bytes: whatever the static buffer held before.
- The recovery window, the JUMP_SLOT_B policy, CMD_REQ, CMD_GET_STATUS and CMD_RECOVER: not called or not implemented in the source.
- What a bootloader image written by a self-update does: only its writes to the bootloader slot are modelled.
- GPIO, interrupt controller, DMA engine, I2C, mailbox, JTAG, eMMC commands, start-up assembly, stacks and context frames, telemetry, the bump heap, console and terminal code: hardware, user interface, or easy members only.
