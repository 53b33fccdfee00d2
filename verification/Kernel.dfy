/** One core's kernel: tasks, counting semaphores, mutexes with priority inheritance, and the
    tick.  Each act below is what one critical section or interrupt does; any sequence of acts
    is a run. */
module Kernel {
  import opened Sequences
  import opened Scheduler

  const MAX_NUM_TASKS: nat := 16

  /** `initial`, `gives` (accepted ones) and `takes` (successful ones) only record history. */
  datatype Semaphore = Semaphore(max: nat, count: nat, waiters: seq<nat>, initial: nat, gives: nat, takes: nat)

  datatype Mutex = Mutex(locked: bool, owner: Option<nat>, waiters: seq<nat>, inherit: bool, inherited: nat)

  datatype Kernel = Kernel(now: nat, s: Sched, sems: seq<Semaphore>, mtxs: seq<Mutex>)

  datatype Act =
    | Create(prio: nat)
    | BlockUntil(wakeup: nat)          // block_until, entered
    | DelayOver                        // block_until, left
    | Take(sem: nat, timeout: int)     // semaphore_take, entered
    | TakeTry                          // semaphore_take, first critical section
    | TakeWoken                        // semaphore_take, second critical section
    | Give(sem: nat)                   // semaphore_give, from any task or interrupt
    | Lock(mtx: nat, timeout: int)     // mutex_lock, first critical section
    | LockWoken                        // mutex_lock, second critical section
    | Unlock(mtx: nat)
    | SetInheritance(mtx: nat, on: bool)
    | Tick                             // timer_tick_handler
    | Reschedule                       // scheduler_switch_context

  function Task(k: Kernel, t: nat): Tcb
    requires t < |k.s.tcb|
  {
    k.s.tcb[t]
  }

  function PutTask(k: Kernel, t: nat, b: Tcb): Kernel
    requires t < |k.s.tcb|
  {
    k.(s := SetTask(k.s, t, b))
  }

  // ---------------------------------------------------------------- operations

  /** task_create: at most MAX_NUM_TASKS besides the idle task, priorities capped. */
  function DoCreate(k: Kernel, prio: nat): Kernel
    requires Sized(k.s)
  {
    if |k.s.tcb| == MAX_NUM_TASKS + 1 then k
    else
      var p := if prio >= NUM_PRIORITIES then NUM_PRIORITIES - 1 else prio;
      var t := |k.s.tcb|;
      k.(s := AddReady(k.s.(tcb := k.s.tcb + [NewTask(p)]), t))
  }

  function NewTask(p: nat): Tcb { Tcb(Ready, p, p, 0, 0, false, NoCall, 0, Pending, OK) }

  /** What a call does when it ends: its result is kept, nothing else of it remains. */
  function Return(k: Kernel, t: nat, result: Status): Kernel
    requires t < |k.s.tcb|
  {
    PutTask(k, t, Task(k, t).(call := NoCall, result := result))
  }

  /** A task starts waiting inside `call`. */
  function StartWait(k: Kernel, t: nat, call: Call, wakeup: Option<nat>): Kernel
    requires Known(k.s, t)
  {
    var noted := SetTask(k.s, t, k.s.tcb[t].(call := call, enqueued := k.s.tcb[t].prio, wake := Pending));
    k.(s := Park(noted, t, wakeup))
  }

  /** block_until: the task sleeps until tick `wakeup`. */
  function DoBlockUntil(k: Kernel, t: nat, wakeup: nat): Kernel
    requires Known(k.s, t)
  {
    StartWait(k, t, Delaying, Some(wakeup))
  }

  function DoTake(k: Kernel, t: nat, i: nat, timeout: int): Kernel
    requires t < |k.s.tcb|
  {
    PutTask(k, t, Task(k, t).(call := Taking(i, timeout, if timeout > 0 then k.now + timeout else 0)))
  }

  function DoTakeTry(k: Kernel, t: nat): Kernel
    requires Known(k.s, t) && Task(k, t).call.Taking? && Task(k, t).call.sem < |k.sems|
  {
    var c := Task(k, t).call;
    var m := k.sems[c.sem];
    if m.count > 0 then
      Return(k, t, OK).(sems := k.sems[c.sem := m.(count := m.count - 1, takes := m.takes + 1)])
    else if c.timeout == 0 || (c.timeout > 0 && k.now >= c.deadline) then Return(k, t, TimedOut)
    else
      StartWait(k, t, AwaitSem(c.sem, c.timeout, c.deadline), if c.timeout > 0 then Some(c.deadline) else None)
      .(sems := k.sems[c.sem := m.(waiters := m.waiters + [t])])
  }

  function DoTakeWoken(k: Kernel, t: nat): Kernel
    requires t < |k.s.tcb| && Task(k, t).call.AwaitSem? && Task(k, t).call.sem < |k.sems|
  {
    var c := Task(k, t).call;
    var m := k.sems[c.sem];
    if Task(k, t).acquired then
      PutTask(k, t, Task(k, t).(call := NoCall, result := OK, acquired := false))
      .(sems := k.sems[c.sem := m.(takes := m.takes + 1)])
    else PutTask(k, t, Task(k, t).(call := Taking(c.sem, c.timeout, c.deadline)))
  }

  function DoGive(k: Kernel, i: nat): Kernel
    requires i < |k.sems| && (k.sems[i].waiters != [] ==> Known(k.s, k.sems[i].waiters[0]))
  {
    var m := k.sems[i];
    if m.waiters != [] then
      var t := m.waiters[0];
      var marked := SetTask(k.s, t, k.s.tcb[t].(acquired := true, wake := Handoff));
      k.(s := Unpark(marked, t), sems := k.sems[i := m.(waiters := m.waiters[1..], gives := m.gives + 1)])
    else if m.count < m.max then k.(sems := k.sems[i := m.(count := m.count + 1, gives := m.gives + 1)])
    else k
  }

  function Max(a: nat, b: nat): nat { if a < b then b else a }

  function DoLock(k: Kernel, t: nat, i: nat, timeout: int): Kernel
    requires Known(k.s, t) && i < |k.mtxs|
    requires k.mtxs[i].owner.Some? ==> Known(k.s, k.mtxs[i].owner.value)
    requires Task(k, t).prio < NUM_PRIORITIES && k.mtxs[i].inherited < NUM_PRIORITIES
  {
    var m := k.mtxs[i];
    if !m.locked then
      var got := if m.inherit then PutTask(k, t, Task(k, t).(held := Task(k, t).held + 1)) else k;
      Return(got, t, OK).(mtxs := k.mtxs[i := m.(locked := true, owner := Some(t))])
    else if timeout == 0 then Return(k, t, TimedOut)
    else
      var waiting := StartWait(k, t, AwaitMutex(i, timeout), if timeout > 0 then Some(k.now + timeout) else None);
      var inherited := if m.inherit then Max(m.inherited, Task(k, t).prio) else m.inherited;
      var boosted := if m.inherit && m.owner.Some? then Boost(waiting.s, m.owner.value, inherited) else waiting.s;
      waiting.(s := boosted, mtxs := k.mtxs[i := m.(waiters := m.waiters + [t], inherited := inherited)])
  }

  /** Raises a task to priority `p` if it is below it. */
  function Boost(s: Sched, t: nat, p: nat): Sched
    requires Sized(s) && p < NUM_PRIORITIES
  {
    if Known(s, t) && s.tcb[t].prio < p then ChangePriority(s, t, p) else s
  }

  function DoLockWoken(k: Kernel, t: nat): Kernel
    requires t < |k.s.tcb| && Task(k, t).call.AwaitMutex? && Task(k, t).call.mtx < |k.mtxs|
  {
    Return(k, t, if k.mtxs[Task(k, t).call.mtx].owner == Some(t) then OK else TimedOut)
  }

  function PrioOf(tcb: seq<Tcb>, t: nat): nat { if t < |tcb| then tcb[t].prio else 0 }

  /** The handoff scan from place `j` on: the best waiter so far is at `best`. */
  function ScanBest(tcb: seq<Tcb>, ws: seq<nat>, j: nat, best: nat): nat
    requires best < j <= |ws|
    decreases |ws| - j
  {
    if j == |ws| then best
    else ScanBest(tcb, ws, j + 1, if PrioOf(tcb, ws[j]) > PrioOf(tcb, ws[best]) then j else best)
  }

  /** Its running second-highest priority. */
  function ScanSecond(tcb: seq<Tcb>, ws: seq<nat>, j: nat, best: nat, second: nat): nat
    requires best < j <= |ws|
    decreases |ws| - j
  {
    if j == |ws| then second
    else if PrioOf(tcb, ws[j]) > PrioOf(tcb, ws[best])
    then ScanSecond(tcb, ws, j + 1, j, Max(second, PrioOf(tcb, ws[best])))
    else ScanSecond(tcb, ws, j + 1, best, Max(second, PrioOf(tcb, ws[j])))
  }

  /** The releasing task counts one inheriting mutex less, and at none returns to its base.  The
      count is never 0 here on a run: it is the number of such mutexes the task owns. */
  function Release(s: Sched, t: nat): Sched
    requires Known(s, t) && s.tcb[t].base < NUM_PRIORITIES
  {
    var held := if s.tcb[t].held > 0 then s.tcb[t].held - 1 else 0;
    var less := SetTask(s, t, s.tcb[t].(held := held));
    if held == 0 && s.tcb[t].prio != s.tcb[t].base then ChangePriority(less, t, s.tcb[t].base) else less
  }

  /** The chosen waiter becomes the owner, boosted past those still behind it. */
  function Promote(s: Sched, t: nat, inherit: bool, inherited: nat): Sched
    requires Known(s, t) && inherited < NUM_PRIORITIES
  {
    var noted := SetTask(s, t, s.tcb[t].(wake := Handoff, held := if inherit then s.tcb[t].held + 1 else s.tcb[t].held));
    var boosted := if inherit && inherited > s.tcb[t].prio then ChangePriority(noted, t, inherited) else noted;
    if Known(boosted, t) then Unpark(boosted, t) else boosted
  }

  /** mutex_unlock.  On every run the chosen waiter is a known task and the priority left to
      inherit is a legal one, so the handoff always takes place. */
  function DoUnlock(k: Kernel, i: nat): Kernel
    requires i < |k.mtxs|
    requires k.mtxs[i].owner.Some? ==> var o := k.mtxs[i].owner.value; Known(k.s, o) && Task(k, o).base < NUM_PRIORITIES
    requires forall t | t in k.mtxs[i].waiters :: Known(k.s, t)
  {
    var m := k.mtxs[i];
    if !m.locked then k
    else
      var free := if m.inherit && m.owner.Some? then Release(k.s, m.owner.value) else k.s;
      if m.waiters == [] then
        k.(s := free, mtxs := k.mtxs[i := m.(locked := false, owner := None, inherited := 0)])
      else
        var best := ScanBest(k.s.tcb, m.waiters, 1, 0);
        var second := ScanSecond(k.s.tcb, m.waiters, 1, 0, 0);
        ScanSpec(k.s.tcb, m.waiters, 1, 0, 0);
        var t := m.waiters[best];
        k.(s := if Known(free, t) && second < NUM_PRIORITIES then Promote(free, t, m.inherit, second) else free,
           mtxs := k.mtxs[i := m.(owner := Some(t), waiters := RemoveAt(m.waiters, best), inherited := second)])
  }

  /** The scan finds the first waiter of highest priority, and the highest priority among the
      others (or the idle priority). */
  lemma {:induction false} ScanSpec(tcb: seq<Tcb>, ws: seq<nat>, j: nat, best: nat, second: nat)
    requires best < j <= |ws|
    requires forall i | 0 <= i < j :: PrioOf(tcb, ws[i]) <= PrioOf(tcb, ws[best])
    requires forall i | 0 <= i < best :: PrioOf(tcb, ws[i]) < PrioOf(tcb, ws[best])
    requires forall i | 0 <= i < j && i != best :: PrioOf(tcb, ws[i]) <= second
    requires second == 0 || exists i :: 0 <= i < j && i != best && PrioOf(tcb, ws[i]) == second
    ensures var b := ScanBest(tcb, ws, j, best); var r := ScanSecond(tcb, ws, j, best, second);
      && b < |ws|
      && (forall i | 0 <= i < |ws| :: PrioOf(tcb, ws[i]) <= PrioOf(tcb, ws[b]))
      && (forall i | 0 <= i < b :: PrioOf(tcb, ws[i]) < PrioOf(tcb, ws[b]))
      && (forall i | 0 <= i < |ws| && i != b :: PrioOf(tcb, ws[i]) <= r)
      && (r == 0 || exists i :: 0 <= i < |ws| && i != b && PrioOf(tcb, ws[i]) == r)
    decreases |ws| - j
  {
    if j < |ws| {
      if PrioOf(tcb, ws[j]) > PrioOf(tcb, ws[best]) {
        ScanSpec(tcb, ws, j + 1, j, Max(second, PrioOf(tcb, ws[best])));
      } else {
        ScanSpec(tcb, ws, j + 1, best, Max(second, PrioOf(tcb, ws[j])));
      }
    }
  }

  function DoSetInheritance(k: Kernel, i: nat, on: bool): Kernel
    requires i < |k.mtxs|
  {
    if k.mtxs[i].locked || k.mtxs[i].waiters != [] then k else k.(mtxs := k.mtxs[i := k.mtxs[i].(inherit := on)])
  }

  /** A task leaves the wait list of whatever it waits for. */
  function LeaveWait(k: Kernel, t: nat): Kernel
    requires t < |k.s.tcb|
  {
    var c := Task(k, t).call;
    k.(sems := if c.AwaitSem? && c.sem < |k.sems|
               then k.sems[c.sem := k.sems[c.sem].(waiters := Without(k.sems[c.sem].waiters, t))] else k.sems,
       mtxs := if c.AwaitMutex? && c.mtx < |k.mtxs|
               then k.mtxs[c.mtx := k.mtxs[c.mtx].(waiters := Without(k.mtxs[c.mtx].waiters, t))] else k.mtxs)
  }

  /** The head of the sleepers is due: it leaves them and whatever it waited for. */
  function Expire(k: Kernel): Kernel
    requires k.s.sleeping != [] && Known(k.s, k.s.sleeping[0])
  {
    var t := k.s.sleeping[0];
    LeaveWait(k, t).(s := Unpark(SetTask(k.s, t, k.s.tcb[t].(wake := Timeout)), t))
  }

  function ExpireAll(k: Kernel): Kernel
    decreases |k.s.sleeping|
  {
    if k.s.sleeping != [] && Known(k.s, k.s.sleeping[0]) && WakeupOf(k.s.tcb, k.s.sleeping[0]) <= k.now
    then ExpireAll(Expire(k)) else k
  }

  function DoTick(k: Kernel): Kernel { ExpireAll(k.(now := k.now + 1)) }

  // ---------------------------------------------------------------- acts

  /** A task other than idle is current and not blocked: code of its own can run. */
  predicate Acting(k: Kernel) {
    && k.s.current.Some? && k.s.current.value != IDLE && Known(k.s, k.s.current.value)
    && Task(k, k.s.current.value).state != Blocked
  }

  /** The task that runs its own code now. */
  function Me(k: Kernel): nat
    requires k.s.current.Some?
  {
    k.s.current.value
  }

  /** What callers owe: a task is inside one call at a time, only the owner unlocks, a mutex is
      not locked twice by one task, and the idle task calls nothing.  Tasks are created before the
      core's tick runs or with interrupts masked: task_create itself masks none. */
  ghost predicate Allowed(k: Kernel, a: Act) {
    match a
    case Create(_) | Tick | Reschedule => true
    case Give(i) => i < |k.sems|
    case SetInheritance(i, _) => i < |k.mtxs|
    case BlockUntil(_) => Acting(k) && Task(k, Me(k)).call.NoCall?
    case DelayOver => Acting(k) && Task(k, Me(k)).call.Delaying?
    case Take(i, _) => Acting(k) && Task(k, Me(k)).call.NoCall? && i < |k.sems|
    case TakeTry => Acting(k) && Task(k, Me(k)).call.Taking?
    case TakeWoken => Acting(k) && Task(k, Me(k)).call.AwaitSem?
    case Lock(i, _) => Acting(k) && Task(k, Me(k)).call.NoCall? && i < |k.mtxs| && k.mtxs[i].owner != Some(Me(k))
    case LockWoken => Acting(k) && Task(k, Me(k)).call.AwaitMutex?
    case Unlock(i) => Acting(k) && Task(k, Me(k)).call.NoCall? && i < |k.mtxs| && (k.mtxs[i].locked ==> k.mtxs[i].owner == Some(Me(k)))
  }

  // ---------------------------------------------------------------- invariant

  function InFlight(i: nat): Tcb -> bool { (b: Tcb) => b.acquired && b.call.AwaitSem? && b.call.sem == i }

  function HeldBy(t: nat): Mutex -> bool { (m: Mutex) => m.inherit && m.owner == Some(t) }

  /** A wait list: distinct tasks, blocked. */
  ghost predicate QueueOk(tcb: seq<Tcb>, ws: seq<nat>) {
    Distinct(ws) && forall w | w in ws :: w < |tcb| && tcb[w].state == Blocked
  }

  /** Nobody waits while tokens are left, and no token is lost or made up. */
  ghost predicate SemOk(tcb: seq<Tcb>, m: Semaphore, i: nat) {
    && QueueOk(tcb, m.waiters)
    && (forall w | w in m.waiters :: w < |tcb| && tcb[w].call.AwaitSem? && tcb[w].call.sem == i)
    && (m.waiters != [] ==> m.count == 0)
    && m.initial + m.gives == m.count + m.takes + Tally(tcb, InFlight(i))
  }

  /** The owner runs at least at the priority of everything it keeps waiting. */
  ghost predicate Inherits(tcb: seq<Tcb>, m: Mutex) {
    m.inherit && m.owner.Some? ==>
      && PrioOf(tcb, m.owner.value) >= m.inherited
      && forall w | w in m.waiters :: w < |tcb| && m.inherited >= tcb[w].enqueued
  }

  ghost predicate MtxOk(tcb: seq<Tcb>, m: Mutex, i: nat) {
    && QueueOk(tcb, m.waiters)
    && (forall w | w in m.waiters :: w < |tcb| && tcb[w].call.AwaitMutex? && tcb[w].call.mtx == i)
    && (m.locked <==> m.owner.Some?)
    && (m.waiters != [] ==> m.locked)
    && (!m.locked ==> m.inherited == 0)
    && m.inherited < NUM_PRIORITIES
    && (m.owner.Some? ==> m.owner.value < |tcb| && m.owner.value != IDLE && m.owner.value !in m.waiters)
    && Inherits(tcb, m)
  }

  /** Task `t`'s call, its run state and the lists it is on tell one story. */
  ghost predicate WaitOk(b: Tcb, t: nat, asleep: bool, sems: seq<Semaphore>, mtxs: seq<Mutex>) {
    && (b.acquired ==> b.call.AwaitSem? && b.wake == Handoff)
    && match b.call
       case NoCall => b.state != Blocked && !asleep
       case Taking(i, _, _) => b.state != Blocked && !asleep && i < |sems|
       case Delaying => b.state == Blocked <==> asleep
       case AwaitSem(i, timeout, deadline) =>
         && i < |sems| && timeout != 0
         && (b.state == Blocked <==> t in sems[i].waiters)
         && (b.state == Blocked <==> b.wake == Pending)
         && (asleep <==> b.state == Blocked && timeout > 0)
         && (b.wake == Handoff <==> b.acquired)
       case AwaitMutex(i, timeout) =>
         && i < |mtxs| && timeout != 0
         && (b.state == Blocked <==> t in mtxs[i].waiters)
         && (b.state == Blocked <==> b.wake == Pending)
         && (asleep <==> b.state == Blocked && timeout > 0)
         && (b.wake == Handoff <==> mtxs[i].owner == Some(t))
         && (b.state == Blocked ==> b.enqueued <= b.prio)
  }

  ghost predicate HeldOk(b: Tcb, t: nat, mtxs: seq<Mutex>) {
    && b.held == Tally(mtxs, HeldBy(t))
    && (b.held == 0 ==> b.prio == b.base)
    && b.base <= b.prio < NUM_PRIORITIES
  }

  ghost predicate IdleOk(s: Sched) {
    0 < |s.tcb| && s.tcb[IDLE].call.NoCall?
  }

  ghost predicate WaitsOk(k: Kernel) {
    forall t | 0 <= t < |k.s.tcb| :: WaitOk(k.s.tcb[t], t, t in k.s.sleeping, k.sems, k.mtxs)
  }

  ghost predicate SemsOk(k: Kernel) { forall i | 0 <= i < |k.sems| :: SemOk(k.s.tcb, k.sems[i], i) }

  ghost predicate MtxsOk(k: Kernel) { forall i | 0 <= i < |k.mtxs| :: MtxOk(k.s.tcb, k.mtxs[i], i) }

  ghost predicate HoldsOk(k: Kernel) { forall t | 0 <= t < |k.s.tcb| :: HeldOk(k.s.tcb[t], t, k.mtxs) }

  /** Tasks, semaphores and mutexes agree with each other (not about list order). */
  ghost predicate SyncInv(k: Kernel) {
    IdleOk(k.s) && WaitsOk(k) && SemsOk(k) && MtxsOk(k) && HoldsOk(k)
  }

  ghost predicate KernelInv(k: Kernel) { SchedInv(k.s) && SyncInv(k) }

  /** Every act the callers may perform finds its operands in order. */
  lemma ActFits(k: Kernel, t: nat)
    requires KernelInv(k) && t < |k.s.tcb|
    ensures Known(k.s, t) && Task(k, t).base < NUM_PRIORITIES
    ensures Task(k, t).call.Taking? ==> Task(k, t).call.sem < |k.sems|
    ensures Task(k, t).call.AwaitSem? ==> Task(k, t).call.sem < |k.sems|
    ensures Task(k, t).call.AwaitMutex? ==> Task(k, t).call.mtx < |k.mtxs|
  {
    assert Listed(k.s, t) && WaitOk(k.s.tcb[t], t, t in k.s.sleeping, k.sems, k.mtxs) && HeldOk(k.s.tcb[t], t, k.mtxs);
  }

  lemma MeFits(k: Kernel)
    requires KernelInv(k)
    ensures k.s.current.Some? ==> var t := k.s.current.value;
      && Known(k.s, t) && Task(k, t).base < NUM_PRIORITIES
      && (Task(k, t).call.Taking? ==> Task(k, t).call.sem < |k.sems|)
      && (Task(k, t).call.AwaitSem? ==> Task(k, t).call.sem < |k.sems|)
      && (Task(k, t).call.AwaitMutex? ==> Task(k, t).call.mtx < |k.mtxs|)
  {
    if k.s.current.Some? { ActFits(k, k.s.current.value); }
  }

  /** One step of a run. */
  ghost function Step(k: Kernel, a: Act): Kernel
    requires KernelInv(k) && Allowed(k, a)
  {
    MeFits(k);
    match a
    case Create(p) => DoCreate(k, p)
    case BlockUntil(w) => DoBlockUntil(k, Me(k), w)
    case DelayOver => Return(k, Me(k), OK)
    case Take(i, timeout) => DoTake(k, Me(k), i, timeout)
    case TakeTry => DoTakeTry(k, Me(k))
    case TakeWoken => DoTakeWoken(k, Me(k))
    case Give(i) => GiveFits(k, i); DoGive(k, i)
    case Lock(i, timeout) => LockFits(k, i); DoLock(k, Me(k), i, timeout)
    case LockWoken => DoLockWoken(k, Me(k))
    case Unlock(i) => LockFits(k, i); DoUnlock(k, i)
    case SetInheritance(i, on) => DoSetInheritance(k, i, on)
    case Tick => DoTick(k)
    case Reschedule => k.(s := Switch(k.s))
  }

  lemma GiveFits(k: Kernel, i: nat)
    requires KernelInv(k) && i < |k.sems|
    ensures k.sems[i].waiters != [] ==> Known(k.s, k.sems[i].waiters[0])
  {
    assert SemOk(k.s.tcb, k.sems[i], i);
    if k.sems[i].waiters != [] { assert k.sems[i].waiters[0] in k.sems[i].waiters; ActFits(k, k.sems[i].waiters[0]); }
  }

  lemma LockFits(k: Kernel, i: nat)
    requires KernelInv(k) && i < |k.mtxs|
    ensures k.mtxs[i].inherited < NUM_PRIORITIES
    ensures k.mtxs[i].owner.Some? ==> var o := k.mtxs[i].owner.value; Known(k.s, o) && Task(k, o).base < NUM_PRIORITIES
    ensures forall t | t in k.mtxs[i].waiters :: Known(k.s, t)
  {
    assert MtxOk(k.s.tcb, k.mtxs[i], i);
    if k.mtxs[i].owner.Some? { ActFits(k, k.mtxs[i].owner.value); }
    forall t | t in k.mtxs[i].waiters ensures Known(k.s, t) { ActFits(k, t); }
  }
}
