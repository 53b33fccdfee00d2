/** What holds of every run of the kernel. */
module KernelRuns {
  import opened Sequences
  import opened Scheduler
  import opened Kernel
  import opened KernelSafety

  /** The acts can be performed one after the other from `k`. */
  ghost predicate Legal(k: Kernel, acts: seq<Act>)
    requires KernelInv(k)
    decreases |acts|
  {
    acts == [] || (Allowed(k, acts[0]) && (StepKeeps(k, acts[0]); Legal(Step(k, acts[0]), acts[1..])))
  }

  ghost function After(k: Kernel, acts: seq<Act>): (r: Kernel)
    requires KernelInv(k) && Legal(k, acts)
    ensures KernelInv(r)
    decreases |acts|
  {
    if acts == [] then k else (StepKeeps(k, acts[0]); After(Step(k, acts[0]), acts[1..]))
  }

  /** Every ready list holds exactly the unblocked tasks of its priority, each once; sleepers are
      blocked, each once, in order of wake-up. */
  ghost predicate ListsExact(s: Sched) {
    && Sized(s)
    && (forall p | 0 <= p < NUM_PRIORITIES :: Distinct(s.ready[p]) && (s.index[p].Some? <==> s.ready[p] != [])
                                               && (s.index[p].Some? ==> s.index[p].value in s.ready[p]))
    && (forall p, t | 0 <= p < NUM_PRIORITIES && 0 <= t < |s.tcb| :: t in s.ready[p] <==> s.tcb[t].state != Blocked && s.tcb[t].prio == p)
    && Distinct(s.sleeping) && Sorted(s.tcb, s.sleeping)
    && (forall t | t in s.sleeping :: t < |s.tcb| && s.tcb[t].state == Blocked)
  }

  /** Nothing a semaphore was given is lost, duplicated or withheld. */
  ghost predicate TokensConserved(k: Kernel) {
    forall i | 0 <= i < |k.sems| ::
      && k.sems[i].initial + k.sems[i].gives == k.sems[i].count + k.sems[i].takes + Tally(k.s.tcb, InFlight(i))
      && (k.sems[i].count > 0 ==> k.sems[i].waiters == [])
  }

  /** An inheriting mutex lends its owner the urgency of every waiter, and every loan is repaid. */
  ghost predicate PriorityInherited(k: Kernel) {
    && (forall i, w | 0 <= i < |k.mtxs| && k.mtxs[i].inherit && w in k.mtxs[i].waiters ::
          k.mtxs[i].owner.Some? && w < |k.s.tcb| &&
          PrioOf(k.s.tcb, k.mtxs[i].owner.value) >= k.mtxs[i].inherited >= k.s.tcb[w].enqueued)
    && (forall t | 0 <= t < |k.s.tcb| ::
          k.s.tcb[t].held == Tally(k.mtxs, HeldBy(t)) && (k.s.tcb[t].held == 0 ==> k.s.tcb[t].prio == k.s.tcb[t].base))
  }

  lemma Consequences(k: Kernel)
    requires KernelInv(k)
    ensures ListsExact(k.s) && TokensConserved(k) && PriorityInherited(k)
  {
    ListsAre(k.s);
    hide SchedInv, Tally;
    forall i | 0 <= i < |k.sems| ensures SemOk(k.s.tcb, k.sems[i], i) {}
    forall i | 0 <= i < |k.mtxs| ensures MtxOk(k.s.tcb, k.mtxs[i], i) {}
    forall t | 0 <= t < |k.s.tcb| ensures HeldOk(k.s.tcb[t], t, k.mtxs) {}
  }

  lemma ListsAre(s: Sched)
    requires SchedInv(s)
    ensures ListsExact(s)
  {
    forall p | 0 <= p < NUM_PRIORITIES ensures ReadyListOk(s.tcb, s.ready[p], s.index[p], p) {}
    forall p, t | 0 <= p < NUM_PRIORITIES && 0 <= t < |s.tcb|
      ensures t in s.ready[p] <==> s.tcb[t].state != Blocked && s.tcb[t].prio == p
    {
      assert Listed(s, t) && ReadyListOk(s.tcb, s.ready[p], s.index[p], p);
    }
  }

  /** Every run from scheduler_init on, whatever the tasks and interrupts do. */
  lemma {:induction false} RunSafe(k: Kernel, acts: seq<Act>)
    requires Init(k)
    ensures KernelInv(k)
    ensures Legal(k, acts) ==> ListsExact(After(k, acts).s) && TokensConserved(After(k, acts)) && PriorityInherited(After(k, acts))
  {
    InitInv(k);
    if Legal(k, acts) { Consequences(After(k, acts)); }
  }

  // ---------------------------------------------------------------- priority inversion

  predicate OwnerCanRun(k: Kernel, i: nat) {
    && i < |k.mtxs| && k.mtxs[i].owner.Some? && k.mtxs[i].owner.value < |k.s.tcb|
    && k.s.tcb[k.mtxs[i].owner.value].state != Blocked
  }

  /** While the owner of an inheriting mutex can run, no task less urgent than one of its waiters
      was when it began to wait is picked. */
  lemma NoInversion(k: Kernel, i: nat, w: nat)
    requires KernelInv(k) && OwnerCanRun(k, i) && k.mtxs[i].inherit && w in k.mtxs[i].waiters
    ensures w < |k.s.tcb|
    ensures var r := Step(k, Reschedule).s;
      r.current.Some? && r.current.value < |r.tcb| && r.tcb[r.current.value].state == Running
      && r.tcb[r.current.value].prio >= k.s.tcb[w].enqueued
  {
    assert MtxOk(k.s.tcb, k.mtxs[i], i);
    SwitchPicksHighest(k.s, k.mtxs[i].owner.value);
  }

  /** Some task always runs: idle is never blocked. */
  lemma AlwaysRunning(k: Kernel)
    requires KernelInv(k)
    ensures var r := Step(k, Reschedule).s;
      r.current.Some? && r.current.value < |r.tcb| && r.tcb[r.current.value].state == Running
      && forall t | 0 <= t < |r.tcb| && r.tcb[t].state != Blocked :: r.tcb[t].prio <= r.tcb[r.current.value].prio
  {
    assert WaitOk(k.s.tcb[IDLE], IDLE, IDLE in k.s.sleeping, k.sems, k.mtxs);
    SwitchKeeps(k.s);
    hide SchedInv;
    SwitchPicksHighest(k.s, IDLE);
    forall t | 0 <= t < |k.s.tcb| && k.s.tcb[t].state != Blocked
      ensures k.s.tcb[t].prio <= Switch(k.s).tcb[Switch(k.s).current.value].prio
    {
      SwitchPicksHighest(k.s, t);
    }
  }

  // ---------------------------------------------------------------- ticks

  predicate Due(k: Kernel, t: nat) { t in k.s.sleeping && WakeupOf(k.s.tcb, t) <= k.now }

  lemma {:induction false} ExpireAllExact(k: Kernel, t: nat)
    requires KernelInv(k) && t < |k.s.tcb|
    ensures var r := ExpireAll(k);
      && |r.s.tcb| == |k.s.tcb| && KernelInv(r)
      && r.s.tcb[t] == (if Due(k, t) then k.s.tcb[t].(wake := Timeout, state := Ready) else k.s.tcb[t])
      && (t in r.s.sleeping <==> t in k.s.sleeping && !Due(k, t))
    decreases |k.s.sleeping|
  {
    ExpireAllKeeps(k);
    if k.s.sleeping != [] {
      hide SyncInv;
      HeadSleeper(k);
      var h := k.s.sleeping[0];
      if WakeupOf(k.s.tcb, h) <= k.now {
        ExpireKeeps(k);
        hide SchedInv;
        ExpireAllExact(Expire(k), t);
      } else if t in k.s.sleeping {
        var j :| 0 <= j < |k.s.sleeping| && k.s.sleeping[j] == t;
        assert SleepersOk(k.s.tcb, k.s.sleeping);
      }
    }
  }

  /** A tick wakes exactly the sleepers whose time has come, each with a timeout, and takes them
      off whatever they were waiting for; it leaves every other task as it was. */
  lemma TickExact(k: Kernel, t: nat)
    requires KernelInv(k) && t < |k.s.tcb|
    ensures var r := Step(k, Tick); var due := t in k.s.sleeping && k.s.tcb[t].wakeup <= k.now + 1;
      && |r.s.tcb| == |k.s.tcb|
      && r.s.tcb[t] == (if due then k.s.tcb[t].(wake := Timeout, state := Ready) else k.s.tcb[t])
      && (t in r.s.sleeping <==> t in k.s.sleeping && !due)
      && (due ==> (forall i | 0 <= i < |r.sems| :: t !in r.sems[i].waiters) && (forall i | 0 <= i < |r.mtxs| :: t !in r.mtxs[i].waiters))
  {
    ClockKeeps(k);
    var r := DoTick(k);
    hide KernelInv, ExpireAll, SchedInv, SyncInv;
    ExpireAllExact(k.(now := k.now + 1), t);
    assert Step(k, Tick) == r;
    hide Step;
    ActiveNowhere(r, t);
    if k.s.tcb[t].state != Blocked { SleeperBlocked(k, t); }
  }

  lemma SleeperBlocked(k: Kernel, t: nat)
    requires KernelInv(k) && t < |k.s.tcb| && k.s.tcb[t].state != Blocked
    ensures t !in k.s.sleeping
  {
    NotAsleep(k.s, t);
  }

  lemma ActiveNowhere(k: Kernel, t: nat)
    requires KernelInv(k) && t < |k.s.tcb|
    ensures k.s.tcb[t].state != Blocked ==>
      (forall i | 0 <= i < |k.sems| :: t !in k.sems[i].waiters) && (forall i | 0 <= i < |k.mtxs| :: t !in k.mtxs[i].waiters)
  {
    hide SyncInv, SchedInv;
    if k.s.tcb[t].state != Blocked { ActiveWaitsNowhere(k, t); }
  }

  // ---------------------------------------------------------------- how waits end

  /** The act is code of the current task, not an interrupt's or a creator's. */
  predicate OwnAct(a: Act) {
    a.BlockUntil? || a.DelayOver? || a.Take? || a.TakeTry? || a.TakeWoken? || a.Lock? || a.LockWoken? || a.Unlock?
  }

  ghost predicate Untouched(a: Tcb, b: Tcb) {
    && b.call == a.call && b.wake == a.wake && b.acquired == a.acquired && b.result == a.result
    && b.enqueued == a.enqueued && b.base == a.base && b.wakeup == a.wakeup && (b.state == Blocked <==> a.state == Blocked)
  }

  /** The three ways out of a wait. */
  ghost predicate Woken(a: Tcb, b: Tcb, now: nat, act: Act) {
    && a.state == Blocked && b.state == Ready && b.call == a.call && b.result == a.result && b.enqueued == a.enqueued && b.base == a.base
    && ( || (b.wake == Timeout && act.Tick? && a.wakeup <= now + 1 && b.acquired == a.acquired)
         || (b.wake == Handoff && act.Give? && a.call.AwaitSem? && a.call.sem == act.sem && b.acquired)
         || (b.wake == Handoff && act.Unlock? && a.call.AwaitMutex? && a.call.mtx == act.mtx && b.acquired == a.acquired))
  }

  lemma GiveOthers(k: Kernel, i: nat, t: nat)
    requires KernelInv(k) && i < |k.sems| && t < |k.s.tcb| && (k.sems[i].waiters != [] ==> Known(k.s, k.sems[i].waiters[0]))
    ensures var r := DoGive(k, i); |r.s.tcb| == |k.s.tcb| && (Untouched(k.s.tcb[t], r.s.tcb[t]) || Woken(k.s.tcb[t], r.s.tcb[t], k.now, Give(i)))
  {
    hide SchedInv, SyncInv;
    if k.sems[i].waiters != [] {
      var h := k.sems[i].waiters[0];
      FirstWaiter(k, i);
      var marked := SetTask(k.s, h, k.s.tcb[h].(acquired := true, wake := Handoff));
      NoteKeeps(k.s, h, marked.tcb[h]);
      UnparkSpec(marked, h);
      hide Unpark;
    }
  }

  lemma WaitOthers(k: Kernel, t: nat, u: nat, call: Call, wakeup: Option<nat>)
    requires KernelInv(k) && Known(k.s, t) && k.s.tcb[t].state != Blocked && u < |k.s.tcb| && u != t
    ensures StartWait(k, t, call, wakeup).s.tcb[u] == k.s.tcb[u] && |StartWait(k, t, call, wakeup).s.tcb| == |k.s.tcb|
  {
    hide SchedInv, SyncInv;
    StartWaitSpec(k, t, call, wakeup);
    hide StartWait;
  }

  /** What a mutex_lock that has to wait does to the task records. */
  lemma LockShape(k: Kernel, t: nat, i: nat, timeout: int)
    requires KernelInv(k) && Known(k.s, t) && k.s.tcb[t].state != Blocked && timeout != 0
    requires i < |k.mtxs| && k.mtxs[i].inherited < NUM_PRIORITIES && k.mtxs[i].locked
    requires k.mtxs[i].owner.Some? && Known(k.s, k.mtxs[i].owner.value) && k.mtxs[i].owner.value != t
    ensures var r := DoLock(k, t, i, timeout); var o := k.mtxs[i].owner.value;
      && |r.s.tcb| == |k.s.tcb| && r.s.tcb[t].call == AwaitMutex(i, timeout)
      && r.s.tcb[t].wake == Pending && (timeout > 0 ==> r.s.tcb[t].wakeup == k.now + timeout)
      && (forall u | 0 <= u < |k.s.tcb| && u != t :: Untouched(k.s.tcb[u], r.s.tcb[u]))
  {
    hide SchedInv, SyncInv, DoLock;
    var m := k.mtxs[i];
    var o := m.owner.value;
    var call := AwaitMutex(i, timeout);
    var w := if timeout > 0 then Some(k.now + timeout) else None;
    StartWaitSpec(k, t, call, w);
    var waiting := StartWait(k, t, call, w).s;
    SizedInv(waiting);
    hide StartWait, KernelInv;
    var p := if m.inherit then Max(m.inherited, Task(k, t).prio) else m.inherited;
    var r := LockSched(k, t, i, timeout, waiting, p);
    BoostSpec(waiting, o, p);
    hide Boost;
  }

  lemma LockOthers(k: Kernel, t: nat, i: nat, timeout: int, u: nat)
    requires KernelInv(k) && Known(k.s, t) && k.s.tcb[t].state != Blocked && u < |k.s.tcb| && u != t
    requires i < |k.mtxs| && k.mtxs[i].inherited < NUM_PRIORITIES
    requires k.mtxs[i].owner.Some? ==> Known(k.s, k.mtxs[i].owner.value) && k.mtxs[i].owner.value != t
    ensures var r := DoLock(k, t, i, timeout); |r.s.tcb| == |k.s.tcb| && Untouched(k.s.tcb[u], r.s.tcb[u])
  {
    hide SchedInv, SyncInv, StartWait, Boost;
    OwnerThere(k, i);
    if k.mtxs[i].locked && timeout != 0 {
      LockShape(k, t, i, timeout);
    }
  }

  lemma UnlockOthers(k: Kernel, o: nat, i: nat, u: nat)
    requires KernelInv(k) && Known(k.s, o) && Task(k, o).call.NoCall? && Task(k, o).base < NUM_PRIORITIES && u < |k.s.tcb| && u != o
    requires i < |k.mtxs| && k.mtxs[i].locked && k.mtxs[i].owner == Some(o)
    requires forall t | t in k.mtxs[i].waiters :: Known(k.s, t)
    ensures var r := DoUnlock(k, i); |r.s.tcb| == |k.s.tcb| && (Untouched(k.s.tcb[u], r.s.tcb[u]) || Woken(k.s.tcb[u], r.s.tcb[u], k.now, Unlock(i)))
  {
    hide SchedInv, SyncInv;
    var m := k.mtxs[i];
    ReleasedHolds(k, o, i, m.(owner := None));
    if m.inherit { ReleaseSpec(k.s, o, Released(k.s.tcb[o], true)); }
    var free := if m.inherit then Release(k.s, o) else k.s;
    assert free.tcb == k.s.tcb[o := Released(k.s.tcb[o], m.inherit)];
    hide Release;
    if m.waiters != [] {
      SizedInv(free);
      PriosSmall(free);
      var best, second := UnlockShape(k, o, i, free);
      hide DoUnlock, Scanned;
      var n := m.waiters[best];
      assert n in m.waiters;
      MtxWaiters(k, i, n);
      PromoteSpec(free, n, m.inherit, second);
      hide Promote;
    }
  }

  /** Nothing any task or interrupt does changes how another task's wait stands, except that a
      blocked one may be woken: by the tick at its time, by a give to its semaphore, or by an
      unlock of its mutex. */
  lemma OthersEvolve(k: Kernel, a: Act, t: nat)
    requires KernelInv(k) && Allowed(k, a) && t < |k.s.tcb| && (OwnAct(a) ==> t != Me(k))
    ensures var r := Step(k, a); t < |r.s.tcb| && (Untouched(k.s.tcb[t], r.s.tcb[t]) || Woken(k.s.tcb[t], r.s.tcb[t], k.now, a))
  {
    hide SchedInv, SyncInv, AddReady, Switch, StartWait, DoUnlock, DoGive, ExpireAll, DoLock, Untouched, Woken;
    MeFits(k);
    SizedInv(k.s);
    match a
    case Create(p) => CreateOthers(k, p, t);
    case BlockUntil(w) => WaitOthers(k, Me(k), t, Delaying, Some(w)); Same(k.s.tcb[t]);
    case DelayOver => Same(k.s.tcb[t]);
    case Take(i, timeout) => Same(k.s.tcb[t]);
    case TakeTry => TakeTryOthers(k, Me(k), t); Same(k.s.tcb[t]);
    case TakeWoken => Same(k.s.tcb[t]);
    case Give(i) => GiveFits(k, i); GiveOthers(k, i, t);
    case Lock(i, timeout) => LockFits(k, i); LockOthers(k, Me(k), i, timeout, t);
    case LockWoken => Same(k.s.tcb[t]);
    case Unlock(i) =>
      LockFits(k, i);
      if k.mtxs[i].locked { UnlockOthers(k, Me(k), i, t); }
      else { UnlockNothing(k, i); Same(k.s.tcb[t]); }
    case SetInheritance(i, on) => Same(k.s.tcb[t]);
    case Tick => TickOthers(k, t);
    case Reschedule => SwitchOthers(k, t);
  }

  lemma Same(b: Tcb)
    ensures Untouched(b, b)
  {
  }

  lemma CreateOthers(k: Kernel, p: nat, t: nat)
    requires KernelInv(k) && Sized(k.s) && t < |k.s.tcb|
    ensures t < |DoCreate(k, p).s.tcb| && Untouched(k.s.tcb[t], DoCreate(k, p).s.tcb[t])
  {
    hide SyncInv, SchedInv;
    AddTaskSched(k.s, if p >= NUM_PRIORITIES then NUM_PRIORITIES - 1 else p);
  }

  lemma TakeTryOthers(k: Kernel, t: nat, u: nat)
    requires KernelInv(k) && Known(k.s, t) && Task(k, t).call.Taking? && Task(k, t).call.sem < |k.sems| && u < |k.s.tcb| && u != t
    ensures u < |DoTakeTry(k, t).s.tcb| && DoTakeTry(k, t).s.tcb[u] == k.s.tcb[u]
  {
    hide SyncInv, SchedInv, StartWait;
    CallingActive(k, t);
    var c := Task(k, t).call;
    WaitOthers(k, t, u, AwaitSem(c.sem, c.timeout, c.deadline), if c.timeout > 0 then Some(c.deadline) else None);
  }

  lemma TickOthers(k: Kernel, t: nat)
    requires KernelInv(k) && t < |k.s.tcb|
    ensures var r := DoTick(k); t < |r.s.tcb| && (Untouched(k.s.tcb[t], r.s.tcb[t]) || Woken(k.s.tcb[t], r.s.tcb[t], k.now, Tick))
  {
    hide SyncInv, SchedInv, ExpireAll;
    ClockKeeps(k);
    ExpireAllExact(k.(now := k.now + 1), t);
    if k.s.tcb[t].state != Blocked { SleeperBlocked(k, t); }
  }

  lemma SwitchOthers(k: Kernel, t: nat)
    requires KernelInv(k) && Sized(k.s) && t < |k.s.tcb|
    ensures t < |Switch(k.s).tcb| && Untouched(k.s.tcb[t], Switch(k.s).tcb[t])
  {
    SwitchKeeps(k.s);
    hide Switch, SchedInv, SyncInv;
  }

  /** How the record of a waiting task may change in one act. */
  ghost predicate EndsOnce(b: Tcb, b': Tcb, now: nat, a: Act) {
    && b'.call == b.call
    && (b.wake != Pending ==> b'.wake == b.wake && b'.state != Blocked)
    && (b.wake == Pending ==> (b'.wake == Pending && b'.state == Blocked) || (b'.wake == Handoff && b'.state == Ready)
                              || (b'.wake == Timeout && b'.state == Ready && a.Tick? && b.wakeup <= now + 1))
  }

  /** Ownership tells a mutex waiter how its wait ended. */
  ghost predicate OwnsIfHandedOff(k: Kernel, t: nat) {
    t < |k.s.tcb| && var c := k.s.tcb[t].call; c.AwaitMutex? ==>
      c.mtx < |k.mtxs| && (k.mtxs[c.mtx].owner == Some(t) <==> k.s.tcb[t].wake == Handoff)
  }

  lemma WaitFacts(k: Kernel, t: nat)
    requires KernelInv(k) && t < |k.s.tcb| && (k.s.tcb[t].call.AwaitSem? || k.s.tcb[t].call.AwaitMutex?)
    ensures k.s.tcb[t].state == Blocked <==> k.s.tcb[t].wake == Pending
    ensures t in k.s.sleeping <==> k.s.tcb[t].state == Blocked && k.s.tcb[t].call.timeout > 0
    ensures OwnsIfHandedOff(k, t)
  {
    hide SchedInv;
    assert WaitOk(k.s.tcb[t], t, t in k.s.sleeping, k.sems, k.mtxs);
  }

  /** A wait ends once: by handoff or by timeout, and neither is taken back or turned into the
      other before the task itself looks; and only those handed a mutex ever own it. */
  lemma WaitEndsOnce(k: Kernel, a: Act, t: nat)
    requires KernelInv(k) && Allowed(k, a) && t < |k.s.tcb| && (OwnAct(a) ==> t != Me(k))
    requires k.s.tcb[t].call.AwaitSem? || k.s.tcb[t].call.AwaitMutex?
    ensures t < |Step(k, a).s.tcb| && EndsOnce(k.s.tcb[t], Step(k, a).s.tcb[t], k.now, a)
    ensures OwnsIfHandedOff(Step(k, a), t)
  {
    hide SchedInv, SyncInv, Step, OwnsIfHandedOff, Allowed;
    OthersEvolve(k, a, t);
    StepKeeps(k, a);
    var r := Step(k, a);
    hide KernelInv;
    WaitFacts(k, t);
    WaitFacts(r, t);
  }

  /** Without a timeout only a handoff ends a wait; with one, no tick before the deadline does. */
  lemma NoEarlyTimeout(k: Kernel, t: nat)
    requires KernelInv(k) && t < |k.s.tcb| && (k.s.tcb[t].call.AwaitSem? || k.s.tcb[t].call.AwaitMutex?) && k.s.tcb[t].wake == Pending
    ensures t < |Step(k, Tick).s.tcb|
    ensures Step(k, Tick).s.tcb[t].wake == Timeout <==> k.s.tcb[t].call.timeout > 0 && k.s.tcb[t].wakeup <= k.now + 1
  {
    hide SchedInv, SyncInv, Step;
    WaitFacts(k, t);
    TickExact(k, t);
  }

  /** What a mutex_lock that had to wait reports when it returns. */
  lemma LockReport(k: Kernel)
    requires KernelInv(k) && Allowed(k, LockWoken)
    ensures var t := Me(k); var r := Step(k, LockWoken);
      && t < |r.s.tcb| && Task(k, t).call.mtx < |r.mtxs| && r.s.tcb[t].call == NoCall
      && (r.s.tcb[t].result == OK <==> r.mtxs[Task(k, t).call.mtx].owner == Some(t))
      && (r.s.tcb[t].result == OK <==> Task(k, t).wake == Handoff)
      && (r.s.tcb[t].result == TimedOut <==> Task(k, t).wake == Timeout)
  {
    MeFits(k);
    assert WaitOk(k.s.tcb[Me(k)], Me(k), Me(k) in k.s.sleeping, k.sems, k.mtxs);
    hide SchedInv, SyncInv;
  }

  // ---------------------------------------------------------------- whole calls

  /** The states a run goes through. */
  ghost function Trail(k: Kernel, acts: seq<Act>): (ks: seq<Kernel>)
    requires KernelInv(k) && Legal(k, acts)
    ensures |ks| == |acts| + 1 && ks[0] == k && ks[|acts|] == After(k, acts)
    ensures forall j | 0 <= j < |ks| :: KernelInv(ks[j])
    decreases |acts|
  {
    if acts == [] then [k] else (StepKeeps(k, acts[0]); [k] + Trail(Step(k, acts[0]), acts[1..]))
  }

  function CallOf(k: Kernel, t: nat): Call { if t < |k.s.tcb| then k.s.tcb[t].call else NoCall }

  function WakeOf(k: Kernel, t: nat): Wake { if t < |k.s.tcb| then k.s.tcb[t].wake else Pending }

  function ResultOf(k: Kernel, t: nat): Status { if t < |k.s.tcb| then k.s.tcb[t].result else OK }

  predicate InWait(k: Kernel, t: nat) { t < |k.s.tcb| && (CallOf(k, t).AwaitSem? || CallOf(k, t).AwaitMutex?) }

  /** Task `t` executes nothing of its own in the run. */
  ghost predicate Sits(k: Kernel, acts: seq<Act>, t: nat)
    requires KernelInv(k) && Legal(k, acts)
    decreases |acts|
  {
    acts == [] || ((OwnAct(acts[0]) ==> t != Me(k)) && (StepKeeps(k, acts[0]); Sits(Step(k, acts[0]), acts[1..], t)))
  }

  /** A wait that is over stays over, for the same reason. */
  lemma {:induction false} EndedStays(k: Kernel, acts: seq<Act>, t: nat)
    requires KernelInv(k) && Legal(k, acts) && Sits(k, acts, t) && InWait(k, t) && WakeOf(k, t) != Pending
    ensures forall j | 0 <= j <= |acts| :: InWait(Trail(k, acts)[j], t) && WakeOf(Trail(k, acts)[j], t) == WakeOf(k, t)
    decreases |acts|
  {
    hide KernelInv, Step, Allowed;
    if acts != [] {
      StepKeeps(k, acts[0]);
      WaitEndsOnce(k, acts[0], t);
      EndedStays(Step(k, acts[0]), acts[1..], t);
    }
  }

  /** From its beginning until the task looks, a wait is pending up to some point of the run, and
      from there on ended, once, by handoff or by timeout. */
  lemma {:induction false} OneEnding(k: Kernel, acts: seq<Act>, t: nat) returns (n: nat)
    requires KernelInv(k) && Legal(k, acts) && Sits(k, acts, t) && InWait(k, t) && WakeOf(k, t) == Pending
    ensures n <= |acts|
    ensures forall j | 0 <= j <= n :: InWait(Trail(k, acts)[j], t) && WakeOf(Trail(k, acts)[j], t) == Pending
    ensures forall j | n < j <= |acts| :: InWait(Trail(k, acts)[j], t) && WakeOf(Trail(k, acts)[j], t) == WakeOf(After(k, acts), t) != Pending
    decreases |acts|
  {
    hide KernelInv, Step, Allowed;
    if acts == [] {
      n := 0;
    } else {
      StepKeeps(k, acts[0]);
      WaitEndsOnce(k, acts[0], t);
      var r := Step(k, acts[0]);
      if WakeOf(r, t) == Pending {
        n := OneEnding(r, acts[1..], t);
        n := n + 1;
      } else {
        EndedStays(r, acts[1..], t);
        n := 0;
      }
    }
  }

  // ---------------------------------------------------------------- semaphore_take, from call to return

  /** Task `t` is inside semaphore_take on semaphore `i`. */
  predicate Taker(k: Kernel, t: nat, i: nat, timeout: int, deadline: nat) {
    t < |k.s.tcb| && (CallOf(k, t) == Taking(i, timeout, deadline) || CallOf(k, t) == AwaitSem(i, timeout, deadline))
  }

  function TakesOf(k: Kernel, i: nat): nat { if i < |k.sems| then k.sems[i].takes else 0 }

  function CountOf(k: Kernel, i: nat): nat { if i < |k.sems| then k.sems[i].count else 0 }

  predicate OutOfTime(timeout: int, deadline: nat, now: nat) { timeout == 0 || (timeout > 0 && now >= deadline) }

  /** The call returns: with one token, or without any, out of time, none being left. */
  ghost predicate TakeReturns(k: Kernel, r: Kernel, t: nat, i: nat, timeout: int, deadline: nat) {
    && CallOf(r, t) == NoCall
    && if ResultOf(r, t) == OK then TakesOf(r, i) == TakesOf(k, i) + 1
       else TakesOf(r, i) == TakesOf(k, i) && OutOfTime(timeout, deadline, r.now) && CountOf(r, i) == 0
  }

  /** An act of the task itself. */
  ghost predicate ByTask(k: Kernel, a: Act, t: nat)
    requires KernelInv(k) && Allowed(k, a)
  {
    OwnAct(a) && Me(k) == t
  }

  lemma OwnTake(k: Kernel, a: Act, t: nat, i: nat, timeout: int, deadline: nat)
    requires KernelInv(k) && Allowed(k, a) && ByTask(k, a, t) && Taker(k, t, i, timeout, deadline)
    ensures var r := Step(k, a);
      if Taker(r, t, i, timeout, deadline) then TakesOf(r, i) == TakesOf(k, i) else TakeReturns(k, r, t, i, timeout, deadline)
  {
    hide SchedInv, SyncInv;
    MeFits(k);
    if a.TakeTry? {
      StartWaitSpec(k, t, AwaitSem(i, timeout, deadline), if timeout > 0 then Some(deadline) else None);
    }
    hide StartWait;
  }

  lemma OthersTake(k: Kernel, a: Act, t: nat, i: nat, timeout: int, deadline: nat)
    requires KernelInv(k) && Allowed(k, a) && !ByTask(k, a, t) && Taker(k, t, i, timeout, deadline)
    ensures Taker(Step(k, a), t, i, timeout, deadline)
  {
    hide SchedInv, SyncInv, Step, Allowed;
    OthersEvolve(k, a, t);
  }

  /** Tokens of semaphore `i` that task `t` takes in a run. */
  ghost function Tokens(k: Kernel, acts: seq<Act>, t: nat, i: nat): int
    requires KernelInv(k) && Legal(k, acts)
    decreases |acts|
  {
    if acts == [] then 0
    else
      StepKeeps(k, acts[0]);
      var r := Step(k, acts[0]);
      (if ByTask(k, acts[0], t) then TakesOf(r, i) - TakesOf(k, i) else 0) + Tokens(r, acts[1..], t, i)
  }

  /** Task `t` is inside some call until the last act of the run, and outside any after it. */
  ghost predicate CallRun(k: Kernel, acts: seq<Act>, t: nat)
    requires KernelInv(k) && Legal(k, acts)
    decreases |acts|
  {
    if acts == [] then CallOf(k, t) == NoCall
    else CallOf(k, t) != NoCall && (StepKeeps(k, acts[0]); CallRun(Step(k, acts[0]), acts[1..], t))
  }

  lemma {:induction false} TakeRunEnds(k: Kernel, acts: seq<Act>, t: nat, i: nat, timeout: int, deadline: nat)
    requires KernelInv(k) && Legal(k, acts) && acts != [] && Taker(k, t, i, timeout, deadline) && CallRun(k, acts, t)
    ensures var r := After(k, acts);
      && Tokens(k, acts, t, i) == (if ResultOf(r, t) == OK then 1 else 0)
      && (ResultOf(r, t) != OK ==> OutOfTime(timeout, deadline, r.now) && CountOf(r, i) == 0)
    decreases |acts|
  {
    hide KernelInv, Step, Allowed, OwnAct;
    StepKeeps(k, acts[0]);
    var r := Step(k, acts[0]);
    if ByTask(k, acts[0], t) { OwnTake(k, acts[0], t, i, timeout, deadline); }
    else { OthersTake(k, acts[0], t, i, timeout, deadline); }
    if Taker(r, t, i, timeout, deadline) {
      TakeRunEnds(r, acts[1..], t, i, timeout, deadline);
    } else {
      assert acts[1..] == [];
    }
  }

  function Deadline(now: nat, timeout: int): nat { if timeout > 0 then now + timeout else 0 }

  /** Entering semaphore_take notes the deadline, counted from now, and takes nothing. */
  lemma {:induction false} TakeBegins(k: Kernel, i: nat, timeout: int)
    requires KernelInv(k) && Allowed(k, Take(i, timeout))
    ensures ByTask(k, Take(i, timeout), Me(k)) && TakesOf(Step(k, Take(i, timeout)), i) == TakesOf(k, i)
    ensures CallOf(Step(k, Take(i, timeout)), Me(k)) == Taking(i, timeout, if timeout > 0 then k.now + timeout else 0)
  {
    hide SchedInv, SyncInv;
    MeFits(k);
  }

  /** The run is a whole semaphore_take of the current task: it begins with the call and ends as
      soon as the task is out of it, with whatever happens meanwhile. */
  ghost predicate TakeCall(k: Kernel, acts: seq<Act>, i: nat, timeout: int)
    requires KernelInv(k) && Legal(k, acts)
  {
    && acts != [] && acts[0] == Take(i, timeout)
    && (StepKeeps(k, acts[0]); CallRun(Step(k, acts[0]), acts[1..], Me(k)))
  }

  /** A whole semaphore_take, whatever else goes on in between: it returns success having taken
      exactly one token, or a timeout having taken none, and the latter only with no token there
      and, given a timeout, no earlier than that. */
  lemma {:induction false} TakeOutcome(k: Kernel, acts: seq<Act>, i: nat, timeout: int)
    requires KernelInv(k) && Legal(k, acts) && TakeCall(k, acts, i, timeout)
    ensures var r := After(k, acts); var t := Me(k);
      && CallOf(r, t) == NoCall
      && Tokens(k, acts, t, i) == (if ResultOf(r, t) == OK then 1 else 0)
      && (ResultOf(r, t) == TimedOut ==> CountOf(r, i) == 0 && (timeout == 0 || (timeout > 0 && r.now >= k.now + timeout)))
  {
    hide KernelInv, Step, OwnAct;
    TakeBegins(k, i, timeout);
    StepKeeps(k, acts[0]);
    var r := Step(k, acts[0]);
    assert Taker(r, Me(k), i, timeout, Deadline(k.now, timeout));
    assert acts[1..] != [];
    TakeRunEnds(r, acts[1..], Me(k), i, timeout, Deadline(k.now, timeout));
    OutAtEnd(r, acts[1..], Me(k));
  }

  lemma {:induction false} OutAtEnd(k: Kernel, acts: seq<Act>, t: nat)
    requires KernelInv(k) && Legal(k, acts) && CallRun(k, acts, t)
    ensures CallOf(After(k, acts), t) == NoCall
    decreases |acts|
  {
    hide KernelInv, Step, Allowed;
    if acts != [] {
      StepKeeps(k, acts[0]);
      OutAtEnd(Step(k, acts[0]), acts[1..], t);
    }
  }

  // ---------------------------------------------------------------- mutex_lock, from call to return

  /** Task `t` waits inside mutex_lock; a timeout has come, if it has, no earlier than `wakeup`. */
  predicate Locker(k: Kernel, t: nat, i: nat, timeout: int, wakeup: nat) {
    && t < |k.s.tcb| && CallOf(k, t) == AwaitMutex(i, timeout)
    && (WakeOf(k, t) == Pending && timeout > 0 ==> k.s.tcb[t].wakeup == wakeup)
    && (WakeOf(k, t) == Timeout ==> timeout > 0 && k.now >= wakeup)
  }

  predicate Owns(k: Kernel, t: nat, i: nat) { i < |k.mtxs| && k.mtxs[i].owner == Some(t) }

  lemma NowRises(k: Kernel, a: Act)
    requires KernelInv(k) && Allowed(k, a)
    ensures Step(k, a).now == k.now + if a.Tick? then 1 else 0
  {
    hide SchedInv, SyncInv, Park, Unpark, Switch, AddReady, Boost, Release, Promote, ScanBest, ScanSecond;
    MeFits(k);
    SizedInv(k.s);
    if a.Tick? { ExpireNow(k.(now := k.now + 1)); }
  }

  lemma {:induction false} ExpireNow(k: Kernel)
    ensures ExpireAll(k).now == k.now
    decreases |k.s.sleeping|
  {
    if k.s.sleeping != [] && Known(k.s, k.s.sleeping[0]) && WakeupOf(k.s.tcb, k.s.sleeping[0]) <= k.now {
      ExpireNow(Expire(k));
    }
  }

  /** How the call returns: with the mutex, or out of time. */
  ghost predicate LockReturns(r: Kernel, t: nat, i: nat, timeout: int, wakeup: nat) {
    && CallOf(r, t) == NoCall
    && (ResultOf(r, t) == OK <==> Owns(r, t, i))
    && (ResultOf(r, t) == TimedOut ==> OutOfTime(timeout, wakeup, r.now))
  }

  lemma OwnLock(k: Kernel, a: Act, t: nat, i: nat, timeout: int, wakeup: nat)
    requires KernelInv(k) && Allowed(k, a) && ByTask(k, a, t) && Locker(k, t, i, timeout, wakeup)
    ensures LockReturns(Step(k, a), t, i, timeout, wakeup)
  {
    assert a.LockWoken?;
    LockReport(k);
    NowRises(k, a);
    MeFits(k);
    hide SchedInv, SyncInv;
  }

  lemma OthersLock(k: Kernel, a: Act, t: nat, i: nat, timeout: int, wakeup: nat)
    requires KernelInv(k) && Allowed(k, a) && !ByTask(k, a, t) && Locker(k, t, i, timeout, wakeup)
    ensures Locker(Step(k, a), t, i, timeout, wakeup)
  {
    hide SchedInv, SyncInv, Step, Allowed;
    OthersEvolve(k, a, t);
    NowRises(k, a);
    WaitFacts(k, t);
    if a.Tick? && WakeOf(k, t) == Pending { NoEarlyTimeout(k, t); }
  }

  lemma {:induction false} LockRunEnds(k: Kernel, acts: seq<Act>, t: nat, i: nat, timeout: int, wakeup: nat)
    requires KernelInv(k) && Legal(k, acts) && acts != [] && CallRun(k, acts, t) && Locker(k, t, i, timeout, wakeup)
    ensures LockReturns(After(k, acts), t, i, timeout, wakeup)
    decreases |acts|
  {
    hide KernelInv, Step, Allowed, OwnAct;
    StepKeeps(k, acts[0]);
    var r := Step(k, acts[0]);
    if ByTask(k, acts[0], t) {
      OwnLock(k, acts[0], t, i, timeout, wakeup);
      assert acts[1..] == [];
    } else {
      OthersLock(k, acts[0], t, i, timeout, wakeup);
      LockRunEnds(r, acts[1..], t, i, timeout, wakeup);
    }
  }

  lemma LockBegins(k: Kernel, i: nat, timeout: int)
    requires KernelInv(k) && Allowed(k, Lock(i, timeout))
    ensures var r := Step(k, Lock(i, timeout)); var t := Me(k);
      if !k.mtxs[i].locked || timeout == 0 then LockReturns(r, t, i, timeout, Deadline(k.now, timeout))
      else Locker(r, t, i, timeout, Deadline(k.now, timeout))
  {
    hide SchedInv, SyncInv, StartWait, Boost;
    var t := Me(k);
    MeFits(k);
    LockFits(k, i);
    OwnerThere(k, i);
    if k.mtxs[i].locked && timeout != 0 {
      LockShape(k, t, i, timeout);
    }
  }

  /** The run is a whole mutex_lock of the current task, in the same sense. */
  ghost predicate LockCall(k: Kernel, acts: seq<Act>, i: nat, timeout: int)
    requires KernelInv(k) && Legal(k, acts)
  {
    && acts != [] && acts[0] == Lock(i, timeout)
    && (StepKeeps(k, acts[0]); CallRun(Step(k, acts[0]), acts[1..], Me(k)))
  }

  /** A whole mutex_lock, whatever else goes on in between: it returns success exactly when the
      caller then owns the mutex, a timeout no earlier than asked for, and it does not wait exactly
      when the mutex was free or the timeout is 0. */
  lemma {:induction false} LockOutcome(k: Kernel, acts: seq<Act>, i: nat, timeout: int)
    requires KernelInv(k) && Legal(k, acts) && LockCall(k, acts, i, timeout)
    ensures LockReturns(After(k, acts), Me(k), i, timeout, Deadline(k.now, timeout))
    ensures i < |k.mtxs| && (|acts| == 1 <==> !k.mtxs[i].locked || timeout == 0)
  {
    hide KernelInv, Step, OwnAct;
    StepKeeps(k, acts[0]);
    LockBegins(k, i, timeout);
    var r := Step(k, acts[0]);
    if k.mtxs[i].locked && timeout != 0 {
      LockRunEnds(r, acts[1..], Me(k), i, timeout, Deadline(k.now, timeout));
    } else {
      assert acts[1..] == [];
    }
  }
}
