/** The kernel calls as they work on the objects of one core.  Each method is one critical section
    or interrupt, and does exactly what the act of the same name does to the value the core
    represents. */
module KernelCalls {
  import opened Sequences
  import opened KernelLists
  import opened KernelTasks
  import opened Scheduler
  import opened Kernel
  import opened KernelSafety
  import opened KernelRuns
  import opened KernelCore

  /** A core whose invariant holds, about to perform `a`. */
  ghost predicate Can(c: Core, a: Act)
    reads c, c.pool, c.pool.lists, c.pool.Nodes()
  {
    c.Valid() && KernelInv(c.k) && Allowed(c.k, a)
  }

  lemma MeIs(c: Core)
    requires c.Valid() && KernelInv(c.k) && Acting(c.k)
    ensures c.current.Some? && Me(c.k) == c.current.value && Me(c.k) < |c.tcb| && c.tcb == c.k.s.tcb
    ensures Known(c.k.s, Me(c.k)) && c.tcb[Me(c.k)].state != Blocked
  {
  }

  /** A task notes what it is about to wait for and leaves its ready list. */
  method StartWaiting(c: Core, t: nat, call: Call, wakeup: Option<nat>)
    requires c.Valid() && SchedInv(c.k.s) && t < |c.k.s.tcb| && c.k.s.tcb[t].state != Blocked
    modifies c`tcb, c`k, c.pool.lists, c.pool.Nodes()
    ensures Known(old(c.k).s, t) && c.Valid() && c.k == StartWait(old(c.k), t, call, wakeup)
  {
    hide Core.Valid, SchedInv, Park;
    c.TaskKnown(t);
    ghost var b := c.tcb[t].(call := call, enqueued := c.tcb[t].prio, wake := Pending);
    NoteKeeps(c.k.s, t, b);
    c.SetTask(t, c.tcb[t].(call := call, enqueued := c.tcb[t].prio, wake := Pending));
    c.ParkTask(t, wakeup);
  }

  /** Parking does not look at semaphores or mutexes. */
  lemma StartWaitApart(k: Kernel, t: nat, call: Call, wakeup: Option<nat>, sems: seq<Semaphore>, mtxs: seq<Mutex>)
    requires Known(k.s, t)
    ensures StartWait(k, t, call, wakeup) == k.(s := StartWait(k, t, call, wakeup).s)
    ensures StartWait(k.(sems := sems, mtxs := mtxs), t, call, wakeup) == StartWait(k, t, call, wakeup).(sems := sems, mtxs := mtxs)
  {
    hide Park;
  }

  /** block_until, up to its waiting loop. */
  method DelayUntil(c: Core, wakeup: nat)
    requires Can(c, BlockUntil(wakeup))
    modifies c`tcb, c`k, c.pool.lists, c.pool.Nodes()
    ensures c.Valid() && c.k == Step(old(c.k), BlockUntil(wakeup))
  {
    hide Core.Valid, SchedInv, SyncInv, StartWait;
    MeIs(c);
    StartWaiting(c, c.current.value, Delaying, Some(wakeup));
  }

  /** semaphore_take, first critical section: a token, a timeout, or a place in the queue. */
  method SemaphoreTry(c: Core) returns (status: Option<Status>)
    requires Can(c, TakeTry)
    modifies c`tcb, c`sems, c`k, c.pool.lists, c.pool.Nodes()
    ensures c.Valid() && c.k == Step(old(c.k), TakeTry)
    ensures status.Some? ==> status.value == c.k.s.tcb[Me(old(c.k))].result
  {
    hide Core.Valid, SchedInv, SyncInv, StartWait;
    MeIs(c);
    c.Fields();
    MeFits(c.k);
    var t := c.current.value;
    var call := c.tcb[t].call;
    var i := call.sem;
    ghost var m := c.k.sems[i];
    if c.sems[i].count > 0 {
      c.SetSemaphore(i, c.sems[i].(count := c.sems[i].count - 1), m.(count := m.count - 1, takes := m.takes + 1));
      c.SetTask(t, c.tcb[t].(call := NoCall, result := OK));
      return Some(OK);
    }
    if call.timeout == 0 || (call.timeout > 0 && c.now >= call.deadline) {
      c.SetTask(t, c.tcb[t].(call := NoCall, result := TimedOut));
      return Some(TimedOut);
    }
    c.EventPlace(t);
    ActiveWaitsNowhere(c.k, t);
    StartWaitApart(c.k, t, AwaitSem(i, call.timeout, call.deadline), if call.timeout > 0 then Some(call.deadline) else None,
                   c.k.sems[i := m.(waiters := m.waiters + [t])], c.k.mtxs);
    c.JoinSemaphore(t, i);
    StartWaiting(c, t, AwaitSem(i, call.timeout, call.deadline), if call.timeout > 0 then Some(call.deadline) else None);
    return None;
  }

  /** semaphore_take, second critical section: handed a token, or round again. */
  method SemaphoreWoken(c: Core) returns (done: bool)
    requires Can(c, TakeWoken)
    modifies c`tcb, c`sems, c`k
    ensures c.Valid() && c.k == Step(old(c.k), TakeWoken)
  {
    hide Core.Valid, SchedInv, SyncInv;
    MeIs(c);
    c.Fields();
    MeFits(c.k);
    var t := c.current.value;
    var call := c.tcb[t].call;
    ghost var m := c.k.sems[call.sem];
    done := c.tcb[t].acquired;
    if done {
      c.SetSemaphore(call.sem, c.sems[call.sem], m.(takes := m.takes + 1));
      c.SetTask(t, c.tcb[t].(call := NoCall, result := OK, acquired := false));
    } else {
      c.SetTask(t, c.tcb[t].(call := Taking(call.sem, call.timeout, call.deadline)));
    }
  }

  lemma WithoutFirst(s: seq<nat>)
    requires s != []
    ensures s[0] in s && Without(s, s[0]) == s[1..]
  {
  }

  /** The longest-waiting task is handed a token and woken. */
  method HandToken(c: Core, l: List, i: nat)
    requires c.Valid() && KernelInv(c.k) && i < |c.k.sems| && c.k.sems[i].waiters != [] && Known(c.k.s, c.k.sems[i].waiters[0])
    requires SemList(i) < |c.pool.lists| && l == c.pool.lists[SemList(i)]
    modifies c`tcb, c`sems, c`k, c.pool.lists, c.pool.Nodes()
    ensures c.Valid() && c.k == DoGive(old(c.k), i)
  {
    hide Core.Valid, SchedInv, SyncInv, AddReady, RemoveSleeping, Without;
    c.Fields();
    c.ShowsSemaphore(i);
    ghost var m := c.k.sems[i];
    var t := l.head.owner;
    FirstWaiter(c.k, i);
    WithoutFirst(m.waiters);
    c.LeaveSemaphore(l, t, i);
    c.SetSemaphore(i, c.sems[i], m.(waiters := m.waiters[1..], gives := m.gives + 1));
    NoteKeeps(c.k.s, t, c.tcb[t].(acquired := true, wake := Handoff));
    c.SetTask(t, c.tcb[t].(acquired := true, wake := Handoff));
    c.UnparkTask(t);
  }

  /** semaphore_give: to the longest-waiting task, else to the count, else refused. */
  method SemaphoreGive(c: Core, i: nat) returns (accepted: bool)
    requires Can(c, Give(i))
    modifies c`tcb, c`sems, c`k, c.pool.lists, c.pool.Nodes()
    ensures c.Valid() && c.k == Step(old(c.k), Give(i))
    ensures accepted <==> old(c.k).sems[i].waiters != [] || old(c.k).sems[i].count < old(c.k).sems[i].max
  {
    hide Core.Valid, SchedInv, SyncInv, Unpark;
    c.Fields();
    GiveFits(c.k, i);
    c.ShowsSemaphore(i);
    ghost var m := c.k.sems[i];
    var l := c.pool.lists[SemList(i)];
    if l.num > 0 {
      HandToken(c, l, i);
      return true;
    }
    if c.sems[i].count < c.sems[i].max {
      c.SetSemaphore(i, c.sems[i].(count := c.sems[i].count + 1), m.(count := m.count + 1, gives := m.gives + 1));
      return true;
    }
    return false;
  }

  /** mutex_lock, first critical section: the mutex, a timeout, or a place in the queue with the
      owner raised to the caller's priority. */
  method MutexLock(c: Core, i: nat, timeout: int) returns (status: Option<Status>)
    requires Can(c, Lock(i, timeout))
    modifies c`tcb, c`mtxs, c`k, c.pool.lists, c.pool.Nodes()
    ensures c.Valid() && c.k == Step(old(c.k), Lock(i, timeout))
    ensures status.Some? <==> !old(c.k).mtxs[i].locked || timeout == 0
  {
    hide Core.Valid, SchedInv, SyncInv, StartWait, Boost;
    MeIs(c);
    c.Fields();
    LockFits(c.k, i);
    ghost var m := c.k.mtxs[i];
    var t := c.current.value;
    var b := c.tcb[t];
    var r := c.mtxs[i];
    if !r.locked {
      c.SetMutex(i, r.(locked := true, owner := Some(t)), m.(locked := true, owner := Some(t)));
      c.SetTask(t, b.(held := if r.inherit then b.held + 1 else b.held, call := NoCall, result := OK));
      return Some(OK);
    }
    if timeout == 0 {
      c.SetTask(t, b.(call := NoCall, result := TimedOut));
      return Some(TimedOut);
    }
    MutexQueue(c, t, i, timeout);
    return None;
  }

  method MutexQueue(c: Core, t: nat, i: nat, timeout: int)
    requires c.Valid() && KernelInv(c.k) && Known(c.k.s, t) && t != IDLE && Task(c.k, t).call.NoCall? && timeout != 0
    requires i < |c.k.mtxs| && c.k.mtxs[i].inherited < NUM_PRIORITIES && c.k.mtxs[i].locked && c.k.mtxs[i].owner != Some(t)
    requires c.k.mtxs[i].owner.Some? ==> Known(c.k.s, c.k.mtxs[i].owner.value)
    modifies c`tcb, c`mtxs, c`k, c.pool.lists, c.pool.Nodes()
    ensures c.Valid() && c.k == DoLock(old(c.k), t, i, timeout)
  {
    hide Core.Valid, SchedInv, SyncInv, StartWait, Boost;
    ghost var k := c.k;
    ghost var m := c.k.mtxs[i];
    var w := if timeout > 0 then Some(c.now + timeout) else None;
    c.Fields();
    OwnerThere(k, i);
    CallingActive(k, t);
    ActiveWaitsNowhere(k, t);
    c.EventPlace(t);
    StartWaitApart(k, t, AwaitMutex(i, timeout), w, k.sems, k.mtxs[i := m.(waiters := m.waiters + [t])]);
    StartWaitSpec(k, t, AwaitMutex(i, timeout), w);
    c.JoinMutex(t, i);
    StartWaiting(c, t, AwaitMutex(i, timeout), w);
    c.Fields();
    var r := c.mtxs[i];
    if r.inherit {
      var p := Max(r.inherited, c.tcb[t].prio);
      c.SetMutex(i, r.(inherited := p), m.(waiters := m.waiters + [t], inherited := p));
      RaiseTask(c, r.owner.value, p);
    }
  }

  /** Raises a task that is below priority `p`. */
  method RaiseTask(c: Core, t: nat, p: nat)
    requires c.Valid() && SchedInv(c.k.s) && t < |c.k.s.tcb| && p < NUM_PRIORITIES
    modifies c`tcb, c`k, c.pool.lists, c.pool.Nodes()
    ensures Sized(old(c.k).s) && c.Valid() && c.k == old(c.k).(s := Boost(old(c.k).s, t, p))
  {
    hide Core.Valid, SchedInv, ChangePriority;
    c.TaskKnown(t);
    if c.tcb[t].prio < p {
      c.ChangeTaskPriority(t, p);
    }
  }

  /** mutex_lock, second critical section. */
  method MutexWoken(c: Core) returns (status: Status)
    requires Can(c, LockWoken)
    modifies c`tcb, c`k
    ensures c.Valid() && c.k == Step(old(c.k), LockWoken)
    ensures status == c.k.s.tcb[Me(old(c.k))].result
  {
    hide Core.Valid, SchedInv, SyncInv;
    MeIs(c);
    c.Fields();
    MeFits(c.k);
    var t := c.current.value;
    status := if c.mtxs[c.tcb[t].call.mtx].owner == Some(t) then OK else TimedOut;
    c.SetTask(t, c.tcb[t].(call := NoCall, result := status));
  }

  /** mutex_set_inheritance, refused unless the mutex is free and nobody waits. */
  method MutexSetInheritance(c: Core, i: nat, on: bool) returns (ok: bool)
    requires Can(c, SetInheritance(i, on))
    modifies c`mtxs, c`k
    ensures c.Valid() && c.k == Step(old(c.k), SetInheritance(i, on))
    ensures ok <==> !old(c.k).mtxs[i].locked && old(c.k).mtxs[i].waiters == []
  {
    hide Core.Valid, SchedInv, SyncInv;
    c.Fields();
    c.ShowsMutex(i);
    ok := !(c.mtxs[i].locked || c.pool.lists[MtxList(|c.sems|, i)].num > 0);
    if ok {
      c.SetMutex(i, c.mtxs[i].(inherit := on), c.k.mtxs[i].(inherit := on));
    }
  }

  /** The handoff scan: the first waiter of highest priority, and the highest of the others. */
  method Scan(c: Core, l: List, ghost ws: seq<nat>) returns (best: ListItem, second: nat)
    requires c.Valid() && c.Shows(l, ws) && ws != [] && forall w | w in ws :: w < |c.tcb|
    ensures second == ScanSecond(c.tcb, ws, 1, 0, 0)
    ensures ScanBest(c.tcb, ws, 1, 0) < |l.items| && best == l.items[ScanBest(c.tcb, ws, 1, 0)]
  {
    hide Core.Valid, At;
    AtIs(l.items, 0);
    AtIs(l.items, 1);
    best := l.head;
    second := 0;
    var iter := best.next;
    ghost var j: nat := 1;
    ghost var b: nat := 0;
    while iter != null
      invariant b < j <= |ws| && best == l.items[b] && iter == At(l.items, j)
      invariant j < |ws| ==> At(l.items, j) == l.items[j]
      invariant j >= |ws| ==> At(l.items, j) == null
      invariant ScanBest(c.tcb, ws, 1, 0) == ScanBest(c.tcb, ws, j, b)
      invariant ScanSecond(c.tcb, ws, 1, 0, 0) == ScanSecond(c.tcb, ws, j, b, second)
      decreases |ws| - j
    {
      assert ws[j] in ws && ws[b] in ws;
      if c.tcb[iter.owner].prio > c.tcb[best.owner].prio {
        if c.tcb[best.owner].prio > second {
          second := c.tcb[best.owner].prio;
        }
        best := iter;
        b := j;
      } else {
        if c.tcb[iter.owner].prio > second {
          second := c.tcb[iter.owner].prio;
        }
      }
      iter := iter.next;
      j := j + 1;
      AtIs(l.items, j);
    }
  }

  /** The releasing task counts one mutex less, and at none returns to its own priority. */
  method ReleaseHolder(c: Core, o: nat)
    requires c.Valid() && SchedInv(c.k.s) && Known(c.k.s, o) && c.k.s.tcb[o].base < NUM_PRIORITIES && c.k.s.tcb[o].held > 0
    modifies c`tcb, c`k, c.pool.lists, c.pool.Nodes()
    ensures c.Valid() && c.k == old(c.k).(s := Release(old(c.k).s, o))
  {
    hide Core.Valid, SchedInv, ChangePriority;
    c.TaskKnown(o);
    NoteKeeps(c.k.s, o, c.tcb[o].(held := c.tcb[o].held - 1));
    var b := c.tcb[o].(held := c.tcb[o].held - 1);
    c.SetTask(o, b);
    if b.held == 0 && b.prio != b.base {
      c.ChangeTaskPriority(o, b.base);
    }
  }

  /** The next owner: counted, raised past those still waiting, and made ready. */
  method PromoteWaiter(c: Core, t: nat, inherit: bool, inherited: nat)
    requires c.Valid() && SchedInv(c.k.s) && Known(c.k.s, t) && c.k.s.tcb[t].state == Blocked && inherited < NUM_PRIORITIES
    modifies c`tcb, c`k, c.pool.lists, c.pool.Nodes()
    ensures c.Valid() && c.k == old(c.k).(s := Promote(old(c.k).s, t, inherit, inherited))
  {
    hide Core.Valid, SchedInv, ChangePriority, Unpark;
    c.TaskKnown(t);
    var b := c.tcb[t].(wake := Handoff, held := if inherit then c.tcb[t].held + 1 else c.tcb[t].held);
    NoteKeeps(c.k.s, t, b);
    c.SetTask(t, b);
    if inherit && inherited > b.prio {
      ChangePriorityKeeps(c.k.s, t, inherited);
      c.ChangeTaskPriority(t, inherited);
    }
    c.UnparkTask(t);
  }

  lemma WithoutBest(s: seq<nat>, i: nat)
    requires Distinct(s) && i < |s|
    ensures s[i] in s && Without(s, s[i]) == RemoveAt(s, i)
  {
    IndexOfDistinct(s, i);
  }

  lemma MutexQueueOk(k: Kernel, i: nat)
    requires KernelInv(k) && i < |k.mtxs|
    ensures Distinct(k.mtxs[i].waiters) && forall w | w in k.mtxs[i].waiters :: w < |k.s.tcb|
  {
    assert MtxOk(k.s.tcb, k.mtxs[i], i);
  }

  /** mutex_unlock by the owner (or of a free mutex, which does nothing). */
  method MutexUnlock(c: Core, i: nat)
    requires Can(c, Unlock(i))
    modifies c`tcb, c`mtxs, c`k, c.pool.lists, c.pool.Nodes()
    ensures c.Valid() && c.k == Step(old(c.k), Unlock(i))
  {
    hide Core.Valid, SchedInv, SyncInv, DoUnlock, List.Chain;
    c.Fields();
    LockFits(c.k, i);
    if !c.mtxs[i].locked {
      UnlockNothing(c.k, i);
      return;
    }
    c.ShowsMutex(i);
    OwnerThere(c.k, i);
    MeIs(c);
    if c.pool.lists[MtxList(|c.sems|, i)].num == 0 {
      UnlockFree(c, i);
    } else {
      UnlockPass(c, i);
    }
  }

  /** What unlocking needs of the state it finds. */
  ghost predicate Holding(k: Kernel, o: nat, i: nat) {
    && KernelInv(k) && Known(k.s, o) && Task(k, o).call.NoCall? && Task(k, o).base < NUM_PRIORITIES
    && i < |k.mtxs| && k.mtxs[i].locked && k.mtxs[i].owner == Some(o) && forall t | t in k.mtxs[i].waiters :: Known(k.s, t)
  }

  method UnlockFree(c: Core, i: nat)
    requires c.Valid() && c.current.Some? && Holding(c.k, c.current.value, i) && c.k.mtxs[i].waiters == []
    modifies c`tcb, c`mtxs, c`k, c.pool.lists, c.pool.Nodes()
    ensures c.Valid() && c.k == DoUnlock(old(c.k), i)
  {
    hide Core.Valid, SchedInv, SyncInv, Release;
    c.Fields();
    ghost var m := c.k.mtxs[i];
    var r := c.mtxs[i];
    var holder := c.current.value;
    ReleasedHolds(c.k, holder, i, m.(owner := None));
    c.SetMutex(i, r.(owner := None, locked := false, inherited := 0), m.(locked := false, owner := None, inherited := 0));
    if r.inherit {
      ReleaseHolder(c, holder);
    }
  }

  method UnlockPass(c: Core, i: nat)
    requires c.Valid() && c.current.Some? && Holding(c.k, c.current.value, i) && c.k.mtxs[i].waiters != []
    modifies c`tcb, c`mtxs, c`k, c.pool.lists, c.pool.Nodes()
    ensures c.Valid() && c.k == DoUnlock(old(c.k), i)
  {
    hide Core.Valid, SchedInv, SyncInv, Release, Promote, List.Chain, RemoveAt, ScanBest, ScanSecond, Without;
    ghost var k := c.k;
    ghost var m := k.mtxs[i];
    c.Fields();
    c.ShowsMutex(i);
    MutexQueueOk(k, i);
    var holder := c.current.value;
    ScanSpec(k.s.tcb, m.waiters, 1, 0, 0);
    ghost var b := ScanBest(k.s.tcb, m.waiters, 1, 0);
    var best, second := Scan(c, c.pool.lists[MtxList(|c.sems|, i)], m.waiters);
    var next := best.owner;
    WithoutBest(m.waiters, b);
    MtxWaiters(k, i, next);
    UnlockTransfer(c, i, next, second, b);
  }

  method UnlockTransfer(c: Core, i: nat, next: nat, second: nat, ghost b: nat)
    requires c.Valid() && c.current.Some? && Holding(c.k, c.current.value, i) && c.k.mtxs[i].waiters != []
    requires var ws := c.k.mtxs[i].waiters; b < |ws| && next == ws[b] && Without(ws, next) == RemoveAt(ws, b)
    requires b == ScanBest(c.k.s.tcb, c.k.mtxs[i].waiters, 1, 0) && second == ScanSecond(c.k.s.tcb, c.k.mtxs[i].waiters, 1, 0, 0)
    modifies c`tcb, c`mtxs, c`k, c.pool.lists, c.pool.Nodes()
    ensures c.Valid() && c.k == DoUnlock(old(c.k), i)
  {
    hide Core.Valid, SchedInv, SyncInv, Release, Promote, RemoveAt, ScanBest, ScanSecond, Without, DoUnlock, KernelInv, Core.Shows;
    ghost var m := c.k.mtxs[i];
    c.Fields();
    c.ShowsMutex(i);
    var r := c.mtxs[i];
    var holder := c.current.value;
    ghost var free := TransferFacts(c.k, holder, i, next, second, b);
    c.LeaveMutex(c.pool.lists[MtxList(|c.sems|, i)], next, i);
    c.SetMutex(i, r.(owner := Some(next), inherited := second), m.(owner := Some(next), waiters := RemoveAt(m.waiters, b), inherited := second));
    if r.inherit {
      ReleaseHolder(c, holder);
    }
    PromoteWaiter(c, next, r.inherit, second);
  }

  lemma TransferFacts(k: Kernel, o: nat, i: nat, next: nat, second: nat, b: nat) returns (free: Sched)
    requires Holding(k, o, i) && k.mtxs[i].waiters != []
    requires var ws := k.mtxs[i].waiters; b < |ws| && next == ws[b]
    requires b == ScanBest(k.s.tcb, k.mtxs[i].waiters, 1, 0) && second == ScanSecond(k.s.tcb, k.mtxs[i].waiters, 1, 0, 0)
    ensures second < NUM_PRIORITIES && SchedInv(k.s) && next in k.mtxs[i].waiters && next < |k.s.tcb|
    ensures k.mtxs[i].inherit ==> k.s.tcb[o].held > 0
    ensures free == (if k.mtxs[i].inherit then Release(k.s, o) else k.s) && SchedInv(free) && Known(free, next) && free.tcb[next].state == Blocked
    ensures var m := k.mtxs[i];
      DoUnlock(k, i) == k.(s := Promote(free, next, m.inherit, second),
                           mtxs := k.mtxs[i := m.(owner := Some(next), waiters := RemoveAt(m.waiters, b), inherited := second)])
  {
    hide SchedInv, SyncInv, Release, Promote, RemoveAt, ScanBest, ScanSecond, DoUnlock;
    ReleasedHolds(k, o, i, k.mtxs[i].(owner := None));
    free := if k.mtxs[i].inherit then Release(k.s, o) else k.s;
    FreeFacts(k, o, i, free);
    var best, other := UnlockShape(k, o, i, free);
    assert next in k.mtxs[i].waiters;
    MtxWaiters(k, i, next);
    OwnerThere(k, i);
    CallingActive(k, o);
  }

  lemma FreeFacts(k: Kernel, o: nat, i: nat, free: Sched)
    requires Holding(k, o, i) && (k.mtxs[i].inherit ==> k.s.tcb[o].held > 0)
    requires free == if k.mtxs[i].inherit then Release(k.s, o) else k.s
    ensures SchedInv(free) && Sized(free) && |free.tcb| == |k.s.tcb| && free.sleeping == k.s.sleeping && free.current == k.s.current
    ensures forall t | 0 <= t < |free.tcb| :: free.tcb[t].prio < NUM_PRIORITIES
    ensures forall t | 0 <= t < |free.tcb| && t != o :: free.tcb[t] == k.s.tcb[t]
  {
    hide SchedInv, SyncInv;
    if k.mtxs[i].inherit { ReleaseSpec(k.s, o, Released(k.s.tcb[o], true)); }
    hide Release;
    SizedInv(free);
    PriosSmall(free);
  }

  /** timer_tick_handler: every sleeper that is due is woken with a timeout. */
  method TimerTick(c: Core)
    requires Can(c, Tick)
    modifies c`tcb, c`now, c`k, c.pool.lists, c.pool.Nodes()
    ensures c.Valid() && c.k == Step(old(c.k), Tick)
  {
    hide Core.Valid, SchedInv, SyncInv, Expire;
    c.Fields();
    ClockKeeps(c.k);
    hide KernelInv;
    c.SetClock(c.now + 1);
    var due := HeadDue(c);
    while due
      invariant c.Valid() && KernelInv(c.k) && ExpireAll(c.k) == DoTick(old(c.k))
      invariant due <==> c.k.s.sleeping != [] && Known(c.k.s, c.k.s.sleeping[0]) && WakeupOf(c.k.s.tcb, c.k.s.sleeping[0]) <= c.k.now
      decreases |c.k.s.sleeping|
    {
      ExpireHead(c);
      due := HeadDue(c);
    }
  }

  method HeadDue(c: Core) returns (due: bool)
    requires c.Valid() && KernelInv(c.k)
    ensures due <==> c.k.s.sleeping != [] && Known(c.k.s, c.k.s.sleeping[0]) && WakeupOf(c.k.s.tcb, c.k.s.sleeping[0]) <= c.k.now
  {
    hide Core.Valid, SchedInv, SyncInv, List.Chain;
    c.Fields();
    c.ShowsSleepers();
    if c.k.s.sleeping != [] { HeadSleeper(c.k); }
    var head := c.pool.lists[SLEEPERS].head;
    due := head != null && c.now >= c.tcb[head.owner].wakeup;
  }

  method ExpireHead(c: Core)
    requires c.Valid() && KernelInv(c.k) && c.k.s.sleeping != [] && Known(c.k.s, c.k.s.sleeping[0])
    modifies c`tcb, c`k, c.pool.lists, c.pool.Nodes()
    ensures c.Valid() && KernelInv(c.k) && c.k == Expire(old(c.k)) && |c.k.s.sleeping| < |old(c.k).s.sleeping|
  {
    hide Core.Valid, SchedInv, SyncInv, List.Chain, LeaveWait;
    c.Fields();
    c.ShowsSleepers();
    ExpireKeeps(c.k);
    HeadSleeper(c.k);
    var t := c.pool.lists[SLEEPERS].head.owner;
    ghost var k := c.k;
    LeaveWaitSame(k, t);
    c.LeaveEvent(t);
    NoteKeeps(k.s, t, c.tcb[t].(wake := Timeout));
    c.SetTask(t, c.tcb[t].(wake := Timeout));
    c.UnparkTask(t);
  }

  lemma LeaveWaitSame(k: Kernel, t: nat)
    requires t < |k.s.tcb|
    ensures LeaveWait(k, t).s == k.s && LeaveWait(k, t).now == k.now
  {
  }

  /** task_create: refused when the pool is full; otherwise a ready task of capped priority. */
  method TaskCreate(c: Core, priority: nat) returns (created: bool)
    requires Can(c, Create(priority))
    modifies c`tcb, c`k, c.pool`tasks, c.pool.lists, c.pool.Nodes()
    ensures c.Valid() && c.k == Step(old(c.k), Create(priority))
    ensures created <==> |old(c.k).s.tcb| != MAX_NUM_TASKS + 1
    ensures fresh(c.pool.Nodes() - old(c.pool.Nodes()))
  {
    hide Core.Valid, SchedInv, SyncInv, AddReady;
    c.Fields();
    SizedInv(c.k.s);
    created := |c.tcb| != MAX_NUM_TASKS + 1;
    if created {
      var p := if priority >= NUM_PRIORITIES then NUM_PRIORITIES - 1 else priority;
      var t := |c.tcb|;
      c.AddTask(NewTask(p));
      c.AddToReady(t);
    }
  }

  /** scheduler_init, with the semaphores and mutexes the system will use: idle alone is ready. */
  method SchedulerInit(counts: seq<(nat, nat)>, mutexes: nat) returns (c: Core)
    ensures fresh(c) && fresh(c.pool)
    ensures c.Valid() && Init(c.k) && |c.k.sems| == |counts| && |c.k.mtxs| == mutexes
    ensures forall i | 0 <= i < |counts| :: c.k.sems[i].max == counts[i].0 && c.k.sems[i].count == counts[i].1
  {
    hide Core.Valid, TaskPool.Linked, Ids;
    BareIds(counts, mutexes);
    var pool := NewPool(SLEEPERS + 1 + |counts| + mutexes);
    c := new Core(pool, counts, mutexes);
    hide TaskPool.Nodes;
    c.AddToReady(IDLE);
    InitAdded(counts, mutexes);
  }

  /** Fresh lists, and the nodes of the idle task on none of them. */
  method NewPool(n: nat) returns (pool: TaskPool)
    ensures fresh(pool) && pool.Linked(Empties(n)) && |pool.lists| == n
    ensures |pool.tasks| == 1 && pool.tasks[0].state.container == null
    ensures forall l | l in pool.lists :: fresh(l) && l.index == null
    ensures forall x | x in pool.Nodes() :: fresh(x)
  {
    hide At;
    var ls := NewLists(n);
    var state := new ListItem(IDLE);
    var event := new ListItem(IDLE);
    pool := new TaskPool(ls, TaskNodes(state, event));
  }

  lemma InitAdded(counts: seq<(nat, nat)>, mutexes: nat)
    ensures Known(Bare(counts, mutexes).s, IDLE)
    ensures var k := Bare(counts, mutexes); Init(k.(s := AddReady(k.s, IDLE)))
  {
    var k := Bare(counts, mutexes);
    var r := k.(s := AddReady(k.s, IDLE));
    assert r.s.tcb == [NewTask(0)];
    assert k.s.ready[0] + [IDLE] == [IDLE];
    assert r.s.ready == [[IDLE], [], [], [], [], []];
    assert r.s.index == [Some(IDLE), None, None, None, None, None];
  }

  /** block_until, left, and semaphore_take, entered: the caller's own record only. */
  method NoteCall(c: Core, a: Act)
    requires Can(c, a) && (a.DelayOver? || a.Take?)
    modifies c`tcb, c`k
    ensures c.Valid() && c.k == Step(old(c.k), a)
  {
    hide Core.Valid, SchedInv, SyncInv;
    MeIs(c);
    c.Fields();
    var t := c.current.value;
    if a.DelayOver? {
      c.SetTask(t, c.tcb[t].(call := NoCall, result := OK));
    } else {
      c.SetTask(t, c.tcb[t].(call := Taking(a.sem, a.timeout, if a.timeout > 0 then c.now + a.timeout else 0)));
    }
  }

  /** Any act, on the objects. */
  method Perform(c: Core, a: Act)
    requires Can(c, a)
    modifies c, c.pool`tasks, c.pool.lists, c.pool.Nodes()
    ensures c.Valid() && KernelInv(c.k) && c.k == Step(old(c.k), a)
    ensures fresh(c.pool.Nodes() - old(c.pool.Nodes()))
  {
    hide Core.Valid, SchedInv, SyncInv, Step;
    StepKeeps(c.k, a);
    ghost var k := c.k;
    match a {
      case Create(p) => var created := TaskCreate(c, p);
      case BlockUntil(w) => DelayUntil(c, w);
      case DelayOver | Take(_, _) => NoteCall(c, a);
      case TakeTry => var status := SemaphoreTry(c);
      case TakeWoken => var done := SemaphoreWoken(c);
      case Give(i) => var accepted := SemaphoreGive(c, i);
      case Lock(i, timeout) => var status := MutexLock(c, i, timeout);
      case LockWoken => var status := MutexWoken(c);
      case Unlock(i) => MutexUnlock(c, i);
      case SetInheritance(i, on) => var ok := MutexSetInheritance(c, i, on);
      case Tick => TimerTick(c);
      case Reschedule => c.SwitchContext(); RescheduleIs(k);
    }
  }

  lemma RescheduleIs(k: Kernel)
    requires KernelInv(k) && Sized(k.s)
    ensures Step(k, Reschedule) == k.(s := Switch(k.s))
  {
  }

  /** Every run of kernel calls, ticks and switches: the linked lists stay acyclic chains whose
      ends, lengths, containers and cursors agree, and they hold what the run says. */
  method Execute(c: Core, acts: seq<Act>)
    requires c.Valid() && KernelInv(c.k) && Legal(c.k, acts)
    modifies c, c.pool`tasks, c.pool.lists, c.pool.Nodes()
    ensures c.Valid() && c.k == After(old(c.k), acts)
    ensures forall l | l in c.pool.lists :: l.Chain()
    ensures ListsExact(c.k.s) && TokensConserved(c.k) && PriorityInherited(c.k)
  {
    hide Core.Valid, SchedInv, SyncInv, Step, Allowed;
    var i := 0;
    while i < |acts|
      invariant 0 <= i <= |acts| && c.Valid() && KernelInv(c.k) && Legal(c.k, acts[i..])
      invariant After(c.k, acts[i..]) == After(old(c.k), acts)
      invariant fresh(c.pool.Nodes() - old(c.pool.Nodes()))
    {
      assert acts[i..][1..] == acts[i + 1..];
      Perform(c, acts[i]);
      i := i + 1;
    }
    Consequences(c.k);
    c.Chains();
  }
}
