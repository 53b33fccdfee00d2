/** Every act keeps the kernel's invariant, on every run. */
module KernelSafety {
  import opened Sequences
  import opened Scheduler
  import opened Kernel

  // ---------------------------------------------------------------- effects of list operations

  lemma ParkSpec(s: Sched, t: nat, wakeup: Option<nat>)
    requires SchedInv(s) && Known(s, t) && s.tcb[t].state != Blocked
    ensures var r := Park(s, t, wakeup);
      && SchedInv(r) && r.current == s.current
      && r.tcb == s.tcb[t := s.tcb[t].(state := Blocked, wakeup := if wakeup.Some? then wakeup.value else s.tcb[t].wakeup)]
      && forall u :: u in r.sleeping <==> u in s.sleeping || (u == t && wakeup.Some?)
  {
    ParkKeeps(s, t, wakeup);
    if wakeup.Some? {
      assert Distinct(s.sleeping);
      InsertAtMembers(s.sleeping, InsertPlace(s.tcb, s.sleeping, wakeup.value), t);
    }
    hide InsertPlace, SchedInv, InsertAt;
    var w := if wakeup.Some? then wakeup.value else s.tcb[t].wakeup;
    assert Park(s, t, wakeup).tcb == s.tcb[t := s.tcb[t].(state := Blocked, wakeup := w)];
  }

  lemma UnparkSpec(s: Sched, t: nat)
    requires SchedInv(s) && Known(s, t) && s.tcb[t].state == Blocked
    ensures var r := Unpark(s, t);
      && SchedInv(r) && r.current == s.current
      && r.tcb == s.tcb[t := s.tcb[t].(state := Ready)]
      && forall u :: u in r.sleeping <==> u in s.sleeping && u != t
  {
    UnparkKeeps(s, t);
  }

  /** Bookkeeping fields are invisible to the scheduler. */
  lemma NoteKeeps(s: Sched, t: nat, b: Tcb)
    requires SchedInv(s) && t < |s.tcb|
    requires b.state == s.tcb[t].state && b.prio == s.tcb[t].prio && b.wakeup == s.tcb[t].wakeup
    ensures SchedInv(SetTask(s, t, b))
  {
    var r := SetTask(s, t, b);
    SleepersFrame(s.tcb, r.tcb, s.sleeping, 0);
    hide SleepersOk;
    forall q | 0 <= q < NUM_PRIORITIES ensures ReadyListOk(r.tcb, r.ready[q], r.index[q], q) {
      assert ReadyListOk(s.tcb, s.ready[q], s.index[q], q);
    }
    hide ReadyListOk;
    forall u | 0 <= u < |r.tcb| ensures Listed(r, u) { assert Listed(s, u); }
  }

  lemma BoostSpec(s: Sched, t: nat, p: nat)
    requires SchedInv(s) && t < |s.tcb| && p < NUM_PRIORITIES
    ensures var r := Boost(s, t, p);
      && SchedInv(r) && r.current == s.current && r.sleeping == s.sleeping
      && r.tcb == s.tcb[t := s.tcb[t].(prio := Max(s.tcb[t].prio, p))]
  {
    assert Listed(s, t);
    if s.tcb[t].prio < p { ChangePriorityKeeps(s, t, p); }
  }

  lemma StartWaitSpec(k: Kernel, t: nat, call: Call, wakeup: Option<nat>)
    requires SchedInv(k.s) && Known(k.s, t) && k.s.tcb[t].state != Blocked
    ensures var r := StartWait(k, t, call, wakeup); var b := k.s.tcb[t];
      && SchedInv(r.s) && r == k.(s := r.s) && r.s.current == k.s.current
      && r.s.tcb == k.s.tcb[t := b.(call := call, enqueued := b.prio, wake := Pending, state := Blocked,
                                      wakeup := if wakeup.Some? then wakeup.value else b.wakeup)]
      && forall u :: u in r.s.sleeping <==> u in k.s.sleeping || (u == t && wakeup.Some?)
  {
    var noted := SetTask(k.s, t, k.s.tcb[t].(call := call, enqueued := k.s.tcb[t].prio, wake := Pending));
    NoteKeeps(k.s, t, noted.tcb[t]);
    ParkSpec(noted, t, wakeup);
    hide Park, SchedInv;
    var w := if wakeup.Some? then wakeup.value else k.s.tcb[t].wakeup;
    assert noted.tcb[t := noted.tcb[t].(state := Blocked, wakeup := w)]
        == k.s.tcb[t := k.s.tcb[t].(call := call, enqueued := k.s.tcb[t].prio, wake := Pending, state := Blocked, wakeup := w)];
  }

  // ---------------------------------------------------------------- what other objects notice

  ghost predicate OnlyTask(a: seq<Tcb>, b: seq<Tcb>, t: nat) {
    |a| == |b| && t < |a| && b == a[t := b[t]]
  }

  /** The waiters of a semaphore still wait, and the tokens in flight to it are the same. */
  ghost predicate SemUntouched(a: seq<Tcb>, b: seq<Tcb>, m: Semaphore, i: nat) {
    && |a| == |b|
    && (forall w | w in m.waiters :: w < |a| && b[w].call == a[w].call && b[w].state == a[w].state)
    && (forall u | 0 <= u < |a| :: InFlight(i)(a[u]) == InFlight(i)(b[u]))
  }

  lemma SemFrame(a: seq<Tcb>, b: seq<Tcb>, m: Semaphore, i: nat)
    requires SemOk(a, m, i) && SemUntouched(a, b, m, i)
    ensures SemOk(b, m, i)
  {
    TallySame(a, b, InFlight(i));
    hide Tally;
  }

  /** The waiters of a mutex still wait, and its owner is no less urgent if that matters. */
  ghost predicate MtxUntouched(a: seq<Tcb>, b: seq<Tcb>, m: Mutex) {
    && |a| == |b|
    && (forall w | w in m.waiters :: w < |a| && b[w].call == a[w].call && b[w].state == a[w].state && b[w].enqueued == a[w].enqueued)
    && (m.inherit && m.owner.Some? ==> PrioOf(b, m.owner.value) >= PrioOf(a, m.owner.value))
  }

  lemma MtxFrame(a: seq<Tcb>, b: seq<Tcb>, m: Mutex, i: nat)
    requires MtxOk(a, m, i) && MtxUntouched(a, b, m)
    ensures MtxOk(b, m, i)
  {
  }

  /** What task `u` sees of the semaphores and mutexes it may be waiting for. */
  ghost predicate SameView(u: nat, a: Kernel, b: Kernel) {
    && |a.sems| == |b.sems| && |a.mtxs| == |b.mtxs|
    && (forall i | 0 <= i < |a.sems| :: u in a.sems[i].waiters <==> u in b.sems[i].waiters)
    && (forall i | 0 <= i < |a.mtxs| :: (u in a.mtxs[i].waiters <==> u in b.mtxs[i].waiters)
                                        && (a.mtxs[i].owner == Some(u) <==> b.mtxs[i].owner == Some(u)))
    && (u in a.s.sleeping <==> u in b.s.sleeping)
  }

  lemma WaitFrame(a: Kernel, b: Kernel, u: nat)
    requires u < |a.s.tcb| && u < |b.s.tcb| && b.s.tcb[u] == a.s.tcb[u] && SameView(u, a, b)
    requires WaitOk(a.s.tcb[u], u, u in a.s.sleeping, a.sems, a.mtxs)
    ensures WaitOk(b.s.tcb[u], u, u in b.s.sleeping, b.sems, b.mtxs)
  {
  }

  // ---------------------------------------------------------------- changes to one task

  ghost predicate SemStays(k: Kernel, r: Kernel, i: nat)
    requires i < |k.sems| == |r.sems|
  {
    r.sems[i] == k.sems[i] && SemUntouched(k.s.tcb, r.s.tcb, k.sems[i], i)
  }

  ghost predicate MtxStays(k: Kernel, r: Kernel, i: nat)
    requires i < |k.mtxs| == |r.mtxs|
  {
    r.mtxs[i] == k.mtxs[i] && MtxUntouched(k.s.tcb, r.s.tcb, k.mtxs[i])
  }

  /** Objects that task `t` does not wait for, and that did not change, stay as they are. */
  lemma OthersStay(k: Kernel, r: Kernel, t: nat, sem: int, mtx: int)
    requires SyncInv(k) && OnlyTask(k.s.tcb, r.s.tcb, t) && |r.sems| == |k.sems| && |r.mtxs| == |k.mtxs|
    requires forall j | 0 <= j < |k.sems| && j != sem :: t !in k.sems[j].waiters && r.sems[j] == k.sems[j]
    requires forall j | 0 <= j < |k.sems| && j != sem :: InFlight(j)(k.s.tcb[t]) == InFlight(j)(r.s.tcb[t])
    requires forall j | 0 <= j < |k.mtxs| && j != mtx :: t !in k.mtxs[j].waiters && r.mtxs[j] == k.mtxs[j]
    requires r.s.tcb[t].prio >= k.s.tcb[t].prio
    ensures forall j | 0 <= j < |k.sems| && j != sem :: SemStays(k, r, j)
    ensures forall j | 0 <= j < |k.mtxs| && j != mtx :: MtxStays(k, r, j)
  {
    forall j | 0 <= j < |k.sems| && j != sem ensures SemStays(k, r, j) { assert SemOk(k.s.tcb, k.sems[j], j); }
    forall j | 0 <= j < |k.mtxs| && j != mtx ensures MtxStays(k, r, j) { assert MtxOk(k.s.tcb, k.mtxs[j], j); }
  }

  /** Only the tasks `ts` changed, and perhaps objects they are concerned with; everyone else
      sees the same. */
  ghost predicate LocalChange(k: Kernel, r: Kernel, ts: set<nat>) {
    && |r.s.tcb| == |k.s.tcb| && IDLE !in ts && |r.sems| == |k.sems| && |r.mtxs| == |k.mtxs|
    && (forall i | 0 <= i < |k.sems| :: SemStays(k, r, i) || SemOk(r.s.tcb, r.sems[i], i))
    && (forall i | 0 <= i < |k.mtxs| :: MtxStays(k, r, i) || MtxOk(r.s.tcb, r.mtxs[i], i))
    && (forall u | 0 <= u < |k.s.tcb| && u !in ts :: r.s.tcb[u] == k.s.tcb[u])
    && (forall u | 0 <= u < |k.s.tcb| && u !in ts :: SameView(u, k, r))
    && (forall u | 0 <= u < |k.s.tcb| && u !in ts :: Tally(r.mtxs, HeldBy(u)) == Tally(k.mtxs, HeldBy(u)))
  }

  lemma LocalChangeKeeps(k: Kernel, r: Kernel, ts: set<nat>)
    requires SyncInv(k) && LocalChange(k, r, ts)
    requires forall t | t in ts && t < |r.s.tcb| ::
      WaitOk(r.s.tcb[t], t, t in r.s.sleeping, r.sems, r.mtxs) && HeldOk(r.s.tcb[t], t, r.mtxs)
    ensures SyncInv(r)
  {
    hide WaitOk, SameView;
    forall u | 0 <= u < |r.s.tcb| ensures WaitOk(r.s.tcb[u], u, u in r.s.sleeping, r.sems, r.mtxs) {
      if u !in ts { WaitFrame(k, r, u); }
    }
    forall u | 0 <= u < |r.s.tcb| ensures HeldOk(r.s.tcb[u], u, r.mtxs) {
      if u !in ts { assert HeldOk(k.s.tcb[u], u, k.mtxs); }
    }
    hide HeldOk, SemUntouched, MtxUntouched, SemOk, MtxOk;
    forall i | 0 <= i < |r.sems| ensures SemOk(r.s.tcb, r.sems[i], i) {
      assert SemStays(k, r, i) || SemOk(r.s.tcb, r.sems[i], i);
      assert SemOk(k.s.tcb, k.sems[i], i);
      if SemStays(k, r, i) { SemFrame(k.s.tcb, r.s.tcb, k.sems[i], i); }
    }
    forall i | 0 <= i < |r.mtxs| ensures MtxOk(r.s.tcb, r.mtxs[i], i) {
      assert MtxStays(k, r, i) || MtxOk(r.s.tcb, r.mtxs[i], i);
      assert MtxOk(k.s.tcb, k.mtxs[i], i);
      if MtxStays(k, r, i) { MtxFrame(k.s.tcb, r.s.tcb, k.mtxs[i], i); }
    }
  }

  /** A task that is not blocked waits nowhere. */
  lemma ActiveWaitsNowhere(k: Kernel, t: nat)
    requires SyncInv(k) && t < |k.s.tcb| && k.s.tcb[t].state != Blocked
    ensures forall i | 0 <= i < |k.sems| :: t !in k.sems[i].waiters
    ensures forall i | 0 <= i < |k.mtxs| :: t !in k.mtxs[i].waiters
    ensures t !in k.s.sleeping
    ensures WaitOk(k.s.tcb[t], t, false, k.sems, k.mtxs) && HeldOk(k.s.tcb[t], t, k.mtxs)
  {
    assert forall i | 0 <= i < |k.sems| :: SemOk(k.s.tcb, k.sems[i], i);
    assert forall i | 0 <= i < |k.mtxs| :: MtxOk(k.s.tcb, k.mtxs[i], i);
  }

  lemma CallingActive(k: Kernel, t: nat)
    requires KernelInv(k) && t < |k.s.tcb| && (k.s.tcb[t].call.Taking? || k.s.tcb[t].call.NoCall?)
    ensures k.s.tcb[t].state != Blocked
  {
    assert WaitOk(k.s.tcb[t], t, t in k.s.sleeping, k.sems, k.mtxs);
  }

  ghost predicate OnlySleeper(a: seq<nat>, b: seq<nat>, t: nat) {
    forall u: nat | u != t :: u in b <==> u in a
  }

  /** Fields that decide what a task holds and how urgent it is. */
  ghost predicate SameStanding(a: Tcb, b: Tcb) { b.prio == a.prio && b.base == a.base && b.held == a.held }

  /** An active task changed its own record or run state, no semaphore or mutex. */
  lemma OwnChangeKeeps(k: Kernel, r: Kernel, t: nat)
    requires SyncInv(k) && t < |k.s.tcb| && t != IDLE && k.s.tcb[t].state != Blocked
    requires OnlyTask(k.s.tcb, r.s.tcb, t) && r.sems == k.sems && r.mtxs == k.mtxs && OnlySleeper(k.s.sleeping, r.s.sleeping, t)
    requires SameStanding(k.s.tcb[t], r.s.tcb[t]) && !k.s.tcb[t].acquired && !r.s.tcb[t].acquired
    requires WaitOk(r.s.tcb[t], t, t in r.s.sleeping, r.sems, r.mtxs)
    ensures SyncInv(r)
  {
    ActiveWaitsNowhere(k, t);
    OthersStay(k, r, t, -1, -1);
    hide WaitOk, SyncInv, SemStays, MtxStays;
    assert LocalChange(k, r, {t});
    LocalChangeKeeps(k, r, {t});
  }

  /** A change of an active task's own record, lists untouched. */
  lemma NoteActKeeps(k: Kernel, t: nat, b: Tcb)
    requires KernelInv(k) && t < |k.s.tcb| && t != IDLE && k.s.tcb[t].state != Blocked
    requires b.state == k.s.tcb[t].state && b.wakeup == k.s.tcb[t].wakeup && SameStanding(k.s.tcb[t], b)
    requires WaitOk(b, t, false, k.sems, k.mtxs) && !k.s.tcb[t].acquired && !b.acquired
    ensures KernelInv(PutTask(k, t, b))
  {
    ActiveWaitsNowhere(k, t);
    NoteKeeps(k.s, t, b);
    hide SchedInv, WaitOk;
    OwnChangeKeeps(k, PutTask(k, t, b), t);
  }

  lemma BlockUntilKeeps(k: Kernel, w: nat)
    requires KernelInv(k) && Allowed(k, BlockUntil(w))
    ensures KernelInv(DoBlockUntil(k, Me(k), w))
  {
    var t := Me(k);
    ActiveWaitsNowhere(k, t);
    StartWaitSpec(k, t, Delaying, Some(w));
    hide SchedInv, StartWait, Known, SyncInv;
    OwnChangeKeeps(k, DoBlockUntil(k, t, w), t);
  }

  lemma DelayOverKeeps(k: Kernel)
    requires KernelInv(k) && Allowed(k, DelayOver)
    ensures KernelInv(Return(k, Me(k), OK))
  {
    ActiveWaitsNowhere(k, Me(k));
    NoteActKeeps(k, Me(k), Task(k, Me(k)).(call := NoCall, result := OK));
  }

  lemma TakeKeeps(k: Kernel, i: nat, timeout: int)
    requires KernelInv(k) && Allowed(k, Take(i, timeout))
    ensures KernelInv(DoTake(k, Me(k), i, timeout))
  {
    ActiveWaitsNowhere(k, Me(k));
    NoteActKeeps(k, Me(k), DoTake(k, Me(k), i, timeout).s.tcb[Me(k)]);
  }

  // ---------------------------------------------------------------- semaphores

  ghost predicate SameWaiters(a: seq<nat>, b: seq<nat>, t: nat) {
    forall u: nat | u != t :: u in b <==> u in a
  }

  /** Task `t` and semaphore `i` changed together. */
  lemma SemActKeeps(k: Kernel, r: Kernel, t: nat, i: nat)
    requires SyncInv(k) && t < |k.s.tcb| && t != IDLE && i < |k.sems| == |r.sems|
    requires OnlyTask(k.s.tcb, r.s.tcb, t) && r.sems == k.sems[i := r.sems[i]] && r.mtxs == k.mtxs
    requires OnlySleeper(k.s.sleeping, r.s.sleeping, t) && SameWaiters(k.sems[i].waiters, r.sems[i].waiters, t)
    requires SameStanding(k.s.tcb[t], r.s.tcb[t]) && SemOk(r.s.tcb, r.sems[i], i)
    requires forall j | 0 <= j < |k.sems| && j != i :: SemStays(k, r, j)
    requires forall j | 0 <= j < |k.mtxs| :: MtxStays(k, r, j)
    requires WaitOk(r.s.tcb[t], t, t in r.s.sleeping, r.sems, r.mtxs)
    ensures SyncInv(r)
  {
    assert HeldOk(k.s.tcb[t], t, k.mtxs);
    hide WaitOk, SyncInv, SemOk, Tally;
    assert LocalChange(k, r, {t});
    LocalChangeKeeps(k, r, {t});
  }

  lemma TakeTryKeeps(k: Kernel)
    requires KernelInv(k) && Allowed(k, TakeTry) && Task(k, Me(k)).call.sem < |k.sems|
    ensures KernelInv(DoTakeTry(k, Me(k)))
  {
    hide KernelInv, DoTakeTry;
    TaskTriesKeeps(k, Me(k));
  }

  lemma TaskTriesKeeps(k: Kernel, t: nat)
    requires KernelInv(k) && Known(k.s, t) && t != IDLE && Task(k, t).call.Taking? && Task(k, t).call.sem < |k.sems|
    ensures KernelInv(DoTakeTry(k, t))
  {
    hide KernelInv, StartWait, Return;
    if k.sems[Task(k, t).call.sem].count > 0 {
      TakeTokenKeeps(k, t, Task(k, t).call.sem);
    } else {
      hide DoTakeTry;
      NoTokenKeeps(k, t, Task(k, t).call.sem);
    }
  }

  lemma NoTokenKeeps(k: Kernel, t: nat, i: nat)
    requires KernelInv(k) && Known(k.s, t) && t != IDLE && Task(k, t).call.Taking?
    requires i == Task(k, t).call.sem && i < |k.sems| && k.sems[i].count == 0
    ensures KernelInv(DoTakeTry(k, t))
  {
    hide KernelInv, StartWait, Return;
    var c := Task(k, t).call;
    if c.timeout == 0 || (c.timeout > 0 && k.now >= c.deadline) {
      TakeGivesUpKeeps(k, t);
    } else {
      TakeBlocksKeeps(k, t, i);
    }
  }

  lemma TakeGivesUpKeeps(k: Kernel, t: nat)
    requires KernelInv(k) && t < |k.s.tcb| && t != IDLE && Task(k, t).call.Taking?
    ensures KernelInv(Return(k, t, TimedOut))
  {
    hide SyncInv, SchedInv, HeldOk;
    CallingActive(k, t);
    ActiveWaitsNowhere(k, t);
    NoteActKeeps(k, t, Task(k, t).(call := NoCall, result := TimedOut));
  }

  lemma TakeTokenKeeps(k: Kernel, t: nat, i: nat)
    requires KernelInv(k) && Known(k.s, t) && t != IDLE && i < |k.sems| && Task(k, t).call.Taking? && k.sems[i].count > 0
    ensures KernelInv(Return(k, t, OK).(sems := k.sems[i := k.sems[i].(count := k.sems[i].count - 1, takes := k.sems[i].takes + 1)]))
  {
    assert WaitOk(k.s.tcb[t], t, t in k.s.sleeping, k.sems, k.mtxs);
    ActiveWaitsNowhere(k, t);
    var r := Return(k, t, OK).(sems := k.sems[i := k.sems[i].(count := k.sems[i].count - 1, takes := k.sems[i].takes + 1)]);
    NoteKeeps(k.s, t, r.s.tcb[t]);
    assert SemOk(k.s.tcb, k.sems[i], i);
    SemFrame(k.s.tcb, r.s.tcb, k.sems[i], i);
    hide SchedInv, Tally, SyncInv;
    assert SemOk(r.s.tcb, r.sems[i], i);
    hide SemOk;
    OthersStay(k, r, t, i, -1);
    hide SemStays, MtxStays;
    SemActKeeps(k, r, t, i);
  }

  lemma TakeBlocksKeeps(k: Kernel, t: nat, i: nat)
    requires KernelInv(k) && Known(k.s, t) && t != IDLE && i < |k.sems| && Task(k, t).call.Taking? && Task(k, t).call.sem == i
    requires k.sems[i].count == 0 && Task(k, t).call.timeout != 0
    ensures var c := Task(k, t).call;
      KernelInv(StartWait(k, t, AwaitSem(c.sem, c.timeout, c.deadline), if c.timeout > 0 then Some(c.deadline) else None)
                .(sems := k.sems[i := k.sems[i].(waiters := k.sems[i].waiters + [t])]))
  {
    var c := Task(k, t).call;
    var call := AwaitSem(i, c.timeout, c.deadline);
    var w := if c.timeout > 0 then Some(c.deadline) else None;
    var r := StartWait(k, t, call, w).(sems := k.sems[i := k.sems[i].(waiters := k.sems[i].waiters + [t])]);
    hide SchedInv, StartWait, SyncInv, SemOk, HeldOk, Known, WaitOk;
    ActiveWaitsNowhere(k, t);
    StartWaitSpec(k, t, call, w);
    SemWaitKeeps(k, r, t, i);
  }

  lemma SemWaitKeeps(k: Kernel, r: Kernel, t: nat, i: nat)
    requires SyncInv(k) && t < |k.s.tcb| && t != IDLE && k.s.tcb[t].state != Blocked && k.s.tcb[t].call.Taking?
    requires i < |k.sems| && k.sems[i].count == 0 && r.mtxs == k.mtxs
    requires r.sems == k.sems[i := k.sems[i].(waiters := k.sems[i].waiters + [t])]
    requires OnlyTask(k.s.tcb, r.s.tcb, t) && OnlySleeper(k.s.sleeping, r.s.sleeping, t) && SameStanding(k.s.tcb[t], r.s.tcb[t])
    requires var b := r.s.tcb[t];
      && b.state == Blocked && b.wake == Pending && b.acquired == k.s.tcb[t].acquired
      && b.call.AwaitSem? && b.call.sem == i && b.call.timeout != 0
      && (t in r.s.sleeping <==> b.call.timeout > 0)
    ensures SyncInv(r)
  {
    hide SyncInv, SemOk, HeldOk, Known;
    ActiveWaitsNowhere(k, t);
    SemAppend(k, r.s.tcb, t, i);
    OthersStay(k, r, t, i, -1);
    hide SemStays, MtxStays;
    assert t in r.sems[i].waiters by { assert r.sems[i].waiters[|k.sems[i].waiters|] == t; }
    SemActKeeps(k, r, t, i);
  }

  lemma SemAppend(k: Kernel, b: seq<Tcb>, t: nat, i: nat)
    requires SyncInv(k) && i < |k.sems| && OnlyTask(k.s.tcb, b, t) && k.s.tcb[t].state != Blocked && k.sems[i].count == 0
    requires !k.s.tcb[t].acquired && !b[t].acquired && b[t].state == Blocked && b[t].call.AwaitSem? && b[t].call.sem == i
    ensures SemOk(b, k.sems[i].(waiters := k.sems[i].waiters + [t]), i)
  {
    ActiveWaitsNowhere(k, t);
    assert SemOk(k.s.tcb, k.sems[i], i);
    hide SyncInv;
    SemFrame(k.s.tcb, b, k.sems[i], i);
    AppendMembers(k.sems[i].waiters, t);
  }

  lemma TakeWokenKeeps(k: Kernel)
    requires KernelInv(k) && Allowed(k, TakeWoken) && Task(k, Me(k)).call.sem < |k.sems|
    ensures KernelInv(DoTakeWoken(k, Me(k)))
  {
    var t := Me(k);
    var c := Task(k, t).call;
    var i := c.sem;
    ActiveWaitsNowhere(k, t);
    var r := DoTakeWoken(k, t);
    if Task(k, t).acquired {
      NoteKeeps(k.s, t, r.s.tcb[t]);
      assert SemOk(k.s.tcb, k.sems[i], i);
      TallyUpdate(k.s.tcb, t, r.s.tcb[t], InFlight(i));
      hide SchedInv, Tally, SyncInv;
      assert SemOk(r.s.tcb, r.sems[i], i);
      hide SemOk;
      OthersStay(k, r, t, i, -1);
      hide SemStays, MtxStays;
      SemActKeeps(k, r, t, i);
    } else {
      NoteActKeeps(k, t, r.s.tcb[t]);
    }
  }

  lemma FirstWaiter(k: Kernel, i: nat)
    requires SyncInv(k) && i < |k.sems| && k.sems[i].waiters != []
    ensures var t := k.sems[i].waiters[0];
      && t < |k.s.tcb| && t != IDLE && k.s.tcb[t].state == Blocked && !k.s.tcb[t].acquired
      && WaitOk(k.s.tcb[t], t, t in k.s.sleeping, k.sems, k.mtxs)
      && k.s.tcb[t].call.AwaitSem? && k.s.tcb[t].call.sem == i
      && (forall j | 0 <= j < |k.sems| && j != i :: t !in k.sems[j].waiters)
      && (forall j | 0 <= j < |k.mtxs| :: t !in k.mtxs[j].waiters)
  {
    var t := k.sems[i].waiters[0];
    assert SemOk(k.s.tcb, k.sems[i], i) && t in k.sems[i].waiters;
    assert forall j | 0 <= j < |k.sems| :: SemOk(k.s.tcb, k.sems[j], j);
    assert forall j | 0 <= j < |k.mtxs| :: MtxOk(k.s.tcb, k.mtxs[j], j);
  }

  lemma GiveKeeps(k: Kernel, i: nat)
    requires KernelInv(k) && i < |k.sems| && (k.sems[i].waiters != [] ==> Known(k.s, k.sems[i].waiters[0]))
    ensures KernelInv(DoGive(k, i))
  {
    if k.sems[i].waiters == [] {
      var r := DoGive(k, i);
      assert SemOk(k.s.tcb, k.sems[i], i);
      if r != k {
        CountUpKeeps(k, i);
      }
    } else {
      HandoffKeeps(k, i);
    }
  }

  lemma CountUpKeeps(k: Kernel, i: nat)
    requires KernelInv(k) && i < |k.sems| && k.sems[i].waiters == []
    ensures KernelInv(k.(sems := k.sems[i := k.sems[i].(count := k.sems[i].count + 1, gives := k.sems[i].gives + 1)]))
  {
    var r := k.(sems := k.sems[i := k.sems[i].(count := k.sems[i].count + 1, gives := k.sems[i].gives + 1)]);
    hide SchedInv, Tally;
    forall j | 0 <= j < |r.sems| ensures SemOk(r.s.tcb, r.sems[j], j) { assert SemOk(k.s.tcb, k.sems[j], j); }
    hide SemOk, MtxOk, HeldOk;
    forall u | 0 <= u < |r.s.tcb| ensures WaitOk(r.s.tcb[u], u, u in r.s.sleeping, r.sems, r.mtxs) {
      assert WaitOk(k.s.tcb[u], u, u in k.s.sleeping, k.sems, k.mtxs);
    }
  }

  lemma HandoffKeeps(k: Kernel, i: nat)
    requires KernelInv(k) && i < |k.sems| && k.sems[i].waiters != [] && Known(k.s, k.sems[i].waiters[0])
    ensures KernelInv(DoGive(k, i))
  {
    var m := k.sems[i];
    var t := m.waiters[0];
    var r := DoGive(k, i);
    FirstWaiter(k, i);
    var marked := SetTask(k.s, t, k.s.tcb[t].(acquired := true, wake := Handoff));
    NoteKeeps(k.s, t, marked.tcb[t]);
    UnparkSpec(marked, t);
    hide SchedInv, Unpark, SyncInv;
    assert r.s == Unpark(marked, t);
    HandoffSync(k, r, t, i);
  }

  lemma HandoffSync(k: Kernel, r: Kernel, t: nat, i: nat)
    requires SyncInv(k) && i < |k.sems| && k.sems[i].waiters != [] && t == k.sems[i].waiters[0] && t < |k.s.tcb|
    requires r.mtxs == k.mtxs && r.sems == k.sems[i := k.sems[i].(waiters := k.sems[i].waiters[1..], gives := k.sems[i].gives + 1)]
    requires r.s.tcb == k.s.tcb[t := k.s.tcb[t].(acquired := true, wake := Handoff, state := Ready)]
    requires OnlySleeper(k.s.sleeping, r.s.sleeping, t) && t !in r.s.sleeping
    ensures SyncInv(r)
  {
    hide SyncInv, SemOk, HeldOk;
    FirstWaiter(k, i);
    SemPop(k, r.s.tcb, t, i);
    OthersStay(k, r, t, i, -1);
    hide SemStays, MtxStays;
    SemActKeeps(k, r, t, i);
  }

  lemma SemPop(k: Kernel, b: seq<Tcb>, t: nat, i: nat)
    requires SyncInv(k) && i < |k.sems| && OnlyTask(k.s.tcb, b, t) && k.sems[i].waiters != [] && t == k.sems[i].waiters[0]
    requires b[t].acquired && b[t].call == k.s.tcb[t].call
    ensures var m := k.sems[i];
      && SemOk(b, m.(waiters := m.waiters[1..], gives := m.gives + 1), i)
      && SameWaiters(m.waiters, m.waiters[1..], t) && t !in m.waiters[1..]
  {
    FirstWaiter(k, i);
    var m := k.sems[i];
    assert SemOk(k.s.tcb, m, i);
    hide SyncInv;
    TallyUpdate(k.s.tcb, t, b[t], InFlight(i));
    hide Tally;
    PopMembers(m.waiters);
    hide Distinct;
  }

  lemma PopMembers(ws: seq<nat>)
    requires Distinct(ws) && ws != []
    ensures Distinct(ws[1..]) && ws[0] !in ws[1..] && SameWaiters(ws, ws[1..], ws[0])
    ensures forall w | w in ws[1..] :: w in ws
  {
    RemoveAtMembers(ws, 0);
    assert RemoveAt(ws, 0) == ws[1..];
  }

  // ---------------------------------------------------------------- mutexes

  /** Task `t` and mutex `i` changed together. */
  lemma MtxActKeeps(k: Kernel, r: Kernel, t: nat, i: nat)
    requires SyncInv(k) && t < |k.s.tcb| && t != IDLE && i < |k.mtxs| == |r.mtxs|
    requires OnlyTask(k.s.tcb, r.s.tcb, t) && r.sems == k.sems && r.mtxs == k.mtxs[i := r.mtxs[i]]
    requires OnlySleeper(k.s.sleeping, r.s.sleeping, t) && SameWaiters(k.mtxs[i].waiters, r.mtxs[i].waiters, t)
    requires forall u: nat | u != t :: k.mtxs[i].owner == Some(u) <==> r.mtxs[i].owner == Some(u)
    requires MtxOk(r.s.tcb, r.mtxs[i], i) && r.mtxs[i].inherit == k.mtxs[i].inherit
    requires forall j | 0 <= j < |k.sems| :: SemStays(k, r, j)
    requires forall j | 0 <= j < |k.mtxs| && j != i :: MtxStays(k, r, j)
    requires WaitOk(r.s.tcb[t], t, t in r.s.sleeping, r.sems, r.mtxs) && HeldOk(r.s.tcb[t], t, r.mtxs)
    ensures SyncInv(r)
  {
    hide WaitOk, SyncInv, MtxOk, SemOk, HeldOk;
    forall u | 0 <= u < |k.s.tcb| && u != t ensures Tally(r.mtxs, HeldBy(u)) == Tally(k.mtxs, HeldBy(u)) {
      TallyUpdate(k.mtxs, i, r.mtxs[i], HeldBy(u));
    }
    hide Tally;
    assert LocalChange(k, r, {t});
    LocalChangeKeeps(k, r, {t});
  }

  /** A free mutex goes to the task that asks for it. */
  lemma AcquireKeeps(k: Kernel, r: Kernel, t: nat, i: nat)
    requires SyncInv(k) && t < |k.s.tcb| && t != IDLE && k.s.tcb[t].call.NoCall? && i < |k.mtxs| && !k.mtxs[i].locked
    requires r.sems == k.sems && r.mtxs == k.mtxs[i := k.mtxs[i].(locked := true, owner := Some(t))]
    requires OnlyTask(k.s.tcb, r.s.tcb, t) && r.s.sleeping == k.s.sleeping
    requires r.s.tcb[t] == k.s.tcb[t].(held := k.s.tcb[t].held + (if k.mtxs[i].inherit then 1 else 0), call := NoCall, result := OK)
    ensures SyncInv(r)
  {
    ActiveWaitsNowhere(k, t);
    assert MtxOk(k.s.tcb, k.mtxs[i], i);
    MtxFrame(k.s.tcb, r.s.tcb, k.mtxs[i], i);
    TallyUpdate(k.mtxs, i, r.mtxs[i], HeldBy(t));
    hide SyncInv, Tally;
    assert MtxOk(r.s.tcb, r.mtxs[i], i);
    hide MtxOk;
    OthersStay(k, r, t, -1, i);
    hide SemStays, MtxStays;
    MtxActKeeps(k, r, t, i);
  }

  /** Raising the owner to what a new waiter will demand. */
  lemma RaiseKeeps(k: Kernel, r: Kernel, o: nat, i: nat, p: nat)
    requires SyncInv(k) && o < |k.s.tcb| && i < |k.mtxs| && k.mtxs[i].inherit && k.mtxs[i].owner == Some(o)
    requires k.mtxs[i].inherited <= p < NUM_PRIORITIES
    requires r.sems == k.sems && r.mtxs == k.mtxs[i := k.mtxs[i].(inherited := p)] && r.s.sleeping == k.s.sleeping
    requires r.s.tcb == k.s.tcb[o := k.s.tcb[o].(prio := Max(k.s.tcb[o].prio, p))]
    ensures SyncInv(r)
  {
    hide SyncInv;
    RaiseStays(k, r, o, i, p);
    RaiseHolds(k, o, i, p);
    OwnerFits(k, i);
    hide MtxOk, SemStays, MtxStays, WaitOk, HeldOk;
    MtxActKeeps(k, r, o, i);
  }

  lemma RaiseStays(k: Kernel, r: Kernel, o: nat, i: nat, p: nat)
    requires SyncInv(k) && o < |k.s.tcb| && i < |k.mtxs| && k.mtxs[i].inherit && k.mtxs[i].owner == Some(o)
    requires k.mtxs[i].inherited <= p < NUM_PRIORITIES
    requires r.sems == k.sems && r.mtxs == k.mtxs[i := k.mtxs[i].(inherited := p)] && r.s.sleeping == k.s.sleeping
    requires r.s.tcb == k.s.tcb[o := k.s.tcb[o].(prio := Max(k.s.tcb[o].prio, p))]
    ensures forall j | 0 <= j < |k.sems| :: SemStays(k, r, j)
    ensures forall j | 0 <= j < |k.mtxs| && j != i :: MtxStays(k, r, j)
    ensures MtxOk(r.s.tcb, r.mtxs[i], i)
    ensures WaitOk(r.s.tcb[o], o, o in r.s.sleeping, r.sems, r.mtxs)
  {
    assert MtxOk(k.s.tcb, k.mtxs[i], i);
    forall j | 0 <= j < |k.sems| ensures SemStays(k, r, j) { assert SemOk(k.s.tcb, k.sems[j], j); }
    forall j | 0 <= j < |k.mtxs| && j != i ensures MtxStays(k, r, j) { assert MtxOk(k.s.tcb, k.mtxs[j], j); }
    assert WaitOk(k.s.tcb[o], o, o in k.s.sleeping, k.sems, k.mtxs);
  }

  lemma RaiseHolds(k: Kernel, o: nat, i: nat, p: nat)
    requires SyncInv(k) && o < |k.s.tcb| && i < |k.mtxs| && k.mtxs[i].inherit && k.mtxs[i].owner == Some(o) && p < NUM_PRIORITIES
    ensures HeldOk(k.s.tcb[o].(prio := Max(k.s.tcb[o].prio, p)), o, k.mtxs[i := k.mtxs[i].(inherited := p)])
  {
    assert HeldOk(k.s.tcb[o], o, k.mtxs);
    TallyPositive(k.mtxs, i, HeldBy(o));
    TallyUpdate(k.mtxs, i, k.mtxs[i].(inherited := p), HeldBy(o));
  }

  /** A task joins the end of a mutex's wait list. */
  lemma QueueUpKeeps(k: Kernel, r: Kernel, t: nat, i: nat)
    requires SyncInv(k) && t < |k.s.tcb| && t != IDLE && k.s.tcb[t].call.NoCall?
    requires i < |k.mtxs| && k.mtxs[i].locked && k.mtxs[i].owner != Some(t)
    requires k.mtxs[i].inherit ==> k.mtxs[i].inherited >= k.s.tcb[t].prio
    requires r.sems == k.sems && r.mtxs == k.mtxs[i := k.mtxs[i].(waiters := k.mtxs[i].waiters + [t])]
    requires OnlyTask(k.s.tcb, r.s.tcb, t) && OnlySleeper(k.s.sleeping, r.s.sleeping, t) && SameStanding(k.s.tcb[t], r.s.tcb[t])
    requires var b := r.s.tcb[t];
      && b.state == Blocked && b.wake == Pending && !b.acquired && b.enqueued == b.prio
      && b.call.AwaitMutex? && b.call.mtx == i && b.call.timeout != 0
      && (t in r.s.sleeping <==> b.call.timeout > 0)
    ensures SyncInv(r)
  {
    ActiveWaitsNowhere(k, t);
    hide SyncInv;
    MtxAppend(k, r.s.tcb, t, i);
    assert t in r.mtxs[i].waiters by { assert r.mtxs[i].waiters[|k.mtxs[i].waiters|] == t; }
    OthersStay(k, r, t, -1, i);
    TallyUpdate(k.mtxs, i, r.mtxs[i], HeldBy(t));
    hide MtxOk, SemStays, MtxStays, Tally;
    MtxActKeeps(k, r, t, i);
  }

  lemma MtxAppend(k: Kernel, b: seq<Tcb>, t: nat, i: nat)
    requires SyncInv(k) && i < |k.mtxs| && OnlyTask(k.s.tcb, b, t) && k.s.tcb[t].state != Blocked
    requires k.mtxs[i].locked && k.mtxs[i].owner != Some(t)
    requires k.mtxs[i].inherit ==> k.mtxs[i].inherited >= b[t].enqueued
    requires b[t].state == Blocked && b[t].call.AwaitMutex? && b[t].call.mtx == i
    ensures MtxOk(b, k.mtxs[i].(waiters := k.mtxs[i].waiters + [t]), i)
  {
    ActiveWaitsNowhere(k, t);
    assert MtxOk(k.s.tcb, k.mtxs[i], i);
    AppendMembers(k.mtxs[i].waiters, t);
  }

  lemma LockBlocksKeeps(k: Kernel, r: Kernel, t: nat, i: nat, timeout: int)
    requires SyncInv(k) && t < |k.s.tcb| && t != IDLE && k.s.tcb[t].call.NoCall? && timeout != 0
    requires i < |k.mtxs| && k.mtxs[i].locked && k.mtxs[i].owner.Some? && k.mtxs[i].owner.value != t && k.mtxs[i].owner.value < |k.s.tcb|
    requires var m := k.mtxs[i]; var o := m.owner.value; var b := k.s.tcb[t];
      var p := if m.inherit then Max(m.inherited, b.prio) else m.inherited;
      && p < NUM_PRIORITIES
      && r.sems == k.sems && r.mtxs == k.mtxs[i := m.(waiters := m.waiters + [t], inherited := p)]
      && OnlySleeper(k.s.sleeping, r.s.sleeping, t) && (t in r.s.sleeping <==> timeout > 0)
      && |r.s.tcb| == |k.s.tcb| && r.s.tcb[t] == b.(call := AwaitMutex(i, timeout), enqueued := b.prio, wake := Pending, state := Blocked, wakeup := r.s.tcb[t].wakeup)
      && r.s.tcb == k.s.tcb[t := r.s.tcb[t]][o := if m.inherit then k.s.tcb[o].(prio := Max(k.s.tcb[o].prio, p)) else k.s.tcb[o]]
    ensures SyncInv(r)
  {
    var m := k.mtxs[i];
    var o := m.owner.value;
    assert WaitOk(k.s.tcb[t], t, t in k.s.sleeping, k.sems, k.mtxs);
    hide SyncInv, WaitOk;
    var raised := k;
    if m.inherit {
      var p := Max(m.inherited, k.s.tcb[t].prio);
      raised := k.(s := k.s.(tcb := k.s.tcb[o := k.s.tcb[o].(prio := Max(k.s.tcb[o].prio, p))]), mtxs := k.mtxs[i := m.(inherited := p)]);
      RaiseKeeps(k, raised, o, i, p);
    }
    QueueUpKeeps(raised, r, t, i);
  }

  /** The holder's record after it let go of a mutex. */
  function Released(b: Tcb, inherit: bool): Tcb {
    if !inherit || b.held == 0 then b
    else b.(held := b.held - 1, prio := if b.held == 1 then b.base else b.prio)
  }

  /** Demotion happens only when no inheriting mutex is left, so no other claim is cut short. */
  lemma ReleasedHolds(k: Kernel, o: nat, i: nat, m: Mutex)
    requires SyncInv(k) && o < |k.s.tcb| && i < |k.mtxs| && k.mtxs[i].owner == Some(o) && m.owner != Some(o)
    ensures HeldOk(Released(k.s.tcb[o], k.mtxs[i].inherit), o, k.mtxs[i := m])
    ensures k.mtxs[i].inherit ==> k.s.tcb[o].held > 0
    ensures forall j | 0 <= j < |k.mtxs| && j != i && k.mtxs[j].inherit && k.mtxs[j].owner == Some(o) ::
      Released(k.s.tcb[o], k.mtxs[i].inherit).prio == k.s.tcb[o].prio
  {
    assert HeldOk(k.s.tcb[o], o, k.mtxs);
    TallyUpdate(k.mtxs, i, m, HeldBy(o));
    if k.mtxs[i].inherit { TallyPositive(k.mtxs, i, HeldBy(o)); }
    forall j | 0 <= j < |k.mtxs| && j != i && k.mtxs[j].inherit && k.mtxs[j].owner == Some(o)
      ensures Released(k.s.tcb[o], k.mtxs[i].inherit).prio == k.s.tcb[o].prio
    {
      assert k.mtxs[i := m][j] == k.mtxs[j];
      TallyPositive(k.mtxs[i := m], j, HeldBy(o));
    }
  }

  /** Unlocking a mutex nobody waits for. */
  lemma FreeKeeps(k: Kernel, r: Kernel, o: nat, i: nat)
    requires SyncInv(k) && o < |k.s.tcb| && k.s.tcb[o].call.NoCall? && i < |k.mtxs| && k.mtxs[i].owner == Some(o) && k.mtxs[i].waiters == []
    requires r.sems == k.sems && r.mtxs == k.mtxs[i := k.mtxs[i].(locked := false, owner := None, inherited := 0)]
    requires r.s.tcb == k.s.tcb[o := Released(k.s.tcb[o], k.mtxs[i].inherit)] && r.s.sleeping == k.s.sleeping
    ensures SyncInv(r)
  {
    assert MtxOk(k.s.tcb, k.mtxs[i], i);
    ReleasedHolds(k, o, i, r.mtxs[i]);
    ActiveWaitsNowhere(k, o);
    forall j | 0 <= j < |k.sems| ensures SemStays(k, r, j) { assert SemOk(k.s.tcb, k.sems[j], j); }
    forall j | 0 <= j < |k.mtxs| && j != i ensures MtxStays(k, r, j) { assert MtxOk(k.s.tcb, k.mtxs[j], j); }
    hide SyncInv, Tally, SemStays, MtxStays, HeldOk;
    MtxActKeeps(k, r, o, i);
  }

  /** The next owner's record after the mutex was passed to it. */
  function Promoted(b: Tcb, inherit: bool, inherited: nat): Tcb {
    b.(wake := Handoff, held := if inherit then b.held + 1 else b.held, state := Ready,
       prio := if inherit then Max(b.prio, inherited) else b.prio)
  }

  /** `best` is where the handoff scan stops, `second` what it reports about the others. */
  ghost predicate Scanned(tcb: seq<Tcb>, ws: seq<nat>, best: nat, second: nat) {
    && best < |ws|
    && (forall i | 0 <= i < |ws| && i != best :: PrioOf(tcb, ws[i]) <= second)
    && (second == 0 || exists i :: 0 <= i < |ws| && i != best && PrioOf(tcb, ws[i]) == second)
  }

  lemma MtxWaiters(k: Kernel, i: nat, n: nat)
    requires SyncInv(k) && i < |k.mtxs| && n in k.mtxs[i].waiters
    ensures n < |k.s.tcb| && n != IDLE && k.s.tcb[n].state == Blocked && !k.s.tcb[n].acquired
    ensures k.s.tcb[n].call.AwaitMutex? && k.s.tcb[n].call.mtx == i && k.mtxs[i].owner != Some(n)
    ensures k.s.tcb[n].enqueued <= k.s.tcb[n].prio < NUM_PRIORITIES
    ensures WaitOk(k.s.tcb[n], n, n in k.s.sleeping, k.sems, k.mtxs)
    ensures forall j | 0 <= j < |k.sems| :: n !in k.sems[j].waiters
    ensures forall j | 0 <= j < |k.mtxs| && j != i :: n !in k.mtxs[j].waiters
  {
    assert MtxOk(k.s.tcb, k.mtxs[i], i);
    assert forall j | 0 <= j < |k.sems| :: SemOk(k.s.tcb, k.sems[j], j);
    assert forall j | 0 <= j < |k.mtxs| :: MtxOk(k.s.tcb, k.mtxs[j], j);
    assert HeldOk(k.s.tcb[n], n, k.mtxs);
  }

  /** The mutex after the handoff, before and after anyone else's record is looked at. */
  lemma PassedMtxOk(k: Kernel, b: seq<Tcb>, i: nat, best: nat, second: nat)
    requires SyncInv(k) && i < |k.mtxs| && Scanned(k.s.tcb, k.mtxs[i].waiters, best, second)
    requires var m := k.mtxs[i]; var n := m.waiters[best];
      && |b| == |k.s.tcb| && n < |b| && b[n] == Promoted(k.s.tcb[n], m.inherit, second)
      && (forall w | w in m.waiters && w != n :: w < |b| && b[w] == k.s.tcb[w])
    ensures var m := k.mtxs[i]; var n := m.waiters[best];
      && MtxOk(b, m.(owner := Some(n), waiters := RemoveAt(m.waiters, best), inherited := second), i)
      && SameWaiters(m.waiters, RemoveAt(m.waiters, best), n)
      && n !in RemoveAt(m.waiters, best)
  {
    var m := k.mtxs[i];
    var n := m.waiters[best];
    assert n in m.waiters && MtxOk(k.s.tcb, m, i);
    hide SyncInv;
    RemoveAtMembers(m.waiters, best);
    MtxWaiters(k, i, n);
    SecondBounds(k, i, best, second);
    hide RemoveAt, Scanned;
  }

  /** What the scan reports covers every waiter left behind. */
  lemma SecondBounds(k: Kernel, i: nat, best: nat, second: nat)
    requires SyncInv(k) && i < |k.mtxs| && Scanned(k.s.tcb, k.mtxs[i].waiters, best, second)
    ensures second < NUM_PRIORITIES
    ensures var ws := k.mtxs[i].waiters; forall w | w in ws && w != ws[best] :: w < |k.s.tcb| && k.s.tcb[w].enqueued <= second
  {
    var ws := k.mtxs[i].waiters;
    hide SyncInv;
    if second != 0 {
      var j :| 0 <= j < |ws| && j != best && PrioOf(k.s.tcb, ws[j]) == second;
      assert ws[j] in ws;
      MtxWaiters(k, i, ws[j]);
    }
    forall w | w in ws && w != ws[best] ensures w < |k.s.tcb| && k.s.tcb[w].enqueued <= second {
      MtxWaiters(k, i, w);
      var j :| 0 <= j < |ws| && ws[j] == w;
      assert PrioOf(k.s.tcb, ws[j]) <= second;
    }
  }

  lemma PromotedHolds(k: Kernel, n: nat, i: nat, m: Mutex, second: nat)
    requires SyncInv(k) && n < |k.s.tcb| && i < |k.mtxs| && k.mtxs[i].owner != Some(n) && m.owner == Some(n) && m.inherit == k.mtxs[i].inherit
    requires second < NUM_PRIORITIES
    ensures HeldOk(Promoted(k.s.tcb[n], m.inherit, second), n, k.mtxs[i := m])
  {
    assert HeldOk(k.s.tcb[n], n, k.mtxs);
    TallyUpdate(k.mtxs, i, m, HeldBy(n));
  }

  /** Unlocking a mutex with waiters. */
  lemma PassKeeps(k: Kernel, r: Kernel, o: nat, i: nat, best: nat, second: nat)
    requires SyncInv(k) && o < |k.s.tcb| && k.s.tcb[o].call.NoCall? && i < |k.mtxs| && k.mtxs[i].owner == Some(o)
    requires Scanned(k.s.tcb, k.mtxs[i].waiters, best, second)
    requires var m := k.mtxs[i]; var n := m.waiters[best];
      && n < |k.s.tcb| && r.sems == k.sems
      && r.mtxs == k.mtxs[i := m.(owner := Some(n), waiters := RemoveAt(m.waiters, best), inherited := second)]
      && r.s.tcb == k.s.tcb[o := Released(k.s.tcb[o], m.inherit)][n := Promoted(k.s.tcb[n], m.inherit, second)]
      && OnlySleeper(k.s.sleeping, r.s.sleeping, n) && n !in r.s.sleeping
    ensures SyncInv(r)
  {
    var m := k.mtxs[i];
    var n := m.waiters[best];
    assert n in m.waiters;
    hide SyncInv, Tally, SemStays, MtxStays, HeldOk, MtxOk, Scanned, RemoveAt;
    MtxWaiters(k, i, n);
    ActiveWaitsNowhere(k, o);
    SecondBounds(k, i, best, second);
    PassedMtxOk(k, r.s.tcb, i, best, second);
    ReleasedHolds(k, o, i, r.mtxs[i]);
    PromotedHolds(k, n, i, r.mtxs[i], second);
    PassStays(k, r, o, n, i);
    OwnerFits(k, i);
    PassOthers(k, r, o, n, i);
    assert WaitOk(r.s.tcb[o], o, o in r.s.sleeping, r.sems, r.mtxs);
    assert WaitOk(r.s.tcb[n], n, n in r.s.sleeping, r.sems, r.mtxs);
    hide WaitOk, SameView;
    LocalChangeKeeps(k, r, {o, n});
  }

  lemma PassOthers(k: Kernel, r: Kernel, o: nat, n: nat, i: nat)
    requires |r.s.tcb| == |k.s.tcb| && i < |k.mtxs| && r.sems == k.sems && |r.mtxs| == |k.mtxs| && r.mtxs == k.mtxs[i := r.mtxs[i]]
    requires k.mtxs[i].owner == Some(o) && r.mtxs[i].owner == Some(n) && r.mtxs[i].inherit == k.mtxs[i].inherit
    requires SameWaiters(k.mtxs[i].waiters, r.mtxs[i].waiters, n) && OnlySleeper(k.s.sleeping, r.s.sleeping, n)
    ensures forall u | 0 <= u < |k.s.tcb| && u !in {o, n} :: SameView(u, k, r)
    ensures forall u | 0 <= u < |k.s.tcb| && u !in {o, n} :: Tally(r.mtxs, HeldBy(u)) == Tally(k.mtxs, HeldBy(u))
  {
    forall u | 0 <= u < |k.s.tcb| && u !in {o, n} ensures Tally(r.mtxs, HeldBy(u)) == Tally(k.mtxs, HeldBy(u)) {
      TallyUpdate(k.mtxs, i, r.mtxs[i], HeldBy(u));
    }
    hide Tally;
  }

  lemma OwnerFits(k: Kernel, i: nat)
    requires SyncInv(k) && i < |k.mtxs| && k.mtxs[i].owner.Some?
    ensures k.mtxs[i].locked && k.mtxs[i].owner.value != IDLE && k.mtxs[i].owner.value < |k.s.tcb|
  {
    assert MtxOk(k.s.tcb, k.mtxs[i], i);
  }

  /** Neither the holder nor the next owner is anyone else's concern. */
  lemma PassStays(k: Kernel, r: Kernel, o: nat, n: nat, i: nat)
    requires SyncInv(k) && o < |k.s.tcb| && n < |k.s.tcb| && o != n && i < |k.mtxs| && |r.sems| == |k.sems| && |r.mtxs| == |k.mtxs|
    requires r.sems == k.sems && forall j | 0 <= j < |k.mtxs| && j != i :: r.mtxs[j] == k.mtxs[j]
    requires |r.s.tcb| == |k.s.tcb| && r.s.tcb == k.s.tcb[o := r.s.tcb[o]][n := r.s.tcb[n]]
    requires !k.s.tcb[o].acquired && !k.s.tcb[n].acquired && !r.s.tcb[o].acquired && !r.s.tcb[n].acquired
    requires forall j | 0 <= j < |k.sems| :: o !in k.sems[j].waiters && n !in k.sems[j].waiters
    requires forall j | 0 <= j < |k.mtxs| && j != i :: o !in k.mtxs[j].waiters && n !in k.mtxs[j].waiters
    requires r.s.tcb[n].prio >= k.s.tcb[n].prio
    requires forall j | 0 <= j < |k.mtxs| && j != i && k.mtxs[j].inherit && k.mtxs[j].owner == Some(o) :: r.s.tcb[o].prio >= k.s.tcb[o].prio
    ensures forall j | 0 <= j < |k.sems| :: SemStays(k, r, j)
    ensures forall j | 0 <= j < |k.mtxs| && j != i :: MtxStays(k, r, j)
  {
    forall j | 0 <= j < |k.sems| ensures SemStays(k, r, j) { assert SemOk(k.s.tcb, k.sems[j], j); }
    forall j | 0 <= j < |k.mtxs| && j != i ensures MtxStays(k, r, j) { assert MtxOk(k.s.tcb, k.mtxs[j], j); }
  }

  // ---------------------------------------------------------------- mutex calls

  lemma LockKeeps(k: Kernel, i: nat, timeout: int)
    requires KernelInv(k) && Allowed(k, Lock(i, timeout))
    ensures KernelInv(Step(k, Lock(i, timeout)))
  {
    var t := Me(k);
    hide SyncInv, SchedInv;
    LockFits(k, i);
    ActFits(k, t);
    ActiveWaitsNowhere(k, t);
    hide KernelInv;
    if !k.mtxs[i].locked {
      LockFreeKeeps(k, i, timeout);
    } else if timeout == 0 {
      NoteActKeeps(k, t, Task(k, t).(call := NoCall, result := TimedOut));
    } else {
      OwnerThere(k, i);
      LockQueuesKeeps(k, t, i, timeout);
    }
  }

  lemma LockFreeKeeps(k: Kernel, i: nat, timeout: int)
    requires KernelInv(k) && Allowed(k, Lock(i, timeout)) && !k.mtxs[i].locked
    ensures KernelInv(Step(k, Lock(i, timeout)))
  {
    var t := Me(k);
    var r := Step(k, Lock(i, timeout));
    NoteKeeps(k.s, t, r.s.tcb[t]);
    hide SchedInv, SyncInv;
    assert r.s == SetTask(k.s, t, r.s.tcb[t]);
    AcquireKeeps(k, r, t, i);
  }

  lemma LockSched(k: Kernel, t: nat, i: nat, timeout: int, waiting: Sched, p: nat) returns (r: Kernel)
    requires Known(k.s, t) && timeout != 0 && i < |k.mtxs| && k.mtxs[i].inherited < NUM_PRIORITIES && k.mtxs[i].locked
    requires k.mtxs[i].owner.Some? && Known(k.s, k.mtxs[i].owner.value) && Sized(waiting) && p < NUM_PRIORITIES
    requires waiting == StartWait(k, t, AwaitMutex(i, timeout), if timeout > 0 then Some(k.now + timeout) else None).s
    requires p == if k.mtxs[i].inherit then Max(k.mtxs[i].inherited, Task(k, t).prio) else k.mtxs[i].inherited
    ensures r == DoLock(k, t, i, timeout)
    ensures r.s == if k.mtxs[i].inherit then Boost(waiting, k.mtxs[i].owner.value, p) else waiting
    ensures r.sems == StartWait(k, t, AwaitMutex(i, timeout), if timeout > 0 then Some(k.now + timeout) else None).sems
    ensures r.mtxs == k.mtxs[i := k.mtxs[i].(waiters := k.mtxs[i].waiters + [t], inherited := p)]
  {
    hide StartWait, Boost;
    r := DoLock(k, t, i, timeout);
  }

  lemma LockQueuesKeeps(k: Kernel, t: nat, i: nat, timeout: int)
    requires KernelInv(k) && Known(k.s, t) && t != IDLE && Task(k, t).call.NoCall? && timeout != 0
    requires i < |k.mtxs| && k.mtxs[i].inherited < NUM_PRIORITIES && k.mtxs[i].locked && k.mtxs[i].owner.Some?
    requires k.mtxs[i].owner.value != t && Known(k.s, k.mtxs[i].owner.value)
    ensures KernelInv(DoLock(k, t, i, timeout))
  {
    hide SyncInv, SchedInv, DoLock, StartWait;
    CallingActive(k, t);
    var m := k.mtxs[i];
    var call := AwaitMutex(i, timeout);
    var w := if timeout > 0 then Some(k.now + timeout) else None;
    var waiting := StartWait(k, t, call, w);
    StartWaitSpec(k, t, call, w);
    var p := if m.inherit then Max(m.inherited, Task(k, t).prio) else m.inherited;
    LockWaits(k, waiting, t, i, timeout, p);
  }

  /** The boost after the caller was parked as `waiting` says. */
  lemma LockWaits(k: Kernel, waiting: Kernel, t: nat, i: nat, timeout: int, p: nat)
    requires KernelInv(k) && Known(k.s, t) && t != IDLE && Task(k, t).call.NoCall? && timeout != 0
    requires i < |k.mtxs| && k.mtxs[i].inherited < NUM_PRIORITIES && k.mtxs[i].locked && k.mtxs[i].owner.Some?
    requires k.mtxs[i].owner.value != t && Known(k.s, k.mtxs[i].owner.value)
    requires p == if k.mtxs[i].inherit then Max(k.mtxs[i].inherited, Task(k, t).prio) else k.mtxs[i].inherited
    requires waiting == StartWait(k, t, AwaitMutex(i, timeout), if timeout > 0 then Some(k.now + timeout) else None)
    requires SchedInv(waiting.s) && waiting == k.(s := waiting.s) && OnlyTask(k.s.tcb, waiting.s.tcb, t)
    requires waiting.s.tcb[t] == k.s.tcb[t].(call := AwaitMutex(i, timeout), enqueued := k.s.tcb[t].prio, wake := Pending, state := Blocked,
                                              wakeup := waiting.s.tcb[t].wakeup)
    requires forall u :: u in waiting.s.sleeping <==> u in k.s.sleeping || (u == t && timeout > 0)
    ensures KernelInv(DoLock(k, t, i, timeout))
  {
    hide SyncInv, SchedInv, StartWait, Boost;
    SizedInv(waiting.s);
    var r := LockSched(k, t, i, timeout, waiting.s, p);
    hide DoLock;
    BoostSpec(waiting.s, k.mtxs[i].owner.value, p);
    ActiveAsleep(k, t);
    LockQueued(k, r, waiting.s, t, i, timeout, p);
  }

  lemma ActiveAsleep(k: Kernel, t: nat)
    requires KernelInv(k) && t < |k.s.tcb| && k.s.tcb[t].call.NoCall?
    ensures t !in k.s.sleeping
  {
    assert WaitOk(k.s.tcb[t], t, t in k.s.sleeping, k.sems, k.mtxs);
  }

  lemma LockQueued(k: Kernel, r: Kernel, waiting: Sched, t: nat, i: nat, timeout: int, p: nat)
    requires SyncInv(k) && t < |k.s.tcb| && t != IDLE && k.s.tcb[t].call.NoCall? && timeout != 0
    requires i < |k.mtxs| && k.mtxs[i].locked && k.mtxs[i].owner.Some?
    requires k.mtxs[i].owner.value != t && k.mtxs[i].owner.value < |k.s.tcb|
    requires p == (if k.mtxs[i].inherit then Max(k.mtxs[i].inherited, Task(k, t).prio) else k.mtxs[i].inherited) && p < NUM_PRIORITIES
    requires OnlyTask(k.s.tcb, waiting.tcb, t) && OnlySleeper(k.s.sleeping, waiting.sleeping, t) && (t in waiting.sleeping <==> timeout > 0)
    requires waiting.tcb[t] == k.s.tcb[t].(call := AwaitMutex(i, timeout), enqueued := k.s.tcb[t].prio, wake := Pending, state := Blocked,
                                            wakeup := waiting.tcb[t].wakeup)
    requires r.sems == k.sems && r.s.sleeping == waiting.sleeping
    requires r.mtxs == k.mtxs[i := k.mtxs[i].(waiters := k.mtxs[i].waiters + [t], inherited := p)]
    requires var o := k.mtxs[i].owner.value;
      r.s.tcb == if k.mtxs[i].inherit then waiting.tcb[o := waiting.tcb[o].(prio := Max(waiting.tcb[o].prio, p))] else waiting.tcb
    ensures SyncInv(r)
  {
    hide SyncInv;
    LockBlocksKeeps(k, r, t, i, timeout);
  }

  lemma OwnerThere(k: Kernel, i: nat)
    requires SyncInv(k) && i < |k.mtxs|
    ensures k.mtxs[i].locked <==> k.mtxs[i].owner.Some?
    ensures k.mtxs[i].owner.Some? ==> k.mtxs[i].owner.value < |k.s.tcb|
  {
    assert MtxOk(k.s.tcb, k.mtxs[i], i);
  }

  lemma LockWokenKeeps(k: Kernel)
    requires KernelInv(k) && Allowed(k, LockWoken)
    ensures KernelInv(Step(k, LockWoken))
  {
    var t := Me(k);
    hide SyncInv, SchedInv;
    ActFits(k, t);
    ActiveWaitsNowhere(k, t);
    hide KernelInv;
    NoteActKeeps(k, t, Step(k, LockWoken).s.tcb[t]);
  }

  lemma ReleaseSpec(s: Sched, t: nat, b: Tcb)
    requires SchedInv(s) && Known(s, t) && s.tcb[t].base < NUM_PRIORITIES && s.tcb[t].held > 0
    requires s.tcb[t].held > 1 || b == Released(s.tcb[t], true)
    requires s.tcb[t].held == 1 || b == Released(s.tcb[t], true)
    ensures var r := Release(s, t);
      SchedInv(r) && r.current == s.current && r.sleeping == s.sleeping && r.tcb == s.tcb[t := b]
  {
    var less := SetTask(s, t, s.tcb[t].(held := s.tcb[t].held - 1));
    NoteKeeps(s, t, less.tcb[t]);
    hide SchedInv;
    if s.tcb[t].held == 1 && s.tcb[t].prio != s.tcb[t].base { ChangePriorityKeeps(less, t, s.tcb[t].base); }
  }

  lemma PromoteSpec(s: Sched, t: nat, inherit: bool, inherited: nat)
    requires SchedInv(s) && Known(s, t) && inherited < NUM_PRIORITIES && s.tcb[t].state == Blocked
    ensures var r := Promote(s, t, inherit, inherited);
      && SchedInv(r) && r.current == s.current && r.tcb == s.tcb[t := Promoted(s.tcb[t], inherit, inherited)]
      && forall u :: u in r.sleeping <==> u in s.sleeping && u != t
  {
    var noted := SetTask(s, t, s.tcb[t].(wake := Handoff, held := if inherit then s.tcb[t].held + 1 else s.tcb[t].held));
    NoteKeeps(s, t, noted.tcb[t]);
    hide SchedInv, Unpark, ChangePriority;
    var boosted := noted;
    if inherit && inherited > s.tcb[t].prio {
      ChangePriorityKeeps(noted, t, inherited);
      boosted := ChangePriority(noted, t, inherited);
    }
    assert boosted.tcb == s.tcb[t := Promoted(s.tcb[t], inherit, inherited).(state := Blocked)];
    assert Sized(boosted) by { SizedInv(boosted); }
    UnparkSpec(boosted, t);
  }

  lemma PriosSmall(s: Sched)
    requires SchedInv(s)
    ensures forall t | 0 <= t < |s.tcb| :: s.tcb[t].prio < NUM_PRIORITIES
  {
    forall t | 0 <= t < |s.tcb| ensures s.tcb[t].prio < NUM_PRIORITIES { assert Listed(s, t); }
  }

  lemma SizedInv(s: Sched)
    requires SchedInv(s)
    ensures Sized(s)
  {
  }

  lemma UnlockNothing(k: Kernel, i: nat)
    requires i < |k.mtxs| && !k.mtxs[i].locked
    requires k.mtxs[i].owner.Some? ==> var o := k.mtxs[i].owner.value; Known(k.s, o) && Task(k, o).base < NUM_PRIORITIES
    requires forall t | t in k.mtxs[i].waiters :: Known(k.s, t)
    ensures DoUnlock(k, i) == k
  {
  }

  lemma UnlockKeeps(k: Kernel, i: nat)
    requires KernelInv(k) && Allowed(k, Unlock(i))
    ensures KernelInv(Step(k, Unlock(i)))
  {
    hide SyncInv, SchedInv;
    LockFits(k, i);
    OwnerThere(k, i);
    if k.mtxs[i].locked {
      var o := Me(k);
      var m := k.mtxs[i];
      ReleasedHolds(k, o, i, m.(owner := None));
      if m.inherit { ReleaseSpec(k.s, o, Released(k.s.tcb[o], true)); }
      var free := if m.inherit then Release(k.s, o) else k.s;
      assert free.tcb == k.s.tcb[o := Released(k.s.tcb[o], m.inherit)];
      hide Release;
      if m.waiters == [] {
        FreeKeeps(k, Step(k, Unlock(i)), o, i);
      } else {
        SizedInv(free);
        PriosSmall(free);
        ActFits(k, o);
        UnlockPasses(k, o, i, free);
      }
    }
  }

  /** Where the scan stops and what it reports, as DoUnlock uses them. */
  lemma UnlockShape(k: Kernel, o: nat, i: nat, free: Sched) returns (best: nat, second: nat)
    requires KernelInv(k) && Known(k.s, o) && Task(k, o).base < NUM_PRIORITIES
    requires i < |k.mtxs| && k.mtxs[i].locked && k.mtxs[i].owner == Some(o) && k.mtxs[i].waiters != []
    requires forall t | t in k.mtxs[i].waiters :: Known(k.s, t)
    requires Sized(free) && |free.tcb| == |k.s.tcb| && forall t | 0 <= t < |free.tcb| :: free.tcb[t].prio < NUM_PRIORITIES
    requires free == if k.mtxs[i].inherit then Release(k.s, o) else k.s
    ensures second < NUM_PRIORITIES && Scanned(k.s.tcb, k.mtxs[i].waiters, best, second) && Known(free, k.mtxs[i].waiters[best])
    ensures best == ScanBest(k.s.tcb, k.mtxs[i].waiters, 1, 0) && second == ScanSecond(k.s.tcb, k.mtxs[i].waiters, 1, 0, 0)
    ensures var m := k.mtxs[i]; var n := m.waiters[best];
      DoUnlock(k, i) == k.(s := Promote(free, n, m.inherit, second),
                           mtxs := k.mtxs[i := m.(owner := Some(n), waiters := RemoveAt(m.waiters, best), inherited := second)])
  {
    var m := k.mtxs[i];
    hide SyncInv, SchedInv, Release;
    ScanSpec(k.s.tcb, m.waiters, 1, 0, 0);
    best := ScanBest(k.s.tcb, m.waiters, 1, 0);
    second := ScanSecond(k.s.tcb, m.waiters, 1, 0, 0);
    assert Scanned(k.s.tcb, m.waiters, best, second);
    hide ScanBest, ScanSecond, Scanned, Promote, RemoveAt;
    SecondBounds(k, i, best, second);
    assert m.waiters[best] in m.waiters;
  }

  lemma UnlockPasses(k: Kernel, o: nat, i: nat, free: Sched)
    requires KernelInv(k) && Known(k.s, o) && Task(k, o).call.NoCall? && Task(k, o).base < NUM_PRIORITIES
    requires i < |k.mtxs| && k.mtxs[i].locked && k.mtxs[i].owner == Some(o) && k.mtxs[i].waiters != []
    requires forall t | t in k.mtxs[i].waiters :: Known(k.s, t)
    requires SchedInv(free) && Sized(free) && free.sleeping == k.s.sleeping
    requires forall t | 0 <= t < |free.tcb| :: free.tcb[t].prio < NUM_PRIORITIES
    requires free == if k.mtxs[i].inherit then Release(k.s, o) else k.s
    requires free.tcb == k.s.tcb[o := Released(k.s.tcb[o], k.mtxs[i].inherit)]
    ensures KernelInv(DoUnlock(k, i))
  {
    hide SyncInv, SchedInv, Release;
    var best, second := UnlockShape(k, o, i, free);
    hide DoUnlock, Scanned;
    var n := k.mtxs[i].waiters[best];
    assert n in k.mtxs[i].waiters;
    MtxWaiters(k, i, n);
    PromoteSpec(free, n, k.mtxs[i].inherit, second);
    hide Promote, RemoveAt, Released, Promoted;
    assert SchedInv(DoUnlock(k, i).s);
    assert Released(k.s.tcb[o], k.mtxs[i].inherit) == free.tcb[o];
    assert n != o;
    assert free.tcb[n] == k.s.tcb[n];
    PassKeeps(k, DoUnlock(k, i), o, i, best, second);
  }

  lemma SetInheritanceKeeps(k: Kernel, i: nat, on: bool)
    requires KernelInv(k) && i < |k.mtxs|
    ensures KernelInv(DoSetInheritance(k, i, on))
  {
    var r := DoSetInheritance(k, i, on);
    assert MtxOk(k.s.tcb, k.mtxs[i], i);
    if r != k {
      assert MtxOk(r.s.tcb, r.mtxs[i], i);
      forall j | 0 <= j < |k.sems| ensures SemStays(k, r, j) { assert SemOk(k.s.tcb, k.sems[j], j); }
      forall j | 0 <= j < |k.mtxs| && j != i ensures MtxStays(k, r, j) { assert MtxOk(k.s.tcb, k.mtxs[j], j); }
      forall u: nat ensures Tally(r.mtxs, HeldBy(u)) == Tally(k.mtxs, HeldBy(u)) { TallyUpdate(k.mtxs, i, r.mtxs[i], HeldBy(u)); }
      hide SyncInv, SchedInv, MtxOk, SemOk, SemStays, MtxStays, Tally;
      LocalChangeKeeps(k, r, {});
    }
  }

  // ---------------------------------------------------------------- creation, tick, switch

  lemma CreateKeeps(k: Kernel, prio: nat)
    requires KernelInv(k) && Sized(k.s)
    ensures KernelInv(DoCreate(k, prio))
  {
    if |k.s.tcb| != MAX_NUM_TASKS + 1 {
      var p := if prio >= NUM_PRIORITIES then NUM_PRIORITIES - 1 else prio;
      AddTaskSched(k.s, p);
      AddTaskSync(k, DoCreate(k, prio), p);
    }
  }

  lemma AddTaskSched(s: Sched, p: nat)
    requires SchedInv(s) && p < NUM_PRIORITIES
    ensures var r := AddReady(s.(tcb := s.tcb + [NewTask(p)]), |s.tcb|);
      SchedInv(r) && r.tcb == s.tcb + [NewTask(p)] && r.sleeping == s.sleeping
  {
    var t := |s.tcb|;
    var more := s.(tcb := s.tcb + [NewTask(p)]);
    var r := AddReady(more, t);
    assert r.tcb == s.tcb + [NewTask(p)];
    forall i | 0 <= i < |s.sleeping| ensures WakeupOf(s.tcb, s.sleeping[i]) == WakeupOf(r.tcb, s.sleeping[i]) { assert s.sleeping[i] in s.sleeping; }
    assert SleepersOk(r.tcb, r.sleeping);
    hide SleepersOk;
    forall q | 0 <= q < NUM_PRIORITIES ensures ReadyListOk(r.tcb, r.ready[q], r.index[q], q) {
      assert ReadyListOk(s.tcb, s.ready[q], s.index[q], q);
      if q == p { ReadyAppend(s.tcb, r.tcb, s.ready[q], s.index[q], q, t); }
      else { ReadyFrame(s.tcb, r.tcb, s.ready[q], s.index[q], q, t); }
    }
    hide ReadyListOk;
    forall u | 0 <= u < |r.tcb| ensures Listed(r, u) { if u < t { assert Listed(s, u); } }
  }

  lemma AddTaskSync(k: Kernel, r: Kernel, p: nat)
    requires SyncInv(k) && p < NUM_PRIORITIES && r.s.tcb == k.s.tcb + [NewTask(p)] && r.s.sleeping == k.s.sleeping
    requires r.sems == k.sems && r.mtxs == k.mtxs && forall t | t in k.s.sleeping :: t < |k.s.tcb|
    ensures SyncInv(r)
  {
    var t := |k.s.tcb|;
    forall u | 0 <= u < |r.s.tcb| ensures WaitOk(r.s.tcb[u], u, u in r.s.sleeping, r.sems, r.mtxs) {
      if u < t { assert WaitOk(k.s.tcb[u], u, u in k.s.sleeping, k.sems, k.mtxs); }
    }
    forall i | 0 <= i < |r.sems| ensures SemOk(r.s.tcb, r.sems[i], i) {
      assert SemOk(k.s.tcb, k.sems[i], i);
      TallyAppend(k.s.tcb, NewTask(p), InFlight(i));
    }
    forall i | 0 <= i < |r.mtxs| ensures MtxOk(r.s.tcb, r.mtxs[i], i) { assert MtxOk(k.s.tcb, k.mtxs[i], i); }
    hide Tally;
    forall u | 0 <= u < |r.s.tcb| ensures HeldOk(r.s.tcb[u], u, r.mtxs) {
      if u < t { assert HeldOk(k.s.tcb[u], u, k.mtxs); }
      else {
        forall i | 0 <= i < |k.mtxs| ensures !HeldBy(t)(k.mtxs[i]) { assert MtxOk(k.s.tcb, k.mtxs[i], i); }
        TallyZero(k.mtxs, HeldBy(t));
      }
    }
  }

  /** The sleeper at the head of the list, which a tick is about to wake. */
  lemma HeadSleeper(k: Kernel)
    requires KernelInv(k) && k.s.sleeping != []
    ensures var t := k.s.sleeping[0];
      && Known(k.s, t) && t != IDLE && k.s.tcb[t].state == Blocked
      && WaitOk(k.s.tcb[t], t, true, k.sems, k.mtxs) && HeldOk(k.s.tcb[t], t, k.mtxs)
      && (forall j | 0 <= j < |k.sems| && t in k.sems[j].waiters :: k.s.tcb[t].call.AwaitSem? && k.s.tcb[t].call.sem == j)
      && (forall j | 0 <= j < |k.mtxs| && t in k.mtxs[j].waiters :: k.s.tcb[t].call.AwaitMutex? && k.s.tcb[t].call.mtx == j)
  {
    var t := k.s.sleeping[0];
    assert t in k.s.sleeping;
    SleepersAre(k.s);
    ActFits(k, t);
    assert WaitOk(k.s.tcb[t], t, t in k.s.sleeping, k.sems, k.mtxs) && HeldOk(k.s.tcb[t], t, k.mtxs);
    assert forall j | 0 <= j < |k.sems| :: SemOk(k.s.tcb, k.sems[j], j);
    assert forall j | 0 <= j < |k.mtxs| :: MtxOk(k.s.tcb, k.mtxs[j], j);
  }

  /** A timed-out task leaves the sleepers and the one list it waits on, and no other. */
  lemma ExpireKeeps(k: Kernel)
    requires KernelInv(k) && k.s.sleeping != [] && Known(k.s, k.s.sleeping[0])
    ensures KernelInv(Expire(k))
    ensures forall u :: u in Expire(k).s.sleeping <==> u in k.s.sleeping && u != k.s.sleeping[0]
    ensures Expire(k).s.tcb == k.s.tcb[k.s.sleeping[0] := k.s.tcb[k.s.sleeping[0]].(wake := Timeout, state := Ready)]
    ensures Expire(k).now == k.now
  {
    var t := k.s.sleeping[0];
    hide SyncInv;
    HeadSleeper(k);
    var marked := SetTask(k.s, t, k.s.tcb[t].(wake := Timeout));
    NoteKeeps(k.s, t, marked.tcb[t]);
    UnparkSpec(marked, t);
    hide SchedInv, Unpark;
    var c := k.s.tcb[t].call;
    if c.AwaitSem? { ExpireSem(k, Expire(k), t, c.sem); }
    else if c.AwaitMutex? { ExpireMtx(k, Expire(k), t, c.mtx); }
    else { ExpireDelay(k, Expire(k), t); }
  }

  ghost predicate Expired(k: Kernel, r: Kernel, t: nat) {
    && t < |k.s.tcb| && t != IDLE && k.s.tcb[t].state == Blocked
    && r.s.tcb == k.s.tcb[t := k.s.tcb[t].(wake := Timeout, state := Ready)]
    && OnlySleeper(k.s.sleeping, r.s.sleeping, t) && t !in r.s.sleeping
    && WaitOk(k.s.tcb[t], t, true, k.sems, k.mtxs) && HeldOk(k.s.tcb[t], t, k.mtxs)
    && (forall j | 0 <= j < |k.sems| && t in k.sems[j].waiters :: k.s.tcb[t].call.AwaitSem? && k.s.tcb[t].call.sem == j)
    && (forall j | 0 <= j < |k.mtxs| && t in k.mtxs[j].waiters :: k.s.tcb[t].call.AwaitMutex? && k.s.tcb[t].call.mtx == j)
  }

  lemma ExpireDelay(k: Kernel, r: Kernel, t: nat)
    requires SyncInv(k) && Expired(k, r, t) && r.sems == k.sems && r.mtxs == k.mtxs
    requires !k.s.tcb[t].call.AwaitSem? && !k.s.tcb[t].call.AwaitMutex?
    ensures SyncInv(r)
  {
    hide SyncInv, HeldOk;
    OthersStay(k, r, t, -1, -1);
    assert HeldOk(r.s.tcb[t], t, r.mtxs) by { SameHeld(k.s.tcb[t], r.s.tcb[t], t, k.mtxs); }
    assert WaitOk(r.s.tcb[t], t, t in r.s.sleeping, r.sems, r.mtxs);
    hide SemStays, MtxStays, WaitOk;
    LocalChangeKeeps(k, r, {t});
  }

  lemma SameHeld(a: Tcb, b: Tcb, t: nat, mtxs: seq<Mutex>)
    requires HeldOk(a, t, mtxs) && SameStanding(a, b)
    ensures HeldOk(b, t, mtxs)
  {
  }

  lemma ExpireSem(k: Kernel, r: Kernel, t: nat, i: nat)
    requires SyncInv(k) && Expired(k, r, t) && i < |k.sems| && k.s.tcb[t].call.AwaitSem? && k.s.tcb[t].call.sem == i
    requires r.sems == k.sems[i := k.sems[i].(waiters := Without(k.sems[i].waiters, t))] && r.mtxs == k.mtxs
    ensures SyncInv(r)
  {
    hide SyncInv, HeldOk;
    SemDrop(k, r.s.tcb, t, i);
    OthersStay(k, r, t, i, -1);
    hide SemStays, MtxStays, SemOk, Without;
    SemActKeeps(k, r, t, i);
  }

  lemma SemDrop(k: Kernel, b: seq<Tcb>, t: nat, i: nat)
    requires SyncInv(k) && i < |k.sems| && OnlyTask(k.s.tcb, b, t) && k.s.tcb[t].acquired == b[t].acquired && k.s.tcb[t].call == b[t].call
    ensures SemOk(b, k.sems[i].(waiters := Without(k.sems[i].waiters, t)), i)
    ensures SameWaiters(k.sems[i].waiters, Without(k.sems[i].waiters, t), t) && t !in Without(k.sems[i].waiters, t)
  {
    var m := k.sems[i];
    assert SemOk(k.s.tcb, m, i);
    hide SyncInv;
    WithoutMembers(m.waiters, t);
    TallyUpdate(k.s.tcb, t, b[t], InFlight(i));
    hide Tally, Without;
  }

  lemma ExpireMtx(k: Kernel, r: Kernel, t: nat, i: nat)
    requires SyncInv(k) && Expired(k, r, t) && i < |k.mtxs| && k.s.tcb[t].call.AwaitMutex? && k.s.tcb[t].call.mtx == i
    requires r.mtxs == k.mtxs[i := k.mtxs[i].(waiters := Without(k.mtxs[i].waiters, t))] && r.sems == k.sems
    ensures SyncInv(r)
  {
    hide SyncInv, HeldOk;
    MtxDrop(k, r.s.tcb, t, i);
    OthersStay(k, r, t, -1, i);
    assert HeldOk(r.s.tcb[t], t, r.mtxs) by { MtxDropHeld(k, r, t, i); }
    hide SemStays, MtxStays, MtxOk, Without;
    MtxActKeeps(k, r, t, i);
  }

  lemma MtxDropHeld(k: Kernel, r: Kernel, t: nat, i: nat)
    requires i < |k.mtxs| && t < |k.s.tcb| == |r.s.tcb| && HeldOk(k.s.tcb[t], t, k.mtxs) && SameStanding(k.s.tcb[t], r.s.tcb[t])
    requires |r.mtxs| == |k.mtxs| && r.mtxs == k.mtxs[i := r.mtxs[i]] && HeldBy(t)(r.mtxs[i]) == HeldBy(t)(k.mtxs[i])
    ensures HeldOk(r.s.tcb[t], t, r.mtxs)
  {
    TallyUpdate(k.mtxs, i, r.mtxs[i], HeldBy(t));
  }

  lemma MtxDrop(k: Kernel, b: seq<Tcb>, t: nat, i: nat)
    requires SyncInv(k) && i < |k.mtxs| && OnlyTask(k.s.tcb, b, t) && b[t].prio == k.s.tcb[t].prio
    ensures MtxOk(b, k.mtxs[i].(waiters := Without(k.mtxs[i].waiters, t)), i)
    ensures SameWaiters(k.mtxs[i].waiters, Without(k.mtxs[i].waiters, t), t) && t !in Without(k.mtxs[i].waiters, t)
  {
    var m := k.mtxs[i];
    assert MtxOk(k.s.tcb, m, i);
    hide SyncInv;
    WithoutMembers(m.waiters, t);
    hide Without;
  }

  lemma {:induction false} ExpireAllKeeps(k: Kernel)
    requires KernelInv(k)
    ensures KernelInv(ExpireAll(k))
    decreases |k.s.sleeping|
  {
    hide SyncInv;
    if k.s.sleeping != [] {
      HeadSleeper(k);
      if WakeupOf(k.s.tcb, k.s.sleeping[0]) <= k.now {
        ExpireKeeps(k);
        ExpireAllKeeps(Expire(k));
      }
    }
  }

  lemma ClockKeeps(k: Kernel)
    requires KernelInv(k)
    ensures KernelInv(k.(now := k.now + 1))
  {
    hide SchedInv, WaitOk, SemOk, MtxOk, HeldOk, IdleOk;
  }

  lemma TickKeeps(k: Kernel)
    requires KernelInv(k)
    ensures KernelInv(DoTick(k))
  {
    hide KernelInv, ExpireAll;
    ClockKeeps(k);
    ExpireAllKeeps(k.(now := k.now + 1));
  }

  lemma RescheduleKeeps(k: Kernel)
    requires KernelInv(k)
    ensures KernelInv(k.(s := Switch(k.s)))
  {
    SwitchKeeps(k.s);
    hide SchedInv, Switch;
    RunMarksKeep(k, k.(s := Switch(k.s)));
  }

  lemma RunMarksKeep(k: Kernel, r: Kernel)
    requires SyncInv(k) && SameButRunning(k.s.tcb, r.s.tcb) && r.s.sleeping == k.s.sleeping && r.sems == k.sems && r.mtxs == k.mtxs
    ensures SyncInv(r)
  {
    forall i | 0 <= i < |k.sems| ensures SemOk(r.s.tcb, r.sems[i], i) {
      assert SemOk(k.s.tcb, k.sems[i], i);
      SemFrame(k.s.tcb, r.s.tcb, k.sems[i], i);
    }
    forall i | 0 <= i < |k.mtxs| ensures MtxOk(r.s.tcb, r.mtxs[i], i) {
      assert MtxOk(k.s.tcb, k.mtxs[i], i);
      MtxFrame(k.s.tcb, r.s.tcb, k.mtxs[i], i);
    }
    hide SemOk, MtxOk, Tally;
    forall u | 0 <= u < |r.s.tcb| ensures WaitOk(r.s.tcb[u], u, u in r.s.sleeping, r.sems, r.mtxs) && HeldOk(r.s.tcb[u], u, r.mtxs) {
      assert WaitOk(k.s.tcb[u], u, u in k.s.sleeping, k.sems, k.mtxs) && HeldOk(k.s.tcb[u], u, k.mtxs);
    }
  }

  // ---------------------------------------------------------------- runs

  /** scheduler_init: the idle task alone; semaphores and mutexes just initialised. */
  ghost predicate Init(k: Kernel) {
    && Sized(k.s) && k.s.tcb == [NewTask(0)] && k.s.sleeping == [] && k.s.current == None
    && k.s.ready == [[IDLE], [], [], [], [], []] && k.s.index == [Some(IDLE), None, None, None, None, None]
    && (forall i | 0 <= i < |k.sems| :: var m := k.sems[i]; m.waiters == [] && m.count == m.initial && m.gives == m.takes == 0)
    && (forall i | 0 <= i < |k.mtxs| :: k.mtxs[i] == Mutex(false, None, [], false, 0))
  }

  lemma InitInv(k: Kernel)
    requires Init(k)
    ensures KernelInv(k)
  {
    assert SchedInv(k.s) by {
      forall q | 0 <= q < NUM_PRIORITIES ensures ReadyListOk(k.s.tcb, k.s.ready[q], k.s.index[q], q) {}
      assert Listed(k.s, IDLE);
    }
    forall i | 0 <= i < |k.sems| ensures SemOk(k.s.tcb, k.sems[i], i) {
      TallyZero(k.s.tcb, InFlight(i));
    }
    forall t | 0 <= t < |k.s.tcb| ensures HeldOk(k.s.tcb[t], t, k.mtxs) {
      TallyZero(k.mtxs, HeldBy(t));
    }
  }

  lemma StepKeeps(k: Kernel, a: Act)
    requires KernelInv(k) && Allowed(k, a)
    ensures KernelInv(Step(k, a))
  {
    hide SchedInv, SyncInv;
    MeFits(k);
    match a
    case Create(p) => SizedInv(k.s); CreateKeeps(k, p);
    case BlockUntil(w) => BlockUntilKeeps(k, w);
    case DelayOver => DelayOverKeeps(k);
    case Take(i, timeout) => TakeKeeps(k, i, timeout);
    case TakeTry => TakeTryKeeps(k);
    case TakeWoken => TakeWokenKeeps(k);
    case Give(i) => GiveFits(k, i); GiveKeeps(k, i);
    case Lock(i, timeout) => LockKeeps(k, i, timeout);
    case LockWoken => LockWokenKeeps(k);
    case Unlock(i) => UnlockKeeps(k, i);
    case SetInheritance(i, on) => SetInheritanceKeeps(k, i, on);
    case Tick => TickKeeps(k);
    case Reschedule => RescheduleKeeps(k);
  }
}
