/** What single kernel calls answer and leave behind, in terms of their arguments. */
module KernelResults {
  import opened Sequences
  import opened Scheduler
  import opened Kernel
  import opened KernelSafety
  import opened KernelRuns

  // ---------------------------------------------------------------- delays

  /** Task `t` sleeps in block_until; if it was woken, its time had come. */
  predicate Delayed(k: Kernel, t: nat, wakeup: nat) {
    && t < |k.s.tcb| && CallOf(k, t) == Delaying
    && (if k.s.tcb[t].state == Blocked then k.s.tcb[t].wakeup == wakeup else k.now >= wakeup)
  }

  lemma {:induction false} DelayBegins(k: Kernel, w: nat)
    requires KernelInv(k) && Allowed(k, BlockUntil(w))
    ensures var r := Step(k, BlockUntil(w)); Delayed(r, Me(k), w) && r.s.tcb[Me(k)].state == Blocked && Me(k) in r.s.sleeping
  {
    hide SchedInv, SyncInv;
    MeFits(k);
    StartWaitSpec(k, Me(k), Delaying, Some(w));
    hide StartWait;
  }

  lemma {:induction false} DelayGoesOn(k: Kernel, a: Act, t: nat, w: nat)
    requires KernelInv(k) && Allowed(k, a) && Delayed(k, t, w)
    ensures if ByTask(k, a, t) then CallOf(Step(k, a), t) == NoCall && Step(k, a).now == k.now >= w else Delayed(Step(k, a), t, w)
  {
    hide SchedInv, SyncInv, Step;
    NowRises(k, a);
    if ByTask(k, a, t) {
      DelayReturns(k, a, t);
    } else {
      OthersEvolve(k, a, t);
    }
  }

  lemma {:induction false} DelayReturns(k: Kernel, a: Act, t: nat)
    requires KernelInv(k) && Allowed(k, a) && ByTask(k, a, t) && t < |k.s.tcb| && CallOf(k, t) == Delaying
    ensures k.s.tcb[t].state != Blocked && CallOf(Step(k, a), t) == NoCall
  {
    hide SchedInv, SyncInv;
    MeFits(k);
  }

  lemma {:induction false} DelayEnds(k: Kernel, acts: seq<Act>, t: nat, w: nat)
    requires KernelInv(k) && Legal(k, acts) && CallRun(k, acts, t) && Delayed(k, t, w) && acts != []
    ensures After(k, acts).now >= w
    decreases |acts|
  {
    hide KernelInv, Step, Allowed, OwnAct;
    StepKeeps(k, acts[0]);
    DelayGoesOn(k, acts[0], t, w);
    if ByTask(k, acts[0], t) {
      assert acts[1..] == [];
    } else {
      DelayEnds(Step(k, acts[0]), acts[1..], t, w);
    }
  }

  /** The run is a whole block_until of the current task. */
  ghost predicate DelayCall(k: Kernel, acts: seq<Act>, w: nat)
    requires KernelInv(k) && Legal(k, acts)
  {
    && acts != [] && acts[0] == BlockUntil(w)
    && (StepKeeps(k, acts[0]); CallRun(Step(k, acts[0]), acts[1..], Me(k)))
  }

  /** A delay lasts at least as long as asked for, and its sleeper is woken by the very tick that
      brings its time. */
  lemma {:induction false} DelayOutcome(k: Kernel, acts: seq<Act>, w: nat)
    requires KernelInv(k) && Legal(k, acts) && DelayCall(k, acts, w)
    ensures After(k, acts).now >= w
  {
    hide KernelInv, Step, OwnAct;
    DelayBegins(k, w);
    StepKeeps(k, acts[0]);
    DelayEnds(Step(k, acts[0]), acts[1..], Me(k), w);
  }

  lemma {:induction false} DelayWakes(k: Kernel, t: nat, w: nat)
    requires KernelInv(k) && Delayed(k, t, w) && k.s.tcb[t].state == Blocked
    ensures t < |Step(k, Tick).s.tcb| && (Step(k, Tick).s.tcb[t].state == Ready <==> w <= k.now + 1)
  {
    assert WaitOk(k.s.tcb[t], t, t in k.s.sleeping, k.sems, k.mtxs);
    hide SchedInv, SyncInv, Step;
    TickExact(k, t);
  }

  // ---------------------------------------------------------------- creation and configuration

  function Capped(p: nat): nat { if p < NUM_PRIORITIES then p else NUM_PRIORITIES - 1 }

  /** task_create: unless the pool is full, one more task, ready, of the priority asked for up to
      the highest there is, last in its ready list; nothing else changes. */
  lemma {:induction false} CreateResult(k: Kernel, p: nat)
    requires KernelInv(k)
    ensures var r := Step(k, Create(p)); var t := |k.s.tcb|;
      if t == MAX_NUM_TASKS + 1 then r == k
      else
        && |r.s.tcb| == t + 1 && r.s.tcb[..t] == k.s.tcb
        && r.s.tcb[t].state == Ready && r.s.tcb[t].prio == r.s.tcb[t].base == Capped(p) && r.s.tcb[t].held == 0
        && CallOf(r, t) == NoCall
        && r.s.ready == k.s.ready[Capped(p) := k.s.ready[Capped(p)] + [t]]
        && r == k.(s := r.s) && r.s.sleeping == k.s.sleeping && r.s.current == k.s.current
  {
    hide SyncInv;
    SizedInv(k.s);
    hide SchedInv;
  }

  /** mutex_set_inheritance: the flag is what was asked for, unless the mutex is in use. */
  lemma {:induction false} SetInheritanceResult(k: Kernel, i: nat, on: bool)
    requires KernelInv(k) && i < |k.mtxs|
    ensures var r := Step(k, SetInheritance(i, on)); var m := k.mtxs[i];
      && |r.mtxs| == |k.mtxs|
      && r.mtxs[i].inherit == (if m.locked then m.inherit else on)
      && r == k.(mtxs := k.mtxs[i := m.(inherit := r.mtxs[i].inherit)])
  {
    assert MtxOk(k.s.tcb, k.mtxs[i], i);
    hide SchedInv, SyncInv;
  }

  // ---------------------------------------------------------------- semaphores and mutexes

  /** semaphore_take's first critical section: a token if there is one; else a timeout if no time is
      left; else the task waits, behind everyone else, until its deadline if it has one. */
  lemma {:induction false} TakeTryResult(k: Kernel, i: nat, timeout: int, deadline: nat)
    requires KernelInv(k) && Allowed(k, TakeTry) && CallOf(k, Me(k)) == Taking(i, timeout, deadline)
    ensures var t := Me(k); var r := Step(k, TakeTry);
      && i < |k.sems| == |r.sems| && t < |k.s.tcb| == |r.s.tcb| && r.mtxs == k.mtxs && r.now == k.now
      && var m := k.sems[i];
        if m.count > 0 then
          CallOf(r, t) == NoCall && ResultOf(r, t) == OK && r.sems == k.sems[i := m.(count := m.count - 1, takes := m.takes + 1)]
        else if OutOfTime(timeout, deadline, k.now) then CallOf(r, t) == NoCall && ResultOf(r, t) == TimedOut && r.sems == k.sems
        else
          && CallOf(r, t) == AwaitSem(i, timeout, deadline) && r.s.tcb[t].state == Blocked && r.s.tcb[t].enqueued == k.s.tcb[t].prio
          && r.sems == k.sems[i := m.(waiters := m.waiters + [t])]
          && (timeout > 0 ==> t in r.s.sleeping && r.s.tcb[t].wakeup == deadline)
  {
    hide SchedInv, SyncInv;
    MeFits(k);
    StartWaitSpec(k, Me(k), AwaitSem(i, timeout, deadline), if timeout > 0 then Some(deadline) else None);
    hide StartWait;
  }

  /** Its second: a task handed a token returns with it, any other goes round again. */
  lemma {:induction false} TakeWokenResult(k: Kernel, i: nat, timeout: int, deadline: nat)
    requires KernelInv(k) && Allowed(k, TakeWoken) && CallOf(k, Me(k)) == AwaitSem(i, timeout, deadline)
    ensures var t := Me(k); var r := Step(k, TakeWoken);
      if WakeOf(k, t) == Handoff then CallOf(r, t) == NoCall && ResultOf(r, t) == OK && TakesOf(r, i) == TakesOf(k, i) + 1
      else CallOf(r, t) == Taking(i, timeout, deadline) && r.sems == k.sems
  {
    MeFits(k);
    assert WaitOk(k.s.tcb[Me(k)], Me(k), Me(k) in k.s.sleeping, k.sems, k.mtxs);
    hide SchedInv, SyncInv;
  }

  /** mutex_lock's first critical section: the mutex if it is free; else nothing if no waiting is
      asked for; else the task waits, behind everyone else, and an inheriting mutex takes over its
      priority and passes it on to the owner. */
  lemma {:induction false} LockResult(k: Kernel, i: nat, timeout: int)
    requires KernelInv(k) && Allowed(k, Lock(i, timeout))
    ensures var t := Me(k); var r := Step(k, Lock(i, timeout)); var m := k.mtxs[i];
      && t < |k.s.tcb| == |r.s.tcb| && |r.mtxs| == |k.mtxs| && r.sems == k.sems
      && if !m.locked then
           && CallOf(r, t) == NoCall && ResultOf(r, t) == OK && r.mtxs == k.mtxs[i := m.(locked := true, owner := Some(t))]
           && r.s.tcb[t].held == k.s.tcb[t].held + (if m.inherit then 1 else 0)
         else if timeout == 0 then CallOf(r, t) == NoCall && ResultOf(r, t) == TimedOut && r.mtxs == k.mtxs
         else
           && CallOf(r, t) == AwaitMutex(i, timeout)
           && r.mtxs == k.mtxs[i := m.(waiters := m.waiters + [t], inherited := r.mtxs[i].inherited)]
           && r.mtxs[i].inherited == (if m.inherit then Max(m.inherited, k.s.tcb[t].prio) else m.inherited)
           && m.owner.Some? && m.owner.value < |k.s.tcb|
           && r.s.tcb[m.owner.value].prio
              == (if m.inherit then Max(k.s.tcb[m.owner.value].prio, r.mtxs[i].inherited) else k.s.tcb[m.owner.value].prio)
  {
    hide SchedInv, SyncInv, StartWait, Boost;
    MeFits(k);
    LockFits(k, i);
    OwnerThere(k, i);
    if k.mtxs[i].locked && timeout != 0 { LockWaits(k, i, timeout); }
  }

  lemma {:induction false} LockWaits(k: Kernel, i: nat, timeout: int)
    requires KernelInv(k) && Allowed(k, Lock(i, timeout)) && k.mtxs[i].locked && timeout != 0
    requires k.mtxs[i].owner.Some? && Known(k.s, k.mtxs[i].owner.value) && k.mtxs[i].inherited < NUM_PRIORITIES && Known(k.s, Me(k))
    ensures var r := DoLock(k, Me(k), i, timeout); var t := Me(k); var m := k.mtxs[i]; var o := m.owner.value;
      && |r.s.tcb| == |k.s.tcb| && CallOf(r, t) == AwaitMutex(i, timeout)
      && r.s.tcb[o].prio == (if m.inherit then Max(k.s.tcb[o].prio, Max(m.inherited, k.s.tcb[t].prio)) else k.s.tcb[o].prio)
      && r.mtxs[i].inherited == (if m.inherit then Max(m.inherited, k.s.tcb[t].prio) else m.inherited)
      && r.mtxs == k.mtxs[i := m.(waiters := m.waiters + [t], inherited := r.mtxs[i].inherited)] && r.sems == k.sems
  {
    hide SchedInv, SyncInv, DoLock;
    MeFits(k);
    var t, m := Me(k), k.mtxs[i];
    var call := AwaitMutex(i, timeout);
    var w := if timeout > 0 then Some(k.now + timeout) else None;
    StartWaitSpec(k, t, call, w);
    var waiting := StartWait(k, t, call, w).s;
    SizedInv(waiting);
    hide StartWait, KernelInv, Allowed;
    var p := if m.inherit then Max(m.inherited, Task(k, t).prio) else m.inherited;
    var r := LockSched(k, t, i, timeout, waiting, p);
    BoostSpec(waiting, m.owner.value, p);
    hide Boost;
  }

  /** mutex_unlock: without waiters the mutex is free; otherwise it goes to the waiter at `best`,
      the first of those with the highest priority, who is woken with it.  Either way its holder
      gives up the claim the mutex gave it. */
  lemma {:induction false} UnlockResult(k: Kernel, i: nat) returns (best: nat)
    requires KernelInv(k) && Allowed(k, Unlock(i)) && k.mtxs[i].locked
    ensures var m := k.mtxs[i]; var o := Me(k); var r := Step(k, Unlock(i));
      && o < |k.s.tcb| == |r.s.tcb| && |r.mtxs| == |k.mtxs| && r.sems == k.sems && r.s.tcb[o] == Released(k.s.tcb[o], m.inherit)
      && if m.waiters == [] then r.mtxs == k.mtxs[i := m.(locked := false, owner := None, inherited := 0)]
         else
           && best < |m.waiters|
           && (forall j | 0 <= j < |m.waiters| :: PrioOf(k.s.tcb, m.waiters[j]) <= PrioOf(k.s.tcb, m.waiters[best]))
           && (forall j | 0 <= j < best :: PrioOf(k.s.tcb, m.waiters[j]) < PrioOf(k.s.tcb, m.waiters[best]))
           && var n := m.waiters[best]; var left := r.mtxs[i].inherited;
             && r.mtxs == k.mtxs[i := m.(owner := Some(n), waiters := m.waiters[..best] + m.waiters[best + 1..], inherited := left)]
             && (forall j | 0 <= j < |m.waiters| && j != best :: PrioOf(k.s.tcb, m.waiters[j]) <= left)
             && (left == 0 || exists j :: 0 <= j < |m.waiters| && j != best && PrioOf(k.s.tcb, m.waiters[j]) == left)
             && n < |r.s.tcb| && r.s.tcb[n] == Promoted(k.s.tcb[n], m.inherit, left)
  {
    hide SchedInv, SyncInv;
    MeFits(k);
    LockFits(k, i);
    OwnerThere(k, i);
    var o, m := Me(k), k.mtxs[i];
    ReleasedHolds(k, o, i, m.(owner := None));
    if m.inherit { ReleaseSpec(k.s, o, Released(k.s.tcb[o], true)); }
    var free := if m.inherit then Release(k.s, o) else k.s;
    assert free.tcb == k.s.tcb[o := Released(k.s.tcb[o], m.inherit)];
    hide Release, Released;
    best := 0;
    if m.waiters != [] {
      SizedInv(free);
      PriosSmall(free);
      var second;
      best, second := UnlockShape(k, o, i, free);
      hide DoUnlock;
      FirstBest(k.s.tcb, m.waiters);
      var n := m.waiters[best];
      assert n in m.waiters;
      MtxWaiters(k, i, n);
      PromoteSpec(free, n, m.inherit, second);
      hide Promote, Promoted;
    }
  }

  lemma {:induction false} FirstBest(tcb: seq<Tcb>, ws: seq<nat>)
    requires ws != []
    ensures var b := ScanBest(tcb, ws, 1, 0);
      && b < |ws| && (forall j | 0 <= j < |ws| :: PrioOf(tcb, ws[j]) <= PrioOf(tcb, ws[b]))
      && (forall j | 0 <= j < b :: PrioOf(tcb, ws[j]) < PrioOf(tcb, ws[b]))
  {
    ScanSpec(tcb, ws, 1, 0, 0);
  }

  // ---------------------------------------------------------------- ready and sleeping order

  /** When the task under the cursor leaves its list, the cursor goes to the next one round. */
  lemma {:induction false} CursorResult(s: seq<nat>, i: nat)
    requires Distinct(s) && i < |s|
    ensures CursorAfter(s, s[i]) == if |s| == 1 then None else Some(s[if i + 1 < |s| then i + 1 else 0])
  {
    IndexOfDistinct(s, i);
  }

  /** A sleeper goes in front of the first one if it wakes no later, and otherwise behind all that
      wake no later. */
  lemma {:induction false} PlaceResult(tcb: seq<Tcb>, s: seq<nat>, w: nat)
    requires Sorted(tcb, s)
    ensures var j := InsertPlace(tcb, s, w);
      && j <= |s|
      && (j == 0 <==> s == [] || w <= WakeupOf(tcb, s[0]))
      && (j > 0 ==> (forall i | 0 <= i < |s| :: i < j <==> WakeupOf(tcb, s[i]) <= w))
  {
  }

  // ---------------------------------------------------------------- order of service

  ghost predicate Ahead(s: seq<nat>, x: nat, y: nat) {
    exists i, j :: 0 <= i < j < |s| && s[i] == x && s[j] == y
  }

  /** Those of `a` that are still in `b` are there in the same order. */
  ghost predicate KeepsOrder(a: seq<nat>, b: seq<nat>) {
    forall x, y | Ahead(a, x, y) && x in b && y in b :: Ahead(b, x, y)
  }

  ghost predicate Thins(a: seq<nat>, b: seq<nat>) {
    KeepsOrder(a, b) && forall x | x in b :: x in a
  }

  lemma {:induction false} RemovalThins(s: seq<nat>, i: nat)
    requires Distinct(s) && i < |s|
    ensures Thins(s, RemoveAt(s, i)) && Distinct(RemoveAt(s, i))
  {
    var b := RemoveAt(s, i);
    RemoveAtMembers(s, i);
    forall x, y | Ahead(s, x, y) && x in b && y in b ensures Ahead(b, x, y) {
      var p, q :| 0 <= p < q < |s| && s[p] == x && s[q] == y;
      var p', q' := if p < i then p else p - 1, if q < i then q else q - 1;
      assert b[p'] == x && b[q'] == y;
    }
  }

  lemma {:induction false} WithoutThins(s: seq<nat>, t: nat)
    requires Distinct(s)
    ensures Thins(s, Without(s, t)) && Distinct(Without(s, t))
  {
    if t in s { RemovalThins(s, IndexOf(s, t)); }
  }

  lemma {:induction false} ThinsOn(a: seq<nat>, b: seq<nat>, c: seq<nat>)
    requires Thins(a, b) && Thins(b, c)
    ensures Thins(a, c)
  {
  }

  lemma {:induction false} AppendKeepsOrder(s: seq<nat>, t: nat)
    ensures KeepsOrder(s, s + [t])
  {
    var b := s + [t];
    forall x, y | Ahead(s, x, y) ensures Ahead(b, x, y) {
      var p, q :| 0 <= p < q < |s| && s[p] == x && s[q] == y;
      assert b[p] == x && b[q] == y;
    }
  }

  ghost predicate SameQueues(k: Kernel, r: Kernel) {
    && |r.sems| == |k.sems| && |r.mtxs| == |k.mtxs|
    && (forall i | 0 <= i < |k.sems| :: KeepsOrder(k.sems[i].waiters, r.sems[i].waiters))
    && (forall i | 0 <= i < |k.mtxs| :: KeepsOrder(k.mtxs[i].waiters, r.mtxs[i].waiters))
  }

  ghost predicate ThinnerQueues(k: Kernel, r: Kernel) {
    && |r.sems| == |k.sems| && |r.mtxs| == |k.mtxs|
    && (forall i | 0 <= i < |k.sems| :: Thins(k.sems[i].waiters, r.sems[i].waiters))
    && (forall i | 0 <= i < |k.mtxs| :: Thins(k.mtxs[i].waiters, r.mtxs[i].waiters))
  }

  lemma {:induction false} QueuesDistinct(k: Kernel)
    requires SyncInv(k)
    ensures forall i | 0 <= i < |k.sems| :: Distinct(k.sems[i].waiters)
    ensures forall i | 0 <= i < |k.mtxs| :: Distinct(k.mtxs[i].waiters)
  {
    forall i | 0 <= i < |k.sems| ensures Distinct(k.sems[i].waiters) { assert SemOk(k.s.tcb, k.sems[i], i); }
    forall i | 0 <= i < |k.mtxs| ensures Distinct(k.mtxs[i].waiters) { assert MtxOk(k.s.tcb, k.mtxs[i], i); }
  }

  lemma {:induction false} ExpireThins(k: Kernel)
    requires KernelInv(k) && k.s.sleeping != [] && Known(k.s, k.s.sleeping[0])
    ensures ThinnerQueues(k, Expire(k))
  {
    QueuesDistinct(k);
    hide SchedInv, SyncInv, Unpark, Thins, Distinct;
    var t := k.s.sleeping[0];
    var r := Expire(k);
    forall i | 0 <= i < |k.sems| ensures Thins(k.sems[i].waiters, r.sems[i].waiters) { WithoutThins(k.sems[i].waiters, t); Unchanged(k.sems[i].waiters); }
    forall i | 0 <= i < |k.mtxs| ensures Thins(k.mtxs[i].waiters, r.mtxs[i].waiters) { WithoutThins(k.mtxs[i].waiters, t); Unchanged(k.mtxs[i].waiters); }
  }

  lemma {:induction false} Unchanged(s: seq<nat>)
    ensures Thins(s, s) && KeepsOrder(s, s)
  {
  }

  lemma {:induction false} ExpireAllThins(k: Kernel)
    requires KernelInv(k)
    ensures ThinnerQueues(k, ExpireAll(k))
    decreases |k.s.sleeping|
  {
    hide SchedInv, SyncInv, Thins, KeepsOrder;
    forall s: seq<nat> ensures Thins(s, s) { Unchanged(s); }
    if k.s.sleeping != [] && Known(k.s, k.s.sleeping[0]) && WakeupOf(k.s.tcb, k.s.sleeping[0]) <= k.now {
      ExpireKeeps(k);
      ExpireThins(k);
      var e := Expire(k);
      ExpireAllThins(e);
      var r := ExpireAll(e);
      forall i | 0 <= i < |k.sems| ensures Thins(k.sems[i].waiters, r.sems[i].waiters) { ThinsOn(k.sems[i].waiters, e.sems[i].waiters, r.sems[i].waiters); }
      forall i | 0 <= i < |k.mtxs| ensures Thins(k.mtxs[i].waiters, r.mtxs[i].waiters) { ThinsOn(k.mtxs[i].waiters, e.mtxs[i].waiters, r.mtxs[i].waiters); }
    }
  }

  /** A give hands its token to the task that has waited longest; the others keep their order. */
  lemma {:induction false} GiveResult(k: Kernel, i: nat)
    requires KernelInv(k) && i < |k.sems|
    ensures var m := k.sems[i]; var r := Step(k, Give(i));
      && |r.sems| == |k.sems|
      && if m.waiters != [] then
           var t := m.waiters[0];
           && t < |r.s.tcb| && r.s.tcb[t].wake == Handoff && r.s.tcb[t].state == Ready && r.s.tcb[t].prio < |r.s.ready| == |k.s.ready|
           && r.sems[i] == m.(waiters := m.waiters[1..], gives := m.gives + 1)
           && r.s.ready[r.s.tcb[t].prio] == k.s.ready[r.s.tcb[t].prio] + [t]
         else r == k.(sems := r.sems) && r.sems[i].waiters == [] && r.sems[i].count == (if m.count < m.max then m.count + 1 else m.count)
  {
    GiveFits(k, i);
    if k.sems[i].waiters != [] {
      FirstWaiter(k, i);
      var h := k.sems[i].waiters[0];
      SizedInv(k.s);
      hide SchedInv, SyncInv;
    }
  }

  lemma {:induction false} SameInOrder(k: Kernel, r: Kernel)
    requires r.sems == k.sems && r.mtxs == k.mtxs
    ensures SameQueues(k, r)
  {
    hide KeepsOrder;
    forall i | 0 <= i < |k.sems| ensures KeepsOrder(k.sems[i].waiters, r.sems[i].waiters) { Unchanged(k.sems[i].waiters); }
    forall i | 0 <= i < |k.mtxs| ensures KeepsOrder(k.mtxs[i].waiters, r.mtxs[i].waiters) { Unchanged(k.mtxs[i].waiters); }
  }

  lemma {:induction false} OneInOrder(k: Kernel, r: Kernel, i: nat)
    requires |r.sems| == |k.sems| && |r.mtxs| == |k.mtxs|
    requires forall j | 0 <= j < |k.sems| && j != i :: r.sems[j].waiters == k.sems[j].waiters
    requires forall j | 0 <= j < |k.mtxs| && j != i :: r.mtxs[j].waiters == k.mtxs[j].waiters
    requires i < |k.sems| ==> KeepsOrder(k.sems[i].waiters, r.sems[i].waiters)
    requires i < |k.mtxs| ==> KeepsOrder(k.mtxs[i].waiters, r.mtxs[i].waiters)
    ensures SameQueues(k, r)
  {
    hide KeepsOrder;
    forall j | 0 <= j < |k.sems| ensures KeepsOrder(k.sems[j].waiters, r.sems[j].waiters) { Unchanged(k.sems[j].waiters); }
    forall j | 0 <= j < |k.mtxs| ensures KeepsOrder(k.mtxs[j].waiters, r.mtxs[j].waiters) { Unchanged(k.mtxs[j].waiters); }
  }

  lemma {:induction false} GiveInOrder(k: Kernel, i: nat)
    requires KernelInv(k) && i < |k.sems|
    ensures SameQueues(k, Step(k, Give(i)))
  {
    hide SchedInv, SyncInv, KeepsOrder, Thins, Unpark, Distinct;
    GiveFits(k, i);
    QueuesDistinct(k);
    var ws := k.sems[i].waiters;
    if ws != [] {
      RemovalThins(ws, 0);
      hide KernelInv;
      assert Thins(ws, ws[1..]) by { assert RemoveAt(ws, 0) == ws[1..]; }
      ThinInOrder(ws, ws[1..]);
    }
    forall s: seq<nat> ensures KeepsOrder(s, s) { Unchanged(s); }
    OneInOrder(k, Step(k, Give(i)), i);
  }

  lemma {:induction false} ThinInOrder(a: seq<nat>, b: seq<nat>)
    requires Thins(a, b)
    ensures KeepsOrder(a, b)
  {
  }

  lemma {:induction false} TakeInOrder(k: Kernel)
    requires KernelInv(k) && Allowed(k, TakeTry)
    ensures SameQueues(k, Step(k, TakeTry))
  {
    hide SchedInv, SyncInv, KeepsOrder, StartWait, KernelInv;
    MeFits(k);
    var c := k.s.tcb[Me(k)].call;
    TakeTryResult(k, c.sem, c.timeout, c.deadline);
    var r := Step(k, TakeTry);
    hide Step, Allowed;
    AppendKeepsOrder(k.sems[c.sem].waiters, Me(k));
    forall s: seq<nat> ensures KeepsOrder(s, s) { Unchanged(s); }
    OneInOrder(k, r, c.sem);
  }

  lemma {:induction false} LockInOrder(k: Kernel, i: nat, timeout: int)
    requires KernelInv(k) && Allowed(k, Lock(i, timeout))
    ensures SameQueues(k, Step(k, Lock(i, timeout)))
  {
    hide SchedInv, SyncInv, KeepsOrder, StartWait, Boost, KernelInv;
    LockResult(k, i, timeout);
    var r := Step(k, Lock(i, timeout));
    hide Step, Allowed;
    AppendKeepsOrder(k.mtxs[i].waiters, Me(k));
    forall s: seq<nat> ensures KeepsOrder(s, s) { Unchanged(s); }
    OneInOrder(k, r, i);
  }

  lemma {:induction false} UnlockInOrder(k: Kernel, i: nat)
    requires KernelInv(k) && Allowed(k, Unlock(i)) && k.mtxs[i].locked
    ensures SameQueues(k, Step(k, Unlock(i)))
  {
    hide SchedInv, SyncInv, KeepsOrder, Thins, Distinct;
    var best := UnlockResult(k, i);
    QueuesDistinct(k);
    var r := Step(k, Unlock(i));
    hide Step, Allowed, KernelInv;
    var ws := k.mtxs[i].waiters;
    forall s: seq<nat> ensures KeepsOrder(s, s) { Unchanged(s); }
    if ws != [] {
      RemovalThins(ws, best);
      ThinInOrder(ws, RemoveAt(ws, best));
    }
    OneInOrder(k, r, i);
  }

  /** Whatever happens, the tasks waiting for a semaphore or a mutex keep the order in which they
      began to wait. */
  lemma {:induction false} OrderOfWaiting(k: Kernel, a: Act)
    requires KernelInv(k) && Allowed(k, a)
    ensures SameQueues(k, Step(k, a))
  {
    hide SchedInv, SyncInv, SameQueues, AddReady, Switch, StartWait, DoUnlock, DoGive, ExpireAll, DoLock, DoTakeTry;
    MeFits(k);
    SizedInv(k.s);
    var r := Step(k, a);
    match a
    case Give(i) => GiveInOrder(k, i);
    case TakeTry => TakeInOrder(k);
    case Lock(i, timeout) => LockInOrder(k, i, timeout);
    case Unlock(i) =>
      if k.mtxs[i].locked { UnlockInOrder(k, i); } else { LockFits(k, i); UnlockNothing(k, i); SameInOrder(k, r); }
    case Tick => TickInOrder(k);
    case Create(_) => SameInOrder(k, r);
    case BlockUntil(w) => StartWaitSpec(k, Me(k), Delaying, Some(w)); SameInOrder(k, r);
    case DelayOver => SameInOrder(k, r);
    case Take(_, _) => SameInOrder(k, r);
    case TakeWoken => FlagInOrder(k, r);
    case LockWoken => SameInOrder(k, r);
    case SetInheritance(_, _) => FlagInOrder(k, r);
    case Reschedule => SameInOrder(k, r);
  }

  lemma {:induction false} FlagInOrder(k: Kernel, r: Kernel)
    requires |r.sems| == |k.sems| && |r.mtxs| == |k.mtxs|
    requires forall j | 0 <= j < |k.sems| :: r.sems[j].waiters == k.sems[j].waiters
    requires forall j | 0 <= j < |k.mtxs| :: r.mtxs[j].waiters == k.mtxs[j].waiters
    ensures SameQueues(k, r)
  {
    hide KeepsOrder;
    forall s: seq<nat> ensures KeepsOrder(s, s) { Unchanged(s); }
  }

  lemma {:induction false} TickInOrder(k: Kernel)
    requires KernelInv(k)
    ensures SameQueues(k, DoTick(k))
  {
    hide SchedInv, SyncInv, ExpireAll, Thins, KeepsOrder;
    ClockKeeps(k);
    var c := k.(now := k.now + 1);
    ExpireAllThins(c);
    var r := ExpireAll(c);
    forall i | 0 <= i < |k.sems| ensures KeepsOrder(k.sems[i].waiters, r.sems[i].waiters) { ThinInOrder(k.sems[i].waiters, r.sems[i].waiters); }
    forall i | 0 <= i < |k.mtxs| ensures KeepsOrder(k.mtxs[i].waiters, r.mtxs[i].waiters) { ThinInOrder(k.mtxs[i].waiters, r.mtxs[i].waiters); }
  }

  predicate WaitsFor(k: Kernel, i: nat, t: nat) { i < |k.sems| && t in k.sems[i].waiters }

  /** Both tasks wait for the semaphore before every act of the run and after the last. */
  ghost predicate BothWait(k: Kernel, acts: seq<Act>, i: nat, x: nat, y: nat)
    requires KernelInv(k) && Legal(k, acts)
    decreases |acts|
  {
    && WaitsFor(k, i, x) && WaitsFor(k, i, y)
    && (acts != [] ==> (StepKeeps(k, acts[0]); BothWait(Step(k, acts[0]), acts[1..], i, x, y)))
  }

  /** First come, first served: while a task that began to wait for a semaphore earlier is still
      waiting, no token given to the semaphore goes to one that began later. */
  lemma {:induction false} ServedInOrder(k: Kernel, acts: seq<Act>, i: nat, x: nat, y: nat)
    requires KernelInv(k) && Legal(k, acts) && BothWait(k, acts, i, x, y) && Ahead(k.sems[i].waiters, x, y)
    ensures var e := After(k, acts);
      && KernelInv(e) && i < |e.sems| && Ahead(e.sems[i].waiters, x, y) && WaitsFor(Step(e, Give(i)), i, y)
    decreases |acts|
  {
    hide SchedInv, SyncInv, Step, Allowed, Ahead;
    if acts == [] {
      GiveLeaves(k, i, x, y);
    } else {
      StepKeeps(k, acts[0]);
      OrderOfWaiting(k, acts[0]);
      var r := Step(k, acts[0]);
      assert KeepsOrder(k.sems[i].waiters, r.sems[i].waiters);
      hide KernelInv, SameQueues;
      assert BothWait(r, acts[1..], i, x, y);
      assert WaitsFor(r, i, x) && WaitsFor(r, i, y);
      ServedInOrder(r, acts[1..], i, x, y);
    }
  }

  lemma {:induction false} GiveLeaves(k: Kernel, i: nat, x: nat, y: nat)
    requires KernelInv(k) && i < |k.sems| && Ahead(k.sems[i].waiters, x, y)
    ensures WaitsFor(Step(k, Give(i)), i, y)
  {
    hide SchedInv, SyncInv, Step, Allowed, KernelInv;
    GiveResult(k, i);
    var ws := k.sems[i].waiters;
    var p, q :| 0 <= p < q < |ws| && ws[p] == x && ws[q] == y;
    assert ws[1..][q - 1] == y;
  }
}
