/** One core's kernel as the objects it is made of, tied to the value they represent. */
module KernelCore {
  import opened Sequences
  import opened KernelLists
  import opened KernelTasks
  import opened Scheduler
  import opened Kernel
  import opened KernelSafety

  /** A semaphore and a mutex, but for their wait lists. */
  datatype SemaphoreRecord = SemaphoreRecord(max: nat, count: nat)

  datatype MutexRecord = MutexRecord(locked: bool, owner: Option<nat>, inherit: bool, inherited: nat)

  const SLEEPERS: nat := NUM_PRIORITIES

  function SemList(i: nat): nat { SLEEPERS + 1 + i }

  function MtxList(n: nat, i: nat): nat { SLEEPERS + 1 + n + i }

  /** The contents of every list, in the pool's order. */
  ghost function Ids(k: Kernel): seq<seq<nat>> {
    k.s.ready + [k.s.sleeping]
    + seq(|k.sems|, i requires 0 <= i < |k.sems| => k.sems[i].waiters)
    + seq(|k.mtxs|, i requires 0 <= i < |k.mtxs| => k.mtxs[i].waiters)
  }

  lemma IdsAt(k: Kernel)
    requires Sized(k.s)
    ensures |Ids(k)| == SLEEPERS + 1 + |k.sems| + |k.mtxs|
    ensures forall p | 0 <= p < NUM_PRIORITIES :: Ids(k)[p] == k.s.ready[p]
    ensures Ids(k)[SLEEPERS] == k.s.sleeping
    ensures forall i | 0 <= i < |k.sems| :: Ids(k)[SemList(i)] == k.sems[i].waiters
    ensures forall i | 0 <= i < |k.mtxs| :: Ids(k)[MtxList(|k.sems|, i)] == k.mtxs[i].waiters
  {
  }

  lemma IdsReady(k: Kernel, r: Kernel, p: nat)
    requires Sized(k.s) && p < NUM_PRIORITIES && |r.s.ready| == |k.s.ready| && r.s.ready == k.s.ready[p := r.s.ready[p]]
    requires r.s.sleeping == k.s.sleeping && r.sems == k.sems && r.mtxs == k.mtxs
    ensures Ids(r) == Ids(k)[p := r.s.ready[p]]
  {
  }

  lemma IdsSleeping(k: Kernel, r: Kernel)
    requires Sized(k.s) && r.s.ready == k.s.ready && r.sems == k.sems && r.mtxs == k.mtxs
    ensures Ids(r) == Ids(k)[SLEEPERS := r.s.sleeping]
  {
  }

  lemma IdsSem(k: Kernel, r: Kernel, i: nat)
    requires Sized(k.s) && i < |k.sems| == |r.sems| && r.s.ready == k.s.ready && r.s.sleeping == k.s.sleeping && r.mtxs == k.mtxs
    requires r.sems == k.sems[i := r.sems[i]]
    ensures Ids(r) == Ids(k)[SemList(i) := r.sems[i].waiters]
  {
  }

  lemma IdsMtx(k: Kernel, r: Kernel, i: nat)
    requires Sized(k.s) && i < |k.mtxs| == |r.mtxs| && r.s.ready == k.s.ready && r.s.sleeping == k.s.sleeping && r.sems == k.sems
    requires r.mtxs == k.mtxs[i := r.mtxs[i]]
    ensures Ids(r) == Ids(k)[MtxList(|k.sems|, i) := r.mtxs[i].waiters]
  {
  }

  lemma IdsSame(k: Kernel, r: Kernel)
    requires r.s.ready == k.s.ready && r.s.sleeping == k.s.sleeping && |r.sems| == |k.sems| && |r.mtxs| == |k.mtxs|
    requires forall i | 0 <= i < |k.sems| :: r.sems[i].waiters == k.sems[i].waiters
    requires forall i | 0 <= i < |k.mtxs| :: r.mtxs[i].waiters == k.mtxs[i].waiters
    ensures Ids(r) == Ids(k)
  {
  }

  method NewLists(n: nat) returns (ls: seq<List>)
    ensures |ls| == n && Distinct(ls) && forall l | l in ls :: fresh(l) && l.Chain() && l.items == [] && l.index == null
  {
    ls := [];
    while |ls| < n
      invariant |ls| <= n && Distinct(ls) && forall l | l in ls :: fresh(l) && l.Chain() && l.items == [] && l.index == null
    {
      var l := new List();
      ls := ls + [l];
    }
  }

  /** The kernel before the idle task is added. */
  ghost function Bare(counts: seq<(nat, nat)>, mutexes: nat): Kernel {
    Kernel(0, Sched([NewTask(0)], [[], [], [], [], [], []], [None, None, None, None, None, None], [], None),
           seq(|counts|, i requires 0 <= i < |counts| => Semaphore(counts[i].0, counts[i].1, [], counts[i].1, 0, 0)),
           seq(mutexes, _ => Mutex(false, None, [], false, 0)))
  }

  lemma BareIds(counts: seq<(nat, nat)>, mutexes: nat)
    ensures Ids(Bare(counts, mutexes)) == Empties(SLEEPERS + 1 + |counts| + mutexes)
  {
  }

  class Core {
    const pool: TaskPool
    var now: nat
    var tcb: seq<Tcb>
    var current: Option<nat>
    var sems: seq<SemaphoreRecord>
    var mtxs: seq<MutexRecord>
    /** The value all this represents. */
    ghost var k: Kernel

    ghost predicate CursorsMatch(index: seq<Option<nat>>)
      reads pool, pool.lists
    {
      |index| == NUM_PRIORITIES && |pool.lists| >= NUM_PRIORITIES
      && forall p | 0 <= p < NUM_PRIORITIES :: Points(pool.lists[p].index, pool.tasks, index[p], false)
    }

    /** The plain fields, as against the lists. */
    ghost predicate RecordsMatch()
      reads this, pool
    {
      && now == k.now && tcb == k.s.tcb && |pool.tasks| == |tcb| && current == k.s.current
      && |sems| == |k.sems| && (forall i | 0 <= i < |sems| :: sems[i] == SemaphoreRecord(k.sems[i].max, k.sems[i].count))
      && |mtxs| == |k.mtxs| && (forall i | 0 <= i < |mtxs| ::
            mtxs[i] == MutexRecord(k.mtxs[i].locked, k.mtxs[i].owner, k.mtxs[i].inherit, k.mtxs[i].inherited))
    }

    ghost predicate Valid()
      reads this, pool, pool.lists, pool.Nodes()
    {
      Sized(k.s) && RecordsMatch() && pool.Linked(Ids(k)) && CursorsMatch(k.s.index)
    }

    /** The records of a core whose lists are still empty. */
    constructor (pool: TaskPool, counts: seq<(nat, nat)>, mutexes: nat)
      requires |pool.tasks| == 1 && |pool.lists| == SLEEPERS + 1 + |counts| + mutexes
      requires pool.Linked(Ids(Bare(counts, mutexes)))
      requires forall p | 0 <= p < NUM_PRIORITIES :: pool.lists[p].index == null
      ensures Valid() && k == Bare(counts, mutexes) && this.pool == pool
    {
      hide Ids, List.Chain, Maps, Distinct, At;
      this.pool := pool;
      now, tcb, current := 0, [NewTask(0)], None;
      sems := seq(|counts|, i requires 0 <= i < |counts| => SemaphoreRecord(counts[i].0, counts[i].1));
      mtxs := seq(mutexes, _ => MutexRecord(false, None, false, 0));
      k := Bare(counts, mutexes);
    }

    /** A task's record is rewritten, its place in the lists untouched. */
    method SetTask(t: nat, b: Tcb)
      requires Valid() && t < |k.s.tcb|
      modifies this`tcb, this`k
      ensures Valid() && k == PutTask(old(k), t, b)
    {
      hide Ids, List.Chain, Maps, Distinct, At;
      IdsSame(k, PutTask(k, t, b));
      tcb := tcb[t := b];
      k := PutTask(k, t, b);
    }
  
    method JoinReady(t: nat)
      requires Valid() && Known(k.s, t) && pool.tasks[t].state.container == null
      modifies this`k, pool.lists, pool.Nodes()
      ensures Valid() && k == old(k).(s := JoinedReady(old(k).s, t))
    {
      hide Ids, List.Chain, Maps, At;
      ghost var ids := Ids(k);
      IdsAt(k);
      var p := tcb[t].prio;
      pool.LinkLast(pool.lists[p], false, t, true, p, ids);
      IdsReady(k, k.(s := JoinedReady(k.s, t)), p);
      k := k.(s := JoinedReady(k.s, t));
      assert pool.Linked(Ids(k));
      assert CursorsMatch(k.s.index);
    }

    /** scheduler_remove_from_ready_list. */
    method RemoveFromReady(t: nat)
      requires Valid() && Known(k.s, t)
      modifies this`k, pool.lists, pool.Nodes()
      ensures Valid() && k == old(k).(s := RemoveReady(old(k).s, t))
      ensures t in old(k).s.ready[old(k).s.tcb[t].prio] ==> pool.tasks[t].state.container == null
    {
      hide Ids, List.Chain, Maps, At, Without, CursorAfter;
      ghost var ids := Ids(k);
      IdsAt(k);
      var p := tcb[t].prio;
      RemovedReady(k.s, t);
      pool.WhereReady(t, p, ids);
      if pool.tasks[t].state.container != pool.lists[p] {
        return;
      }
      pool.Unlink(pool.lists[p], false, t, p, ids);
      IdsReady(k, k.(s := RemoveReady(k.s, t)), p);
      hide RemoveReady;
      k := k.(s := RemoveReady(k.s, t));
      assert pool.Linked(Ids(k));
      assert CursorsMatch(k.s.index);
    }

    /** scheduler_add_to_ready_list. */
    method AddToReady(t: nat)
      requires Valid() && Known(k.s, t) && pool.tasks[t].state.container == null
      modifies this`tcb, this`k, pool.lists, pool.Nodes()
      ensures Valid() && k == old(k).(s := AddReady(old(k).s, t))
    {
      hide Valid, Ids;
      TaskIs(t);
      JoinReady(t);
      TaskIs(t);
      SetTask(t, tcb[t].(state := Ready));
    }

    lemma TaskIs(t: nat)
      requires Valid()
      ensures tcb == k.s.tcb && |pool.tasks| == |tcb| && Sized(k.s)
    {
    }

    /** scheduler_add_to_blocked_list: the search from the head for the task's place. */
    method AddToBlocked(t: nat, w: nat)
      requires Valid() && t < |k.s.tcb| && t !in k.s.sleeping && pool.tasks[t].state.container == null
      modifies this`tcb, this`k, pool.lists, pool.Nodes()
      ensures Valid() && k == old(k).(s := AddSleeping(old(k).s, t, w))
    {
      hide Valid, Ids;
      ghost var before := k;
      TaskIs(t);
      PlaceSame(k.s.tcb, k.s.tcb[t := tcb[t].(wakeup := w)], k.s.sleeping, t, w);
      hide InsertPlace;
      SetTask(t, tcb[t].(wakeup := w));
      JoinBlocked(t, w);
      assert k.s == AddSleeping(before.s, t, w);
    }

    method JoinBlocked(t: nat, w: nat)
      requires Valid() && t < |k.s.tcb| && pool.tasks[t].state.container == null
      modifies this`k, pool.lists, pool.Nodes()
      ensures Valid() && k == old(k).(s := old(k).s.(sleeping := InsertAt(old(k).s.sleeping, InsertPlace(old(k).s.tcb, old(k).s.sleeping, w), t)))
    {
      hide Ids, List.Chain, Maps, At, InsertAt;
      ghost var ids := Ids(k);
      IdsAt(k);
      var l := pool.lists[SLEEPERS];
      var first, iter := FindPlace(l, w);
      ghost var r := k.(s := k.s.(sleeping := InsertAt(k.s.sleeping, InsertPlace(k.s.tcb, k.s.sleeping, w), t)));
      IdsSleeping(k, r);
      if first {
        pool.LinkFirst(l, false, t, SLEEPERS, ids);
      } else {
        pool.LinkAfter(l, false, t, iter.value, InsertPlace(k.s.tcb, k.s.sleeping, w) - 1, SLEEPERS, ids);
      }
      hide InsertPlace;
      k := r;
      assert pool.Linked(Ids(k));
      assert CursorsMatch(k.s.index);
    }

    /** Whether a task waking at `w` goes first, and otherwise the node it goes behind. */
    method FindPlace(l: List, w: nat) returns (first: bool, iter: Option<ListItem>)
      requires Valid() && |pool.lists| > SLEEPERS && l == pool.lists[SLEEPERS]
      ensures first <==> InsertPlace(k.s.tcb, k.s.sleeping, w) == 0
      ensures !first ==> iter.Some? && var j := InsertPlace(k.s.tcb, k.s.sleeping, w);
        0 < j <= |l.items| && |l.items| == |k.s.sleeping| && iter.value == l.items[j - 1]
    {
      hide Valid, At, List.Chain, Ids;
      ghost var s := k.s.sleeping;
      ShowsSleepers();
      Fields();
      SleepersInPool();
      AtIs(l.items, 0);
      assert s != [] ==> s[0] in s;
      if l.head == null {
        return true, None;
      }
      if w <= tcb[l.head.owner].wakeup {
        return true, None;
      }
      first := false;
      var at := FindBehind(l, w, s);
      iter := Some(at);
    }

    lemma SleepersInPool()
      requires Valid()
      ensures forall t | t in k.s.sleeping :: t < |tcb|
    {
      IdsAt(k);
      hide List.Chain, At;
      assert pool.Holds(SLEEPERS, k.s.sleeping);
    }

    /** The walk along the blocked list. */
    method FindBehind(l: List, w: nat, ghost s: seq<nat>) returns (at: ListItem)
      requires Shows(l, s) && s != [] && (forall t | t in s :: t < |tcb|) && w > WakeupOf(tcb, s[0])
      ensures var j := InsertPlace(tcb, s, w); 0 < j <= |l.items| && at == l.items[j - 1]
    {
      hide At;
      AtIs(l.items, 0);
      AtIs(l.items, 1);
      at := l.head;
      ghost var i: nat := 0;
      while at.next != null && tcb[at.next.owner].wakeup <= w
        invariant i < |s| && at == l.items[i] && at.next == At(l.items, i + 1)
        invariant at.next != null <==> i + 1 < |s|
        invariant i + 1 < |s| ==> at.next == l.items[i + 1] && s[i + 1] in s
        invariant PlaceAfter(tcb, s, 1, w) == PlaceAfter(tcb, s, i + 1, w)
        decreases |s| - i
      {
        at := at.next;
        i := i + 1;
        AtIs(l.items, i + 1);
      }
    }

    /** scheduler_remove_from_blocked_list. */
    method RemoveFromBlocked(t: nat)
      requires Valid() && t < |k.s.tcb|
      modifies this`k, pool.lists, pool.Nodes()
      ensures Valid() && k == old(k).(s := RemoveSleeping(old(k).s, t))
      ensures t < |pool.tasks|
      ensures t in old(k).s.sleeping || old(pool.tasks[t].state.container) == null ==> pool.tasks[t].state.container == null
    {
      hide Ids, List.Chain, Maps, At, CursorAfter;
      ghost var ids := Ids(k);
      IdsAt(k);
      pool.WhereReady(t, SLEEPERS, ids);
      if pool.tasks[t].state.container != pool.lists[SLEEPERS] {
        return;
      }
      hide Without;
      pool.Unlink(pool.lists[SLEEPERS], false, t, SLEEPERS, ids);
      IdsSleeping(k, k.(s := RemoveSleeping(k.s, t)));
      k := k.(s := RemoveSleeping(k.s, t));
      assert pool.Linked(Ids(k));
      assert CursorsMatch(k.s.index);
    }

    /** The cursor of a ready list goes on. */
    method AdvanceCursor(p: nat)
      requires Valid() && p < NUM_PRIORITIES && k.s.index[p].Some?
      modifies this`k, pool.lists
      ensures old(k).s.index[p].value in old(k).s.ready[p]
      ensures Valid() && k == old(k).(s := old(k).s.(index := old(k).s.index[p := Some(Successor(old(k).s.ready[p], old(k).s.index[p].value))]))
    {
      hide Ids, List.Chain, Maps, At, Successor;
      ghost var ids := Ids(k);
      IdsAt(k);
      ghost var t := k.s.index[p].value;
      pool.Advance(pool.lists[p], p, ids, t);
      ghost var r := k.(s := k.s.(index := k.s.index[p := Some(Successor(k.s.ready[p], t))]));
      IdsSame(k, r);
      k := r;
      assert pool.Linked(Ids(k));
      assert CursorsMatch(k.s.index);
    }

    /** A task joins the wait list of semaphore `i`. */
    method JoinSemaphore(t: nat, i: nat)
      requires Valid() && t < |k.s.tcb| && i < |k.sems| && pool.tasks[t].event.container == null
      modifies this`k, pool.lists, pool.Nodes()
      ensures Valid() && k == old(k).(sems := old(k).sems[i := old(k).sems[i].(waiters := old(k).sems[i].waiters + [t])])
    {
      hide Ids, List.Chain, Maps, At;
      ghost var ids := Ids(k);
      IdsAt(k);
      ghost var r := k.(sems := k.sems[i := k.sems[i].(waiters := k.sems[i].waiters + [t])]);
      IdsSem(k, r, i);
      pool.LinkLast(pool.lists[SemList(i)], true, t, false, SemList(i), ids);
      k := r;
      assert pool.Linked(Ids(k));
      assert CursorsMatch(k.s.index);
    }

    method JoinMutex(t: nat, i: nat)
      requires Valid() && t < |k.s.tcb| && i < |k.mtxs| && pool.tasks[t].event.container == null
      modifies this`k, pool.lists, pool.Nodes()
      ensures Valid() && k == old(k).(mtxs := old(k).mtxs[i := old(k).mtxs[i].(waiters := old(k).mtxs[i].waiters + [t])])
    {
      hide Ids, List.Chain, Maps, At;
      ghost var ids := Ids(k);
      IdsAt(k);
      ghost var r := k.(mtxs := k.mtxs[i := k.mtxs[i].(waiters := k.mtxs[i].waiters + [t])]);
      IdsMtx(k, r, i);
      pool.LinkLast(pool.lists[MtxList(|sems|, i)], true, t, false, MtxList(|sems|, i), ids);
      k := r;
      assert pool.Linked(Ids(k));
      assert CursorsMatch(k.s.index);
    }

    /** A task leaves the wait list `l` of semaphore `i`. */
    method LeaveSemaphore(l: List, t: nat, ghost i: nat)
      requires Valid() && t < |k.s.tcb| && i < |k.sems| && t in k.sems[i].waiters
      requires |pool.lists| > SemList(i) && l == pool.lists[SemList(i)]
      modifies this`k, pool.lists, pool.Nodes()
      ensures Valid() && k == old(k).(sems := old(k).sems[i := old(k).sems[i].(waiters := Without(old(k).sems[i].waiters, t))])
      ensures pool.tasks[t].event.container == null
    {
      hide Ids, List.Chain, Maps, At, Without, CursorAfter;
      ghost var ids := Ids(k);
      IdsAt(k);
      ghost var r := k.(sems := k.sems[i := k.sems[i].(waiters := Without(k.sems[i].waiters, t))]);
      IdsSem(k, r, i);
      pool.Unlink(l, true, t, SemList(i), ids);
      k := r;
      assert pool.Linked(Ids(k));
      assert CursorsMatch(k.s.index);
    }

    method LeaveMutex(l: List, t: nat, ghost i: nat)
      requires Valid() && t < |k.s.tcb| && i < |k.mtxs| && t in k.mtxs[i].waiters
      requires |pool.lists| > MtxList(|k.sems|, i) && l == pool.lists[MtxList(|k.sems|, i)]
      modifies this`k, pool.lists, pool.Nodes()
      ensures Valid() && k == old(k).(mtxs := old(k).mtxs[i := old(k).mtxs[i].(waiters := Without(old(k).mtxs[i].waiters, t))])
      ensures pool.tasks[t].event.container == null
    {
      hide Ids, List.Chain, Maps, At, Without, CursorAfter;
      ghost var ids := Ids(k);
      IdsAt(k);
      ghost var r := k.(mtxs := k.mtxs[i := k.mtxs[i].(waiters := Without(k.mtxs[i].waiters, t))]);
      IdsMtx(k, r, i);
      pool.Unlink(l, true, t, MtxList(|k.sems|, i), ids);
      k := r;
      assert pool.Linked(Ids(k));
      assert CursorsMatch(k.s.index);
    }

    /** The fields of a semaphore are rewritten, its waiters untouched. */
    method SetSemaphore(i: nat, r: SemaphoreRecord, ghost m: Semaphore)
      requires Valid() && i < |k.sems| && r == SemaphoreRecord(m.max, m.count) && m.waiters == k.sems[i].waiters
      modifies this`sems, this`k
      ensures Valid() && k == old(k).(sems := old(k).sems[i := m])
    {
      hide Ids, List.Chain, Maps, Distinct, At;
      IdsSame(k, k.(sems := k.sems[i := m]));
      sems := sems[i := r];
      k := k.(sems := k.sems[i := m]);
    }

    method SetMutex(i: nat, r: MutexRecord, ghost m: Mutex)
      requires Valid() && i < |k.mtxs| && r == MutexRecord(m.locked, m.owner, m.inherit, m.inherited) && m.waiters == k.mtxs[i].waiters
      modifies this`mtxs, this`k
      ensures Valid() && k == old(k).(mtxs := old(k).mtxs[i := m])
    {
      hide Ids, List.Chain, Maps, Distinct, At;
      IdsSame(k, k.(mtxs := k.mtxs[i := m]));
      mtxs := mtxs[i := r];
      k := k.(mtxs := k.mtxs[i := m]);
    }

    method SetClock(now: nat)
      requires Valid()
      modifies this`now, this`k
      ensures Valid() && k == old(k).(now := now)
    {
      hide Ids, List.Chain, Maps, Distinct, At;
      IdsSame(k, k.(now := now));
      this.now := now;
      k := k.(now := now);
    }

    /** What the fields say about the value. */
    lemma Fields()
      requires Valid()
      ensures now == k.now && tcb == k.s.tcb && current == k.s.current && |pool.tasks| == |tcb|
      ensures |sems| == |k.sems| && forall i | 0 <= i < |sems| :: sems[i] == SemaphoreRecord(k.sems[i].max, k.sems[i].count)
      ensures |mtxs| == |k.mtxs| && forall i | 0 <= i < |mtxs| ::
        mtxs[i] == MutexRecord(k.mtxs[i].locked, k.mtxs[i].owner, k.mtxs[i].inherit, k.mtxs[i].inherited)
      ensures |pool.lists| == SLEEPERS + 1 + |sems| + |mtxs|
    {
      IdsAt(k);
    }

    lemma Chains()
      requires Valid()
      ensures forall l | l in pool.lists :: l.Chain()
    {
      hide List.Chain, Maps, At;
      forall l | l in pool.lists ensures l.Chain() {
        var j :| 0 <= j < |pool.lists| && pool.lists[j] == l;
        IdsAt(k);
        assert pool.Holds(j, Ids(k)[j]);
      }
    }

    /** A wait list as its nodes. */
    ghost predicate Shows(l: List, ids: seq<nat>)
      reads l, pool, pool.Nodes()
    {
      && |l.items| == |ids| && l.num == |ids| && l.head == At(l.items, 0)
      && (forall i | 0 <= i < |ids| :: l.items[i] in pool.Nodes() && l.items[i].owner == ids[i] && l.items[i].next == At(l.items, i + 1))
    }

    lemma ShowsSemaphore(i: nat)
      requires Valid() && i < |k.sems|
      ensures SemList(i) < |pool.lists| && Shows(pool.lists[SemList(i)], k.sems[i].waiters)
    {
      IdsAt(k);
      assert pool.Holds(SemList(i), k.sems[i].waiters);
      hide At;
    }

    lemma ShowsMutex(i: nat)
      requires Valid() && i < |k.mtxs|
      ensures MtxList(|k.sems|, i) < |pool.lists| && Shows(pool.lists[MtxList(|k.sems|, i)], k.mtxs[i].waiters)
    {
      IdsAt(k);
      assert pool.Holds(MtxList(|k.sems|, i), k.mtxs[i].waiters);
      hide At;
    }

    lemma ShowsSleepers()
      requires Valid()
      ensures SLEEPERS < |pool.lists| && Shows(pool.lists[SLEEPERS], k.s.sleeping)
    {
      IdsAt(k);
      assert pool.Holds(SLEEPERS, k.s.sleeping);
      hide At;
    }

    /** A task's event node is on the wait list of what it waits for, or nowhere. */
    lemma EventPlace(t: nat)
      requires Valid() && t < |pool.tasks|
      ensures |pool.lists| == SLEEPERS + 1 + |k.sems| + |k.mtxs|
      ensures forall i | 0 <= i < |k.sems| && t in k.sems[i].waiters :: pool.tasks[t].event.container == pool.lists[SemList(i)]
      ensures forall i | 0 <= i < |k.mtxs| && t in k.mtxs[i].waiters :: pool.tasks[t].event.container == pool.lists[MtxList(|k.sems|, i)]
      ensures (forall i | 0 <= i < |k.sems| :: t !in k.sems[i].waiters) && (forall i | 0 <= i < |k.mtxs| :: t !in k.mtxs[i].waiters) ==>
        pool.tasks[t].event.container == null
    {
      IdsAt(k);
      ghost var ids := Ids(k);
      hide Ids, TaskPool.Linked, At;
      pool.WhereNode(t, true, ids);
      if (forall i | 0 <= i < |k.sems| :: t !in k.sems[i].waiters) && (forall i | 0 <= i < |k.mtxs| :: t !in k.mtxs[i].waiters) {
        forall j | 0 <= j < |pool.lists| && true == (j > NUM_PRIORITIES) ensures t !in ids[j] {
          if j < SLEEPERS + 1 + |k.sems| { assert j == SemList(j - SLEEPERS - 1); }
          else { assert j == MtxList(|k.sems|, j - SLEEPERS - 1 - |k.sems|); }
        }
      }
    }

    /** A task leaves the wait list its event node is on, if it is on one. */
    method LeaveEvent(t: nat)
      requires Valid() && SyncInv(k) && t < |k.s.tcb|
      modifies this`k, pool.lists, pool.Nodes()
      ensures Valid() && k == LeaveWait(old(k), t)
    {
      hide Valid, SyncInv, Without;
      Fields();
      EventPlace(t);
      WaitsWhere(k, t);
      var l := pool.tasks[t].event.container;
      if l == null {
        return;
      }
      ghost var call := k.s.tcb[t].call;
      LeaveList(t, l, call);
    }

    method LeaveList(t: nat, l: List, ghost call: Call)
      requires Valid() && t < |k.s.tcb| && call == k.s.tcb[t].call
      requires |pool.lists| == SLEEPERS + 1 + |k.sems| + |k.mtxs|
      requires || (call.AwaitSem? && call.sem < |k.sems| && t in k.sems[call.sem].waiters && l == pool.lists[SemList(call.sem)])
               || (call.AwaitMutex? && call.mtx < |k.mtxs| && t in k.mtxs[call.mtx].waiters && l == pool.lists[MtxList(|k.sems|, call.mtx)])
      modifies this`k, pool.lists, pool.Nodes()
      ensures Valid() && k == LeaveWait(old(k), t)
    {
      hide Ids, List.Chain, Maps, At, Without, CursorAfter;
      ghost var ids := Ids(k);
      IdsAt(k);
      ghost var r := LeaveWait(k, t);
      ghost var j := if call.AwaitSem? then SemList(call.sem) else MtxList(|k.sems|, call.mtx);
      if call.AwaitSem? { IdsSem(k, r, call.sem); } else { IdsMtx(k, r, call.mtx); }
      pool.Unlink(l, true, t, j, ids);
      k := r;
      assert pool.Linked(Ids(k));
      assert CursorsMatch(k.s.index);
    }

    /** A new task, on no list yet. */
    method AddTask(b: Tcb)
      requires Valid()
      modifies this`tcb, this`k, pool`tasks
      ensures Valid() && k == old(k).(s := old(k).s.(tcb := old(k).s.tcb + [b]))
      ensures |pool.tasks| == |k.s.tcb| && pool.tasks[|old(k).s.tcb|].state.container == null
      ensures fresh(pool.Nodes() - old(pool.Nodes()))
    {
      hide Ids, List.Chain, Maps, Distinct, At;
      ghost var r := k.(s := k.s.(tcb := k.s.tcb + [b]));
      IdsSame(k, r);
      pool.AddTask(Ids(k));
      tcb := tcb + [b];
      k := r;
    }

    // ---------------------------------------------------------------- scheduler operations

    /** A ready task is on its own ready list and nowhere else. */
    lemma ReadyPlace(t: nat)
      requires Valid() && SchedInv(k.s) && t < |k.s.tcb| && k.s.tcb[t].state != Blocked
      ensures Known(k.s, t) && t in k.s.ready[k.s.tcb[t].prio] && t !in k.s.sleeping
    {
      assert Listed(k.s, t);
      NotAsleep(k.s, t);
    }

    /** A blocked task's node is on the blocked list or nowhere. */
    lemma BlockedPlace(t: nat)
      requires Valid() && SchedInv(k.s) && t < |k.s.tcb| && k.s.tcb[t].state == Blocked
      ensures Known(k.s, t) && t < |pool.tasks|
      ensures t !in k.s.sleeping ==> pool.tasks[t].state.container == null
    {
      assert Listed(k.s, t);
      IdsAt(k);
      forall q | 0 <= q < NUM_PRIORITIES ensures t !in k.s.ready[q] { OnlyOwnList(k.s, t, q); }
      hide Ids, SchedInv;
      pool.WhereNode(t, false, Ids(k));
    }

    method ParkTask(t: nat, wakeup: Option<nat>)
      requires Valid() && SchedInv(k.s) && t < |k.s.tcb| && k.s.tcb[t].state != Blocked
      modifies this`tcb, this`k, pool.lists, pool.Nodes()
      ensures Known(old(k).s, t) && Valid() && k == old(k).(s := Park(old(k).s, t, wakeup))
    {
      hide Ids, Valid, SchedInv, AddSleeping, RemoveReady;
      ReadyPlace(t);
      RemovedReady(k.s, t);
      TaskIs(t);
      RemoveFromReady(t);
      if wakeup.Some? {
        AddToBlocked(t, wakeup.value);
      }
      TaskIs(t);
      SleepSize(k.s, t);
      SetTask(t, tcb[t].(state := Blocked));
    }

    method UnparkTask(t: nat)
      requires Valid() && SchedInv(k.s) && t < |k.s.tcb| && k.s.tcb[t].state == Blocked
      modifies this`tcb, this`k, pool.lists, pool.Nodes()
      ensures Known(old(k).s, t) && Valid() && k == old(k).(s := Unpark(old(k).s, t))
    {
      hide Ids, Valid, SchedInv, AddReady, Without;
      BlockedPlace(t);
      RemoveFromBlocked(t);
      AddToReady(t);
    }

    /** scheduler_change_task_priority. */
    method ChangeTaskPriority(t: nat, p: nat)
      requires Valid() && SchedInv(k.s) && t < |k.s.tcb| && p < NUM_PRIORITIES
      modifies this`tcb, this`k, pool.lists, pool.Nodes()
      ensures Known(old(k).s, t) && Valid() && k == old(k).(s := ChangePriority(old(k).s, t, p))
    {
      hide Ids, Valid, SchedInv, AddReady, RemoveReady;
      TaskKnown(t);
      var saved := tcb[t].state;
      if saved != Blocked {
        ReadyPlace(t);
        RemovedReady(k.s, t);
        RemoveFromReady(t);
      }
      TaskIs(t);
      SetTask(t, tcb[t].(prio := p));
      TaskIs(t);
      if saved != Blocked {
        AddToReady(t);
        TaskIs(t);
        SetTask(t, tcb[t].(state := saved));
      }
    }

    lemma TaskKnown(t: nat)
      requires Valid() && SchedInv(k.s) && t < |k.s.tcb|
      ensures Known(k.s, t) && tcb == k.s.tcb
    {
      assert Listed(k.s, t);
    }

    /** scheduler_switch_context. */
    method SwitchContext()
      requires Valid() && SchedInv(k.s)
      modifies this`tcb, this`current, this`k, pool.lists
      ensures Sized(old(k).s) && Valid() && k == old(k).(s := Switch(old(k).s))
    {
      hide Ids, Valid, SchedInv;
      SizedInv(k.s);
      ghost var s := k.s;
      YieldKeeps(s);
      YieldCurrent();
      hide Yield;
      PickTop();
    }

    method YieldCurrent()
      requires Valid() && SchedInv(k.s)
      modifies this`tcb, this`k, pool.lists
      ensures Sized(old(k).s) && Valid() && k == old(k).(s := Yield(old(k).s))
    {
      hide Ids, Valid, SchedInv, Successor;
      SizedInv(k.s);
      CurrentIs();
      if current.Some? && tcb[current.value].state == Running {
        var c := current.value;
        TaskKnown(c);
        ReadyPlace(c);
        var p := tcb[c].prio;
        SetTask(c, tcb[c].(state := Ready));
        CursorIs(p);
        if pool.lists[p].index != null {
          AdvanceCursor(p);
        }
      }
    }

    lemma CurrentIs()
      requires Valid() && SchedInv(k.s)
      ensures current == k.s.current && tcb == k.s.tcb && (current.Some? ==> current.value < |tcb|)
    {
    }

    lemma CursorIs(p: nat)
      requires Valid() && p < NUM_PRIORITIES
      ensures |pool.lists| > NUM_PRIORITIES && |k.s.index| == |k.s.ready| == NUM_PRIORITIES
      ensures pool.lists[p].index != null <==> k.s.index[p].Some?
      ensures k.s.index[p].Some? ==> k.s.index[p].value < |tcb| && pool.lists[p].index.owner == k.s.index[p].value
      ensures pool.lists[p].num == |k.s.ready[p]|
    {
      IdsAt(k);
      assert pool.Holds(p, k.s.ready[p]);
    }

    method PickTop()
      requires Valid() && SchedInv(k.s)
      modifies this`tcb, this`current, this`k
      ensures Sized(old(k).s) && Valid() && k == old(k).(s := Pick(old(k).s))
    {
      hide Ids, Valid, SchedInv;
      SizedInv(k.s);
      TaskIs(0);
      var i := NUM_PRIORITIES;
      CursorIs(0);
      while i > 0
        invariant 0 <= i <= NUM_PRIORITIES && |pool.lists| > NUM_PRIORITIES && Sized(k.s)
        invariant TopBelow(k.s.ready, NUM_PRIORITIES) == TopBelow(k.s.ready, i)
        invariant k == old(k) && Valid()
      {
        i := i - 1;
        CursorIs(i);
        if pool.lists[i].num > 0 {
          CursorSet(k.s, i);
          var next := pool.lists[i].index.owner;
          TaskIs(next);
          SetTask(next, tcb[next].(state := Running));
          SetCurrent(Some(next));
          return;
        }
      }
      SetCurrent(None);
    }

    lemma CursorSet(s: Sched, p: nat)
      requires SchedInv(s) && p < NUM_PRIORITIES && s.ready[p] != []
      ensures s.index[p].Some?
    {
      assert ReadyListOk(s.tcb, s.ready[p], s.index[p], p);
    }

    method SetCurrent(c: Option<nat>)
      requires Valid()
      modifies this`current, this`k
      ensures Valid() && k == old(k).(s := old(k).s.(current := c))
    {
      hide Ids, List.Chain, Maps, Distinct, At;
      IdsSame(k, k.(s := k.s.(current := c)));
      current := c;
      k := k.(s := k.s.(current := c));
    }
  }

  /** The task's place at the end of its ready list, before its record says so. */
  function JoinedReady(s: Sched, t: nat): Sched
    requires Known(s, t)
  {
    var p := s.tcb[t].prio;
    s.(ready := s.ready[p := s.ready[p] + [t]], index := if s.ready[p] == [] then s.index[p := Some(t)] else s.index)
  }

  lemma RemovedReady(s: Sched, t: nat)
    requires Known(s, t)
    ensures var p := s.tcb[t].prio; var r := RemoveReady(s, t);
      && (t in s.ready[p] ==>
            && r.ready == s.ready[p := Without(s.ready[p], t)]
            && r.index == (if s.index[p] == Some(t) then s.index[p := CursorAfter(s.ready[p], t)] else s.index))
      && (t !in s.ready[p] ==> r == s) && r.tcb == s.tcb && r.sleeping == s.sleeping && r.current == s.current
  {
  }

  /** Where a task goes does not depend on its own wake-up time. */
  lemma PlaceSame(a: seq<Tcb>, b: seq<Tcb>, s: seq<nat>, t: nat, w: nat)
    requires |a| == |b| && t < |a| && t !in s && b == a[t := b[t]]
    ensures InsertPlace(a, s, w) == InsertPlace(b, s, w)
  {
    if s != [] {
      assert s[0] in s;
      PlaceFrame(a, b, s, 1, w);
    }
  }

  lemma SleepSize(s: Sched, t: nat)
    ensures forall w | t < |s.tcb| :: |AddSleeping(s, t, w).tcb| == |s.tcb|
  {
  }

  /** Where a task waits is where its call says. */
  lemma WaitsWhere(k: Kernel, t: nat)
    requires SyncInv(k) && t < |k.s.tcb|
    ensures var c := k.s.tcb[t].call;
      && (forall i | 0 <= i < |k.sems| && t in k.sems[i].waiters :: c.AwaitSem? && c.sem == i)
      && (forall i | 0 <= i < |k.mtxs| && t in k.mtxs[i].waiters :: c.AwaitMutex? && c.mtx == i)
    ensures (forall i | 0 <= i < |k.sems| :: t !in k.sems[i].waiters) && (forall i | 0 <= i < |k.mtxs| :: t !in k.mtxs[i].waiters) ==>
      LeaveWait(k, t) == k
  {
    assert forall i | 0 <= i < |k.sems| :: SemOk(k.s.tcb, k.sems[i], i);
    assert forall i | 0 <= i < |k.mtxs| :: MtxOk(k.s.tcb, k.mtxs[i], i);
  }
}
