/** One core's scheduler as a value: tasks, one ready list per priority with a round-robin
    cursor, and the list of tasks asleep until a tick. */
module Scheduler {
  import opened Sequences

  const NUM_PRIORITIES: nat := 6
  const IDLE: nat := 0

  datatype TaskState = Ready | Running | Blocked

  /** How a wait ended. */
  datatype Wake = Pending | Handoff | Timeout

  datatype Status = OK | TimedOut

  /** The kernel call a task is inside of, between two critical sections. */
  datatype Call =
    | NoCall
    | Delaying                                          // spinning in task_delay
    | Taking(sem: nat, timeout: int, deadline: nat)     // about to enter semaphore_take's loop body
    | AwaitSem(sem: nat, timeout: int, deadline: nat)   // spinning in semaphore_take
    | AwaitMutex(mtx: nat, timeout: int)                // spinning in mutex_lock

  /** A task control block.  `enqueued` (the priority when the wait began) and `wake` only
      record history; the kernel never reads them. */
  datatype Tcb = Tcb(
    state: TaskState, prio: nat, base: nat, held: nat, wakeup: nat, acquired: bool,
    call: Call, enqueued: nat, wake: Wake, result: Status)

  datatype Sched = Sched(
    tcb: seq<Tcb>,
    ready: seq<seq<nat>>,
    index: seq<Option<nat>>,
    sleeping: seq<nat>,            // blocked_task_list
    current: Option<nat>)

  predicate Sized(k: Sched) {
    |k.ready| == |k.index| == NUM_PRIORITIES
  }

  /** `t` is a task and its priority has a ready list. */
  predicate Known(k: Sched, t: nat) {
    Sized(k) && t < |k.tcb| && k.tcb[t].prio < NUM_PRIORITIES
  }

  function SetTask(k: Sched, t: nat, b: Tcb): Sched
    requires t < |k.tcb|
  {
    k.(tcb := k.tcb[t := b])
  }

  // ---------------------------------------------------------------- list operations

  /** scheduler_add_to_ready_list. */
  function AddReady(k: Sched, t: nat): Sched
    requires Known(k, t)
  {
    var p := k.tcb[t].prio;
    k.(ready := k.ready[p := k.ready[p] + [t]],
       index := if k.ready[p] == [] then k.index[p := Some(t)] else k.index,
       tcb := k.tcb[t := k.tcb[t].(state := Ready)])
  }

  /** Where the cursor goes when its task leaves list `s`: to the successor, else to the head. */
  function CursorAfter(s: seq<nat>, t: nat): Option<nat>
    requires t in s
  {
    var i := IndexOf(s, t);
    if i + 1 < |s| then Some(s[i + 1]) else if i > 0 then Some(s[0]) else None
  }

  /** scheduler_remove_from_ready_list; a task outside its ready list is left alone. */
  function RemoveReady(k: Sched, t: nat): Sched
    requires Known(k, t)
  {
    var p := k.tcb[t].prio;
    if t !in k.ready[p] then k
    else
      k.(ready := k.ready[p := Without(k.ready[p], t)],
         index := if k.index[p] == Some(t) then k.index[p := CursorAfter(k.ready[p], t)] else k.index)
  }

  function WakeupOf(tcb: seq<Tcb>, t: nat): nat { if t < |tcb| then tcb[t].wakeup else 0 }

  /** First place at or after `j` whose task wakes strictly later than `w`. */
  function PlaceAfter(tcb: seq<Tcb>, s: seq<nat>, j: nat, w: nat): (r: nat)
    requires j <= |s|
    ensures j <= r <= |s|
    ensures r < |s| ==> WakeupOf(tcb, s[r]) > w
    ensures forall i | j <= i < r :: WakeupOf(tcb, s[i]) <= w
    decreases |s| - j
  {
    if j < |s| && WakeupOf(tcb, s[j]) <= w then PlaceAfter(tcb, s, j + 1, w) else j
  }

  /** Where scheduler_add_to_blocked_list links in a task that wakes at `w`. */
  function InsertPlace(tcb: seq<Tcb>, s: seq<nat>, w: nat): (r: nat)
    ensures r <= |s|
  {
    if s == [] || w <= WakeupOf(tcb, s[0]) then 0 else PlaceAfter(tcb, s, 1, w)
  }

  /** scheduler_add_to_blocked_list. */
  function AddSleeping(k: Sched, t: nat, w: nat): Sched
    requires t < |k.tcb|
  {
    k.(sleeping := InsertAt(k.sleeping, InsertPlace(k.tcb, k.sleeping, w), t),
       tcb := k.tcb[t := k.tcb[t].(wakeup := w)])
  }

  /** scheduler_remove_from_blocked_list. */
  function RemoveSleeping(k: Sched, t: nat): Sched { k.(sleeping := Without(k.sleeping, t)) }

  /** scheduler_change_task_priority. */
  function ChangePriority(k: Sched, t: nat, p: nat): Sched
    requires Known(k, t) && p < NUM_PRIORITIES
  {
    var saved := k.tcb[t].state;
    if saved == Blocked then SetTask(k, t, k.tcb[t].(prio := p))
    else
      var out := RemoveReady(k, t);
      var moved := AddReady(SetTask(out, t, out.tcb[t].(prio := p)), t);
      SetTask(moved, t, moved.tcb[t].(state := saved))
  }

  /** A task leaves its ready list to wait, until tick `wakeup` if there is one. */
  function Park(k: Sched, t: nat, wakeup: Option<nat>): Sched
    requires Known(k, t)
  {
    var out := RemoveReady(k, t);
    var timed := if wakeup.Some? then AddSleeping(out, t, wakeup.value) else out;
    SetTask(timed, t, timed.tcb[t].(state := Blocked))
  }

  /** A waiting task goes back to the end of its ready list. */
  function Unpark(k: Sched, t: nat): Sched
    requires Known(k, t)
  {
    AddReady(RemoveSleeping(k, t), t)
  }

  /** The highest priority below `p` with a ready task. */
  function TopBelow(ready: seq<seq<nat>>, p: nat): (r: Option<nat>)
    requires p <= |ready|
    ensures r.Some? ==> r.value < p && ready[r.value] != []
    ensures forall q | (if r.Some? then r.value else -1) < q < p :: ready[q] == []
  {
    if p == 0 then None
    else if ready[p - 1] != [] then Some(p - 1)
    else TopBelow(ready, p - 1)
  }

  /** The cyclic successor of `t` in `s`. */
  function Successor(s: seq<nat>, t: nat): nat
    requires t in s
  {
    var i := IndexOf(s, t);
    if i + 1 < |s| then s[i + 1] else s[0]
  }

  /** A task that used up its quantum becomes READY and its list's cursor moves on. */
  function Yield(k: Sched): Sched
    requires Sized(k)
  {
    if k.current.Some? && Known(k, k.current.value) && k.tcb[k.current.value].state == Running then
      var c := k.current.value;
      var p := k.tcb[c].prio;
      var back := SetTask(k, c, k.tcb[c].(state := Ready));
      if k.index[p].Some? && k.index[p].value in k.ready[p]
      then back.(index := k.index[p := Some(Successor(k.ready[p], k.index[p].value))])
      else back
    else k
  }

  /** The highest non-empty ready list runs the task under its cursor. */
  function Pick(k: Sched): Sched
    requires Sized(k)
  {
    var top := TopBelow(k.ready, NUM_PRIORITIES);
    if top.None? then k.(current := None)
    else
      var next := k.index[top.value];
      if next.Some? && next.value < |k.tcb| then
        SetTask(k, next.value, k.tcb[next.value].(state := Running)).(current := next)
      else k
  }

  /** scheduler_switch_context. */
  function Switch(k: Sched): Sched
    requires Sized(k)
  {
    Pick(Yield(k))
  }

  // ---------------------------------------------------------------- invariant

  /** The ready list of priority `p`: only its own tasks, each once, none of them blocked, and
      a cursor that is a member exactly when the list is non-empty. */
  ghost predicate ReadyListOk(tcb: seq<Tcb>, s: seq<nat>, cursor: Option<nat>, p: nat) {
    && Distinct(s)
    && (forall t | t in s :: t < |tcb| && tcb[t].prio == p && tcb[t].state != Blocked)
    && (cursor.Some? <==> s != [])
    && (cursor.Some? ==> cursor.value in s)
  }

  ghost predicate Sorted(tcb: seq<Tcb>, s: seq<nat>) {
    forall i, j | 0 <= i < j < |s| :: WakeupOf(tcb, s[i]) <= WakeupOf(tcb, s[j])
  }

  ghost predicate SleepersOk(tcb: seq<Tcb>, s: seq<nat>) {
    && Distinct(s)
    && Sorted(tcb, s)
    && (forall t | t in s :: t < |tcb| && tcb[t].state == Blocked)
  }

  /** A legal priority, and a place in its ready list unless blocked. */
  ghost predicate Listed(k: Sched, t: nat)
    requires t < |k.tcb|
  {
    Known(k, t) && (k.tcb[t].state != Blocked ==> t in k.ready[k.tcb[t].prio])
  }

  /** Only the current task can be RUNNING. */
  ghost predicate OneRunning(k: Sched) {
    && (k.current.Some? ==> k.current.value < |k.tcb|)
    && forall t | 0 <= t < |k.tcb| && k.tcb[t].state == Running :: k.current == Some(t)
  }

  ghost predicate SchedInv(k: Sched) {
    && Sized(k)
    && (forall p | 0 <= p < NUM_PRIORITIES :: ReadyListOk(k.tcb, k.ready[p], k.index[p], p))
    && (forall t | 0 <= t < |k.tcb| :: Listed(k, t))
    && SleepersOk(k.tcb, k.sleeping)
    && OneRunning(k)
  }

  // ---------------------------------------------------------------- preservation

  lemma CursorAfterMember(s: seq<nat>, t: nat)
    requires Distinct(s) && t in s
    ensures CursorAfter(s, t).Some? <==> Without(s, t) != []
    ensures CursorAfter(s, t).Some? ==> CursorAfter(s, t).value in Without(s, t)
  {
    WithoutMembers(s, t);
    var i := IndexOf(s, t);
    if i + 1 < |s| { assert s[i + 1] in s && s[i + 1] != t; }
    else if i > 0 { assert s[0] in s && s[0] != t; }
    else { assert Without(s, t) == []; }
  }

  lemma SortedInsert(tcb: seq<Tcb>, s: seq<nat>, t: nat, w: nat)
    requires Sorted(tcb, s) && WakeupOf(tcb, t) == w
    ensures Sorted(tcb, InsertAt(s, InsertPlace(tcb, s, w), t))
  {
    var j := InsertPlace(tcb, s, w);
    var r := InsertAt(s, j, t);
    forall a, b | 0 <= a < b < |r| ensures WakeupOf(tcb, r[a]) <= WakeupOf(tcb, r[b]) {
      var a', b' := if a < j then a else a - 1, if b < j then b else b - 1;
      if a != j && b != j { assert r[a] == s[a'] && r[b] == s[b']; }
      else if a == j { assert r[b] == s[b'] && WakeupOf(tcb, s[j]) >= w; }
      else { assert r[a] == s[a'] && WakeupOf(tcb, s[0]) <= w; }
    }
  }

  /** Changing wake-up times outside `s` changes nothing for `s`. */
  lemma {:induction false} PlaceFrame(a: seq<Tcb>, b: seq<Tcb>, s: seq<nat>, j: nat, w: nat)
    requires j <= |s| && forall t | t in s :: WakeupOf(a, t) == WakeupOf(b, t)
    ensures PlaceAfter(a, s, j, w) == PlaceAfter(b, s, j, w)
    decreases |s| - j
  {
    if j < |s| { assert s[j] in s; if j < |s| && WakeupOf(a, s[j]) <= w { PlaceFrame(a, b, s, j + 1, w); } }
  }

  /** `b` gives every member of `s` the same wake-up time and blocked state as `a`. */
  ghost predicate SameSleepers(a: seq<Tcb>, b: seq<Tcb>, s: seq<nat>) {
    |a| == |b| && forall t | t in s :: t < |a| && b[t].wakeup == a[t].wakeup && b[t].state == a[t].state
  }

  lemma SleepersFrame(a: seq<Tcb>, b: seq<Tcb>, s: seq<nat>, w: nat)
    requires SleepersOk(a, s) && SameSleepers(a, b, s)
    ensures SleepersOk(b, s) && InsertPlace(a, s, w) == InsertPlace(b, s, w)
  {
    forall i | 0 <= i < |s| ensures WakeupOf(a, s[i]) == WakeupOf(b, s[i]) { assert s[i] in s; }
    if s != [] { PlaceFrame(a, b, s, 1, w); }
  }

  lemma SleepInsert(tcb: seq<Tcb>, b: seq<Tcb>, s: seq<nat>, t: nat, w: nat)
    requires SleepersOk(tcb, s) && t < |tcb| && t !in s
    requires SameSleepers(tcb, b, s) && b[t].wakeup == w && b[t].state == Blocked
    ensures SleepersOk(b, InsertAt(s, InsertPlace(tcb, s, w), t))
  {
    SleepersFrame(tcb, b, s, w);
    hide InsertPlace;
    InsertAtMembers(s, InsertPlace(tcb, s, w), t);
    SortedInsert(b, s, t, w);
  }

  // One lemma per kind of change to the ready lists.

  /** What a priority's list, its cursor and its tasks look like when task `t` moves. */
  lemma ReadyFrame(a: seq<Tcb>, b: seq<Tcb>, s: seq<nat>, cursor: Option<nat>, q: nat, t: nat)
    requires ReadyListOk(a, s, cursor, q) && t !in s
    requires |b| >= |a| && forall u | 0 <= u < |a| && u != t :: b[u].prio == a[u].prio && (b[u].state == Blocked <==> a[u].state == Blocked)
    ensures ReadyListOk(b, s, cursor, q)
  {
  }

  lemma ReadyRemove(a: seq<Tcb>, b: seq<Tcb>, s: seq<nat>, cursor: Option<nat>, q: nat, t: nat)
    requires ReadyListOk(a, s, cursor, q) && t in s
    requires |b| >= |a| && forall u | 0 <= u < |a| && u != t :: b[u].prio == a[u].prio && (b[u].state == Blocked <==> a[u].state == Blocked)
    ensures ReadyListOk(b, Without(s, t), if cursor == Some(t) then CursorAfter(s, t) else cursor, q)
  {
    WithoutMembers(s, t);
    CursorAfterMember(s, t);
  }

  lemma ReadyAppend(a: seq<Tcb>, b: seq<Tcb>, s: seq<nat>, cursor: Option<nat>, q: nat, t: nat)
    requires ReadyListOk(a, s, cursor, q) && t !in s
    requires |b| >= |a| && forall u | 0 <= u < |a| && u != t :: b[u].prio == a[u].prio && (b[u].state == Blocked <==> a[u].state == Blocked)
    requires t < |b| && b[t].prio == q && b[t].state != Blocked
    ensures ReadyListOk(b, s + [t], if s == [] then Some(t) else cursor, q)
  {
    AppendMembers(s, t);
  }

  /** A task is in no other priority's ready list. */
  lemma OnlyOwnList(k: Sched, t: nat, q: nat)
    requires SchedInv(k) && t < |k.tcb| && q < NUM_PRIORITIES && (q != k.tcb[t].prio || k.tcb[t].state == Blocked)
    ensures t !in k.ready[q]
  {
    assert ReadyListOk(k.tcb, k.ready[q], k.index[q], q);
  }

  /** Blocking keeps the lists consistent and the sleepers sorted. */
  lemma ParkKeeps(k: Sched, t: nat, wakeup: Option<nat>)
    requires SchedInv(k) && t < |k.tcb| && k.tcb[t].state != Blocked && Known(k, t)
    ensures SchedInv(Park(k, t, wakeup))
    ensures t !in k.sleeping
  {
    hide ReadyListOk, SleepersOk, InsertPlace;
    var p := k.tcb[t].prio;
    var r := Park(k, t, wakeup);
    assert Listed(k, t);
    NotAsleep(k, t);
    forall q | 0 <= q < NUM_PRIORITIES ensures ReadyListOk(r.tcb, r.ready[q], r.index[q], q) {
      assert ReadyListOk(k.tcb, k.ready[q], k.index[q], q);
      if q == p {
        ReadyRemove(k.tcb, r.tcb, k.ready[q], k.index[q], q, t);
      } else {
        OnlyOwnList(k, t, q);
        ReadyFrame(k.tcb, r.tcb, k.ready[q], k.index[q], q, t);
      }
    }
    ParkListed(k, t, wakeup);
    SleepersAre(k);
    if wakeup.Some? {
      SleepInsert(k.tcb, r.tcb, k.sleeping, t, wakeup.value);
    } else {
      SleepersFrame(k.tcb, r.tcb, k.sleeping, 0);
    }
  }

  lemma NotAsleep(k: Sched, t: nat)
    requires SchedInv(k) && t < |k.tcb| && k.tcb[t].state != Blocked
    ensures t !in k.sleeping
  {
  }

  lemma SleepersAre(k: Sched)
    requires SchedInv(k)
    ensures forall t | t in k.sleeping :: t < |k.tcb| && k.tcb[t].state == Blocked
  {
  }

  lemma ParkListed(k: Sched, t: nat, wakeup: Option<nat>)
    requires SchedInv(k) && Known(k, t)
    ensures var r := Park(k, t, wakeup); OneRunning(r) && forall u | 0 <= u < |r.tcb| :: Listed(r, u)
  {
    hide SleepersOk, InsertPlace;
    var r := Park(k, t, wakeup);
    var p := k.tcb[t].prio;
    assert ReadyListOk(k.tcb, k.ready[p], k.index[p], p);
    WithoutMembers(k.ready[p], t);
    hide ReadyListOk;
    forall u | 0 <= u < |r.tcb| ensures Listed(r, u) {
      assert Listed(k, u);
    }
  }

  /** Waking keeps them, too. */
  lemma UnparkKeeps(k: Sched, t: nat)
    requires SchedInv(k) && Known(k, t) && k.tcb[t].state == Blocked
    ensures SchedInv(Unpark(k, t))
    ensures forall u :: u in Unpark(k, t).sleeping <==> u in k.sleeping && u != t
  {
    hide ReadyListOk;
    var p := k.tcb[t].prio;
    var r := Unpark(k, t);
    WithoutMembers(k.sleeping, t);
    SleepRemove(k.tcb, k.sleeping, t);
    SleepersFrame(k.tcb, r.tcb, Without(k.sleeping, t), 0);
    hide SleepersOk;
    forall q | 0 <= q < NUM_PRIORITIES ensures ReadyListOk(r.tcb, r.ready[q], r.index[q], q) {
      assert ReadyListOk(k.tcb, k.ready[q], k.index[q], q);
      OnlyOwnList(k, t, q);
      if q == p {
        ReadyAppend(k.tcb, r.tcb, k.ready[q], k.index[q], q, t);
      } else {
        ReadyFrame(k.tcb, r.tcb, k.ready[q], k.index[q], q, t);
      }
    }
    forall u | 0 <= u < |r.tcb| ensures Listed(r, u) {
      assert Listed(k, u);
    }
  }

  lemma SortedRemoveAt(tcb: seq<Tcb>, s: seq<nat>, i: nat)
    requires Sorted(tcb, s) && i < |s|
    ensures Sorted(tcb, RemoveAt(s, i))
  {
    hide WakeupOf;
    var w := RemoveAt(s, i);
    forall a, b | 0 <= a < b < |w| ensures WakeupOf(tcb, w[a]) <= WakeupOf(tcb, w[b]) {
      var a', b' := if a < i then a else a + 1, if b < i then b else b + 1;
      assert w[a] == s[a'] && w[b] == s[b'];
    }
  }

  lemma SleepRemove(tcb: seq<Tcb>, s: seq<nat>, t: nat)
    requires SleepersOk(tcb, s)
    ensures SleepersOk(tcb, Without(s, t))
  {
    if t in s { SortedRemoveAt(tcb, s, IndexOf(s, t)); }
    WithoutMembers(s, t);
    hide Distinct, Sorted, RemoveAt;
  }

  /** Moving a task between priorities keeps them; nothing but its priority and place changes. */
  lemma ChangePriorityKeeps(k: Sched, t: nat, p: nat)
    requires SchedInv(k) && Known(k, t) && p < NUM_PRIORITIES
    ensures SchedInv(ChangePriority(k, t, p))
    ensures ChangePriority(k, t, p).tcb == k.tcb[t := k.tcb[t].(prio := p)]
    ensures ChangePriority(k, t, p).sleeping == k.sleeping && ChangePriority(k, t, p).current == k.current
  {
    hide ReadyListOk;
    var r := ChangePriority(k, t, p);
    var old_p := k.tcb[t].prio;
    assert Listed(k, t);
    assert r.tcb == k.tcb[t := k.tcb[t].(prio := p)];
    SleepersFrame(k.tcb, r.tcb, k.sleeping, 0);
    hide SleepersOk;
    forall q | 0 <= q < NUM_PRIORITIES ensures ReadyListOk(r.tcb, r.ready[q], r.index[q], q) {
      assert ReadyListOk(k.tcb, k.ready[q], k.index[q], q);
      ChangeOneList(k, t, p, q);
    }
    ChangeListed(k, t, p);
  }

  lemma ChangeOneList(k: Sched, t: nat, p: nat, q: nat)
    requires SchedInv(k) && Known(k, t) && p < NUM_PRIORITIES && q < NUM_PRIORITIES
    ensures var r := ChangePriority(k, t, p); ReadyListOk(r.tcb, r.ready[q], r.index[q], q)
  {
    var r := ChangePriority(k, t, p);
    assert ReadyListOk(k.tcb, k.ready[q], k.index[q], q) && Listed(k, t);
    hide ReadyListOk, SleepersOk;
    var old_p := k.tcb[t].prio;
    if k.tcb[t].state == Blocked || (q != old_p && q != p) {
      OnlyOwnList(k, t, q);
      ReadyFrame(k.tcb, r.tcb, k.ready[q], k.index[q], q, t);
    } else if q == old_p && q != p {
      ReadyRemove(k.tcb, r.tcb, k.ready[q], k.index[q], q, t);
    } else if q != old_p {
      OnlyOwnList(k, t, q);
      ReadyAppend(k.tcb, r.tcb, k.ready[q], k.index[q], q, t);
    } else {
      var out := RemoveReady(k, t);
      ReadyRemove(k.tcb, r.tcb, k.ready[q], k.index[q], q, t);
      SameListBack(k, t, r.tcb);
    }
  }

  /** Removing a task and appending it again within one list. */
  lemma SameListBack(k: Sched, t: nat, b: seq<Tcb>)
    requires SchedInv(k) && Known(k, t) && k.tcb[t].state != Blocked && b == k.tcb
    ensures var out := RemoveReady(k, t); var p := k.tcb[t].prio;
      ReadyListOk(b, out.ready[p] + [t], if out.ready[p] == [] then Some(t) else out.index[p], p)
  {
    var p := k.tcb[t].prio;
    assert ReadyListOk(k.tcb, k.ready[p], k.index[p], p) && Listed(k, t);
    ReadyRemove(k.tcb, k.tcb, k.ready[p], k.index[p], p, t);
    WithoutMembers(k.ready[p], t);
    var out := RemoveReady(k, t);
    ReadyAppend(k.tcb, b, out.ready[p], out.index[p], p, t);
  }

  /** The effect of a priority change, in one piece. */
  lemma ChangedLists(k: Sched, t: nat, p: nat)
    requires Known(k, t) && p < NUM_PRIORITIES
    requires k.tcb[t].state != Blocked ==> t in k.ready[k.tcb[t].prio]
    ensures var r := ChangePriority(k, t, p);
      && r.tcb == k.tcb[t := k.tcb[t].(prio := p)] && r.current == k.current && r.sleeping == k.sleeping
      && r.ready == if k.tcb[t].state == Blocked then k.ready
                    else var out := k.ready[k.tcb[t].prio := Without(k.ready[k.tcb[t].prio], t)]; out[p := out[p] + [t]]
  {
  }

  lemma ChangeListed(k: Sched, t: nat, p: nat)
    requires SchedInv(k) && Known(k, t) && p < NUM_PRIORITIES
    ensures var r := ChangePriority(k, t, p); OneRunning(r) && forall u | 0 <= u < |r.tcb| :: Listed(r, u)
  {
    var r := ChangePriority(k, t, p);
    ListDistinct(k, k.tcb[t].prio);
    WithoutMembers(k.ready[k.tcb[t].prio], t);
    assert Listed(k, t);
    ChangedLists(k, t, p);
    hide ReadyListOk, SleepersOk, Distinct, Without, ChangePriority;
    forall u | 0 <= u < |r.tcb| ensures Listed(r, u) {
      assert Listed(k, u);
    }
  }

  // ---------------------------------------------------------------- context switches

  /** `b` differs from `a` only in which unblocked tasks are READY or RUNNING. */
  ghost predicate SameButRunning(a: seq<Tcb>, b: seq<Tcb>) {
    |a| == |b| && forall t | 0 <= t < |a| :: b[t] == a[t].(state := b[t].state) && (b[t].state == Blocked <==> a[t].state == Blocked)
  }

  ghost predicate NoneRunning(tcb: seq<Tcb>) { forall t | 0 <= t < |tcb| :: tcb[t].state != Running }

  lemma YieldKeeps(k: Sched)
    requires SchedInv(k)
    ensures SchedInv(Yield(k)) && NoneRunning(Yield(k).tcb)
    ensures Yield(k).ready == k.ready && Yield(k).sleeping == k.sleeping && SameButRunning(k.tcb, Yield(k).tcb)
  {
    var y := Yield(k);
    if k.current.Some? && k.tcb[k.current.value].state == Running {
      assert Listed(k, k.current.value);
    }
    assert SameButRunning(k.tcb, y.tcb);
    SleepersFrame(k.tcb, y.tcb, k.sleeping, 0);
    hide SleepersOk;
    forall q | 0 <= q < NUM_PRIORITIES ensures ReadyListOk(y.tcb, y.ready[q], y.index[q], q) {
      assert ReadyListOk(k.tcb, k.ready[q], k.index[q], q);
    }
    hide ReadyListOk;
    forall t | 0 <= t < |y.tcb| ensures Listed(y, t) { assert Listed(k, t); }
  }

  lemma PickKeeps(y: Sched)
    requires SchedInv(y) && NoneRunning(y.tcb)
    ensures SchedInv(Pick(y))
    ensures Pick(y).ready == y.ready && Pick(y).sleeping == y.sleeping && Pick(y).index == y.index
    ensures SameButRunning(y.tcb, Pick(y).tcb)
    ensures Pick(y).current == (var top := TopBelow(y.ready, NUM_PRIORITIES); if top.Some? then y.index[top.value] else None)
  {
    var r := Pick(y);
    var top := TopBelow(y.ready, NUM_PRIORITIES);
    if top.Some? {
      assert ReadyListOk(y.tcb, y.ready[top.value], y.index[top.value], top.value);
    }
    assert SameButRunning(y.tcb, r.tcb);
    SleepersFrame(y.tcb, r.tcb, y.sleeping, 0);
    hide SleepersOk;
    forall q | 0 <= q < NUM_PRIORITIES ensures ReadyListOk(r.tcb, r.ready[q], r.index[q], q) {
      assert ReadyListOk(y.tcb, y.ready[q], y.index[q], q);
    }
    hide ReadyListOk;
    forall t | 0 <= t < |r.tcb| ensures Listed(r, t) { assert Listed(y, t); }
  }

  /** A context switch keeps the lists and only moves the RUNNING mark. */
  lemma SwitchKeeps(k: Sched)
    requires SchedInv(k)
    ensures SchedInv(Switch(k))
    ensures Switch(k).ready == k.ready && Switch(k).sleeping == k.sleeping && SameButRunning(k.tcb, Switch(k).tcb)
  {
    YieldKeeps(k);
    PickKeeps(Yield(k));
  }

  /** Whenever some task is not blocked, the switch runs one, and none of higher priority is
      passed over. */
  lemma SwitchPicksHighest(k: Sched, t: nat)
    requires SchedInv(k) && t < |k.tcb| && k.tcb[t].state != Blocked
    ensures var r := Switch(k);
      && r.current.Some? && r.current.value < |r.tcb|
      && r.tcb[r.current.value].state == Running
      && r.tcb[r.current.value].prio >= k.tcb[t].prio
  {
    YieldKeeps(k);
    PickKeeps(Yield(k));
    var y := Yield(k);
    var top := TopBelow(y.ready, NUM_PRIORITIES);
    assert Listed(k, t) && k.ready[k.tcb[t].prio] != [];
    assert ReadyListOk(y.tcb, y.ready[top.value], y.index[top.value], top.value);
  }

  // ---------------------------------------------------------------- round robin

  /** Between two switches anything may happen that leaves the ready lists, their cursors and
      the current task alone. */
  ghost predicate Undisturbed(a: Sched, b: Sched) {
    && b.ready == a.ready && b.index == a.index && b.current == a.current && |b.tcb| == |a.tcb|
    && (a.current.Some? && a.current.value < |a.tcb| ==>
          b.tcb[a.current.value].state == a.tcb[a.current.value].state && b.tcb[a.current.value].prio == a.tcb[a.current.value].prio)
  }

  ghost predicate SwitchAt(ks: seq<Sched>, i: nat)
    requires 0 < i < |ks|
  {
    exists k :: SchedInv(k) && Undisturbed(ks[i - 1], k) && ks[i] == Switch(k)
  }

  /** `ks[i]` is the state just after switch number `i`; `ks[0]` is where the run starts. */
  ghost predicate SwitchRun(ks: seq<Sched>) {
    && |ks| > 0
    && (forall i | 0 <= i < |ks| :: SchedInv(ks[i]))
    && forall i | 0 < i < |ks| :: SwitchAt(ks, i)
  }

  /** The current task is RUNNING at the cursor of the highest non-empty list. */
  ghost predicate RunsTop(k: Sched, p: nat) {
    && Sized(k) && TopBelow(k.ready, NUM_PRIORITIES) == Some(p)
    && k.current.Some? && k.current == k.index[p] && k.current.value in k.ready[p]
    && k.current.value < |k.tcb| && k.tcb[k.current.value].state == Running && k.tcb[k.current.value].prio == p
  }

  lemma SwitchRunsTop(k: Sched, p: nat)
    requires SchedInv(k) && TopBelow(k.ready, NUM_PRIORITIES) == Some(p)
    ensures RunsTop(Switch(k), p) && Switch(k).ready == k.ready
  {
    YieldKeeps(k);
    PickKeeps(Yield(k));
    var y := Yield(k);
    assert ReadyListOk(y.tcb, y.ready[p], y.index[p], p);
  }

  lemma SwitchAdvances(a: Sched, k: Sched, p: nat)
    requires RunsTop(a, p) && Undisturbed(a, k) && SchedInv(k)
    ensures Switch(k).current == Some(Successor(a.ready[p], a.current.value))
  {
    YieldKeeps(k);
    PickKeeps(Yield(k));
  }

  /** `i` places after `first` around a circle of `n`. */
  function Turn(first: nat, i: nat, n: nat): nat
    requires first < n && i < n
  {
    if first + i < n then first + i else first + i - n
  }

  lemma TurnNext(s: seq<nat>, first: nat, i: nat)
    requires Distinct(s) && first < |s| && i + 1 < |s|
    ensures Successor(s, s[Turn(first, i, |s|)]) == s[Turn(first, i + 1, |s|)]
  {
    IndexOfDistinct(s, Turn(first, i, |s|));
  }

  /** Every state of the run after the first switch has the top list's task at its cursor. */
  lemma RunStaysOnTop(ks: seq<Sched>, p: nat, i: nat)
    requires SwitchRun(ks) && TopBelow(ks[0].ready, NUM_PRIORITIES) == Some(p) && i < |ks|
    ensures ks[i].ready == ks[0].ready && (i > 0 ==> RunsTop(ks[i], p))
  {
    if i > 0 {
      RunStaysOnTop(ks, p, i - 1);
      hide Switch, TopBelow, SchedInv, RunsTop;
      assert SwitchAt(ks, i);
      var k :| SchedInv(k) && Undisturbed(ks[i - 1], k) && ks[i] == Switch(k);
      SwitchRunsTop(k, p);
    }
  }

  lemma RunStep(ks: seq<Sched>, p: nat, i: nat)
    requires SwitchRun(ks) && TopBelow(ks[0].ready, NUM_PRIORITIES) == Some(p) && 0 < i < |ks| - 1
    ensures ks[i].current.Some? && ks[i].current.value in ks[0].ready[p]
    ensures ks[i + 1].current == Some(Successor(ks[0].ready[p], ks[i].current.value))
  {
    RunStaysOnTop(ks, p, i);
    hide Switch, TopBelow, SchedInv, Successor;
    assert SwitchAt(ks, i + 1);
    var k :| SchedInv(k) && Undisturbed(ks[i], k) && ks[i + 1] == Switch(k);
    SwitchAdvances(ks[i], k, p);
  }

  lemma RunPositions(ks: seq<Sched>, p: nat, first: nat, i: nat)
    requires SwitchRun(ks) && TopBelow(ks[0].ready, NUM_PRIORITIES) == Some(p)
    requires i + 1 < |ks| && i < |ks[0].ready[p]| && first < |ks[0].ready[p]|
    requires ks[1].current == Some(ks[0].ready[p][first])
    ensures ks[i + 1].current == Some(ks[0].ready[p][Turn(first, i, |ks[0].ready[p]|)])
  {
    ListDistinct(ks[0], p);
    hide SwitchRun, TopBelow, SchedInv, Distinct;
    if i > 0 {
      RunPositions(ks, p, first, i - 1);
      hide Turn, Successor;
      RunStep(ks, p, i);
      TurnNext(ks[0].ready[p], first, i - 1);
    } else {
      assert Turn(first, 0, |ks[0].ready[p]|) == first;
    }
  }

  lemma ListDistinct(k: Sched, p: nat)
    requires SchedInv(k) && p < NUM_PRIORITIES
    ensures Distinct(k.ready[p])
  {
    assert ReadyListOk(k.tcb, k.ready[p], k.index[p], p);
  }

  lemma TurnHits(first: nat, m: nat, n: nat) returns (i: nat)
    requires first < n && m < n
    ensures i < n && Turn(first, i, n) == m
    ensures forall j | 0 <= j < n && Turn(first, j, n) == m :: j == i
  {
    i := if m >= first then m - first else m + n - first;
  }

  /** Round robin: while the ready lists stay as they are, any |s| consecutive switches run each
      task of the top list `s` exactly once — wherever the cursor stood, and whatever was
      running (a boosted task, say, far from the cursor) when they began. */
  lemma RoundRobin(ks: seq<Sched>, p: nat, t: nat) returns (i: nat)
    requires SwitchRun(ks) && TopBelow(ks[0].ready, NUM_PRIORITIES) == Some(p)
    requires |ks| == 1 + |ks[0].ready[p]| && t in ks[0].ready[p]
    ensures 1 <= i < |ks| && ks[i].current == Some(t)
    ensures forall j | 1 <= j < |ks| && ks[j].current == Some(t) :: j == i
  {
    var s := ks[0].ready[p];
    ListDistinct(ks[0], p);
    RunStaysOnTop(ks, p, 1);
    hide RunsTop, SchedInv, TopBelow, Switch, Undisturbed;
    var first := IndexOf(s, ks[1].current.value);
    var a := TurnHits(first, IndexOf(s, t), |s|);
    RunPositions(ks, p, first, a);
    i := a + 1;
    forall j | 1 <= j < |ks| && ks[j].current == Some(t) ensures j == i {
      RunPositions(ks, p, first, j - 1);
      IndexOfDistinct(s, Turn(first, j - 1, |s|));
    }
  }
}
