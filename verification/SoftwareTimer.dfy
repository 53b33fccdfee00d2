/** Software timers as values: the list of armed timers sorted by expiry, the list of expired ones
    waiting for the service task, and the semaphore between the tick and that task. */
module SoftwareTimer {
  import opened Sequences

  datatype ListId = NoList | BlockedList | ActiveList

  /** `base` and `fired` only record history: the expiry at which the timer was last armed by its
      user, and the re-arms since. */
  datatype Timer = Timer(expiry: nat, period: nat, periodic: bool, listId: ListId, base: nat, fired: nat)

  /** `taken`: the service task holds a token and has not looked at the active list yet.
      `inHand`: the timer it took off, until it is re-armed or dropped. */
  datatype Timers = Timers(
    now: nat, timer: seq<Timer>, blocked: seq<nat>, active: seq<nat>,
    pending: nat, taken: bool, inHand: Option<nat>)

  datatype Act =
    | Create(id: nat, period: nat, periodic: bool, running: bool)
    | Stop(id: nat)
    | Restart(id: nat)        // software_timer_reset
    | Tick
    | Take                    // the service task's semaphore_take returns
    | Pop                     // it takes the head of the active list
    | Rearm                   // after the callback

  function ExpiryOf(timer: seq<Timer>, t: nat): nat { if t < |timer| then timer[t].expiry else 0 }

  /** First place at or after `j` whose timer expires strictly later than `e`. */
  function PlaceFrom(timer: seq<Timer>, s: seq<nat>, j: nat, e: nat): (r: nat)
    requires j <= |s|
    ensures j <= r <= |s|
    ensures r < |s| ==> ExpiryOf(timer, s[r]) > e
    ensures forall i | j <= i < r :: ExpiryOf(timer, s[i]) <= e
    decreases |s| - j
  {
    if j < |s| && ExpiryOf(timer, s[j]) <= e then PlaceFrom(timer, s, j + 1, e) else j
  }

  /** Where software_timer_add_to_blocked_list links in a timer that expires at `e`. */
  function Place(timer: seq<Timer>, s: seq<nat>, e: nat): (r: nat)
    ensures r <= |s|
  {
    if s == [] || e < ExpiryOf(timer, s[0]) then 0 else PlaceFrom(timer, s, 1, e)
  }

  function SetTimer(k: Timers, t: nat, x: Timer): Timers
    requires t < |k.timer|
  {
    k.(timer := k.timer[t := x])
  }

  /** software_timer_add_to_blocked_list, the expiry set just before. */
  function Arm(k: Timers, t: nat, x: Timer): Timers
    requires t < |k.timer|
  {
    var noted := SetTimer(k, t, x.(listId := BlockedList));
    noted.(blocked := InsertAt(k.blocked, Place(noted.timer, k.blocked, x.expiry), t))
  }

  function Unlinked(k: Timers, t: nat): Timers
    requires t < |k.timer|
  {
    match k.timer[t].listId
    case BlockedList => k.(blocked := Without(k.blocked, t))
    case ActiveList => k.(active := Without(k.active, t))
    case NoList => k
  }

  /** software_timer_create writes the record whatever list the timer is on.  Of a timer that is
      on one the value only shows that tags and lists no longer agree; what becomes of the links
      then is the linked lists' affair. */
  function DoCreate(k: Timers, t: nat, period: nat, periodic: bool, running: bool): Timers
    requires t < |k.timer|
  {
    if period == 0 then k
    else
      var e := k.now + period;
      if running then Arm(k, t, Timer(e, period, periodic, NoList, e, 0))
      else SetTimer(k, t, Timer(0, period, periodic, NoList, 0, 0))
  }

  function DoStop(k: Timers, t: nat): Timers
    requires t < |k.timer|
  {
    SetTimer(Unlinked(k, t), t, k.timer[t].(listId := NoList))
  }

  function DoRestart(k: Timers, t: nat): Timers
    requires t < |k.timer|
  {
    var e := k.now + k.timer[t].period;
    Arm(Unlinked(k, t), t, k.timer[t].(expiry := e, base := e, fired := 0))
  }

  /** software_timer_pop_to_active of the head, and the semaphore_give after it. */
  function Expire(k: Timers): Timers
    requires k.blocked != [] && k.blocked[0] < |k.timer|
  {
    var t := k.blocked[0];
    SetTimer(k, t, k.timer[t].(listId := ActiveList)).(blocked := k.blocked[1..], active := [t] + k.active, pending := k.pending + 1)
  }

  function ExpireAll(k: Timers): Timers
    decreases |k.blocked|
  {
    if k.blocked != [] && k.blocked[0] < |k.timer| && k.timer[k.blocked[0]].expiry <= k.now then ExpireAll(Expire(k)) else k
  }

  function DoTick(k: Timers): Timers { ExpireAll(k.(now := k.now + 1)) }

  function DoPop(k: Timers): Timers
    requires k.active != [] ==> k.active[0] < |k.timer|
  {
    if k.active == [] then k.(taken := false)
    else
      var t := k.active[0];
      SetTimer(k, t, k.timer[t].(listId := NoList)).(active := k.active[1..], taken := false, inHand := Some(t))
  }

  function DoRearm(k: Timers, t: nat): Timers
    requires t < |k.timer|
  {
    var x := k.timer[t];
    if x.periodic then Arm(k, t, x.(expiry := x.expiry + x.period, fired := x.fired + 1)).(inHand := None)
    else k.(inHand := None)
  }

  // ---------------------------------------------------------------- invariant

  ghost predicate Sorted(timer: seq<Timer>, s: seq<nat>) {
    forall i, j | 0 <= i < j < |s| :: ExpiryOf(timer, s[i]) <= ExpiryOf(timer, s[j])
  }

  /** Each timer is on the list its tag names and on no other, at most once. */
  ghost predicate ListsOk(timer: seq<Timer>, blocked: seq<nat>, active: seq<nat>) {
    && Distinct(blocked) && Distinct(active)
    && (forall t | t in blocked :: t < |timer| && timer[t].listId == BlockedList)
    && (forall t | t in active :: t < |timer| && timer[t].listId == ActiveList)
    && (forall t | 0 <= t < |timer| && timer[t].listId == BlockedList :: t in blocked)
    && (forall t | 0 <= t < |timer| && timer[t].listId == ActiveList :: t in active)
  }

  /** Expiries count whole periods from where the timer was armed. */
  predicate OnGrid(x: Timer) { Grid(x.expiry, x.base, x.fired, x.period) }

  predicate Grid(expiry: nat, base: nat, fired: nat, period: nat) { expiry == base + fired * period }

  ghost predicate TimersInv(k: Timers) {
    && ListsOk(k.timer, k.blocked, k.active)
    && Sorted(k.timer, k.blocked)
    && (k.inHand.Some? ==> k.inHand.value < |k.timer| && !k.taken)
    && (k.inHand.Some? && k.timer[k.inHand.value].periodic ==> k.timer[k.inHand.value].listId == NoList)
    && k.pending + (if k.taken then 1 else 0) >= |k.active|
    && (forall t | 0 <= t < |k.timer| :: OnGrid(k.timer[t]))
  }

  /** When an act can happen at all. */
  predicate Possible(k: Timers, a: Act) {
    match a
    case Create(t, _, _, _) => t < |k.timer|
    case Stop(t) => t < |k.timer|
    case Restart(t) => t < |k.timer|
    case Tick => true
    case Take => k.pending > 0 && !k.taken && k.inHand == None
    case Pop => k.taken && (k.active != [] ==> k.active[0] < |k.timer|)
    case Rearm => k.inHand.Some? && k.inHand.value < |k.timer|
  }

  /** The act creates a timer anew that is still on a list. */
  predicate CreatesLinked(k: Timers, a: Act) {
    a.Create? && a.period != 0 && a.id < |k.timer| && k.timer[a.id].listId != NoList
  }

  /** The act arms a timer that the service task, having it in hand, is going to arm again. */
  predicate ArmsInHand(k: Timers, a: Act) {
    match a
    case Create(t, period, periodic, running) => k.inHand == Some(t) && periodic && running && period != 0
    case Restart(t) => k.inHand == Some(t) && t < |k.timer| && k.timer[t].periodic
    case _ => false
  }

  /** What callers owe. */
  predicate Allowed(k: Timers, a: Act) { Possible(k, a) && !CreatesLinked(k, a) && !ArmsInHand(k, a) }

  function Step(k: Timers, a: Act): Timers
    requires Possible(k, a)
  {
    match a
    case Create(t, period, periodic, running) => DoCreate(k, t, period, periodic, running)
    case Stop(t) => DoStop(k, t)
    case Restart(t) => DoRestart(k, t)
    case Tick => DoTick(k)
    case Take => k.(pending := k.pending - 1, taken := true)
    case Pop => DoPop(k)
    case Rearm => DoRearm(k, k.inHand.value)
  }

  // ---------------------------------------------------------------- preservation

  lemma {:induction false} PlaceFrame(a: seq<Timer>, b: seq<Timer>, s: seq<nat>, j: nat, e: nat)
    requires j <= |s| && forall t | t in s :: ExpiryOf(a, t) == ExpiryOf(b, t)
    ensures PlaceFrom(a, s, j, e) == PlaceFrom(b, s, j, e)
    decreases |s| - j
  {
    if j < |s| {
      assert s[j] in s;
      if ExpiryOf(a, s[j]) <= e { PlaceFrame(a, b, s, j + 1, e); }
    }
  }

  lemma SortedInsert(timer: seq<Timer>, s: seq<nat>, t: nat, e: nat)
    requires Sorted(timer, s) && ExpiryOf(timer, t) == e
    ensures Sorted(timer, InsertAt(s, Place(timer, s, e), t))
  {
    var j := Place(timer, s, e);
    assert forall i | 0 <= i < j :: ExpiryOf(timer, s[i]) <= e;
    assert j < |s| ==> e <= ExpiryOf(timer, s[j]);
    hide Place, ExpiryOf;
    var r := InsertAt(s, j, t);
    forall a, b | 0 <= a < b < |r| ensures ExpiryOf(timer, r[a]) <= ExpiryOf(timer, r[b]) {
      var a', b' := if a < j then a else a - 1, if b < j then b else b - 1;
      if a != j && b != j { assert r[a] == s[a'] && r[b] == s[b']; }
      else if a == j { assert r[b] == s[b'] && r[a] == t; }
      else { assert r[a] == s[a'] && r[b] == t; }
    }
  }

  lemma SortedFrame(a: seq<Timer>, b: seq<Timer>, s: seq<nat>)
    requires Sorted(a, s) && forall t | t in s :: ExpiryOf(b, t) == ExpiryOf(a, t)
    ensures Sorted(b, s)
  {
    forall i, j | 0 <= i < j < |s| ensures ExpiryOf(b, s[i]) <= ExpiryOf(b, s[j]) { assert s[i] in s && s[j] in s; }
  }

  lemma SortedRemoveAt(timer: seq<Timer>, s: seq<nat>, i: nat)
    requires Sorted(timer, s) && i < |s|
    ensures Sorted(timer, RemoveAt(s, i))
  {
    var w := RemoveAt(s, i);
    forall a, b | 0 <= a < b < |w| ensures ExpiryOf(timer, w[a]) <= ExpiryOf(timer, w[b]) {
      var a', b' := if a < i then a else a + 1, if b < i then b else b + 1;
      assert w[a] == s[a'] && w[b] == s[b'];
    }
  }

  lemma SortedWithout(timer: seq<Timer>, s: seq<nat>, t: nat)
    requires Sorted(timer, s)
    ensures Sorted(timer, Without(s, t))
  {
    if t in s { SortedRemoveAt(timer, s, IndexOf(s, t)); }
  }

  /** Arming an unlinked timer keeps both lists in order. */
  lemma ArmKeeps(k: Timers, t: nat, x: Timer)
    requires ListsOk(k.timer, k.blocked, k.active) && Sorted(k.timer, k.blocked) && t < |k.timer| && t !in k.blocked && t !in k.active
    ensures var r := Arm(k, t, x); ListsOk(r.timer, r.blocked, r.active) && Sorted(r.timer, r.blocked)
    ensures var r := Arm(k, t, x); r == k.(timer := k.timer[t := x.(listId := BlockedList)], blocked := r.blocked)
  {
    hide Place, InsertAt, Sorted;
    var r := Arm(k, t, x);
    InsertAtMembers(k.blocked, Place(r.timer, k.blocked, x.expiry), t);
    SortedFrame(k.timer, r.timer, k.blocked);
    SortedInsert(r.timer, k.blocked, t, x.expiry);
  }

  /** Taking a timer off by its tag is taking it off both lists. */
  lemma {:induction false} UnlinkShape(k: Timers, t: nat)
    requires ListsOk(k.timer, k.blocked, k.active) && t < |k.timer|
    ensures Unlinked(k, t) == k.(blocked := Without(k.blocked, t), active := Without(k.active, t))
  {
    hide Distinct, RemoveAt, IndexOf;
  }

  lemma {:induction false} ListsWithout(timer: seq<Timer>, blocked: seq<nat>, active: seq<nat>, t: nat)
    requires ListsOk(timer, blocked, active) && t < |timer|
    ensures ListsOk(timer[t := timer[t].(listId := NoList)], Without(blocked, t), Without(active, t))
    ensures t !in Without(blocked, t) && t !in Without(active, t)
  {
    hide Without;
    WithoutMembers(blocked, t);
    WithoutMembers(active, t);
    hide Distinct;
  }

  /** A timer taken off its list is on none. */
  lemma UnlinkLists(k: Timers, t: nat)
    requires ListsOk(k.timer, k.blocked, k.active) && t < |k.timer|
    ensures var r := SetTimer(Unlinked(k, t), t, k.timer[t].(listId := NoList));
      && ListsOk(r.timer, r.blocked, r.active) && t !in r.blocked && t !in r.active && |r.active| <= |k.active|
      && r.blocked == Without(k.blocked, t) && r.active == Without(k.active, t)
  {
    hide Without, ListsOk, Unlinked;
    UnlinkShape(k, t);
    ListsWithout(k.timer, k.blocked, k.active, t);
    WithoutShorter(k.active, t);
  }

  lemma UnlinkKeeps(k: Timers, t: nat)
    requires ListsOk(k.timer, k.blocked, k.active) && Sorted(k.timer, k.blocked) && t < |k.timer|
    ensures var r := SetTimer(Unlinked(k, t), t, k.timer[t].(listId := NoList));
      && ListsOk(r.timer, r.blocked, r.active) && Sorted(r.timer, r.blocked) && t !in r.blocked && t !in r.active && |r.active| <= |k.active|
  {
    hide Without, Sorted;
    var r := SetTimer(Unlinked(k, t), t, k.timer[t].(listId := NoList));
    UnlinkLists(k, t);
    SortedWithout(k.timer, k.blocked, t);
    SortedFrame(k.timer, r.timer, r.blocked);
  }

  lemma WithoutShorter(s: seq<nat>, t: nat)
    ensures |Without(s, t)| <= |s|
  {
  }

  lemma GridStart(e: nat, period: nat)
    ensures Grid(e, e, 0, period)
  {
  }

  lemma CreateKeeps(k: Timers, t: nat, period: nat, periodic: bool, running: bool)
    requires TimersInv(k) && Allowed(k, Create(t, period, periodic, running))
    ensures TimersInv(DoCreate(k, t, period, periodic, running))
  {
    var e := k.now + period;
    hide Sorted, Place, Grid;
    assert Grid(e, e, 0, period) && Grid(0, 0, 0, period) by { GridStart(e, period); GridStart(0, period); }
    if period > 0 {
      ArmKeeps(k, t, Timer(e, period, periodic, NoList, e, 0));
      hide Arm;
      if !running { SortedFrame(k.timer, DoCreate(k, t, period, periodic, running).timer, k.blocked); }
    }
  }

  lemma StopKeeps(k: Timers, t: nat)
    requires TimersInv(k) && Allowed(k, Stop(t))
    ensures TimersInv(DoStop(k, t))
  {
    UnlinkKeeps(k, t);
    hide Sorted, Without, Grid;
  }

  lemma RestartKeeps(k: Timers, t: nat)
    requires TimersInv(k) && Allowed(k, Restart(t))
    ensures TimersInv(DoRestart(k, t))
  {
    hide Sorted, Without, Place, Grid;
    UnlinkKeeps(k, t);
    var e := k.now + k.timer[t].period;
    GridStart(e, k.timer[t].period);
    var off := DoStop(k, t);
    ArmKeeps(off, t, k.timer[t].(expiry := e, base := e, fired := 0));
    RestartIsArm(k, t);
    hide Arm, DoRestart, DoStop, Unlinked;
  }

  /** Resetting is stopping and arming. */
  lemma RestartIsArm(k: Timers, t: nat)
    requires t < |k.timer|
    ensures var e := k.now + k.timer[t].period; DoRestart(k, t) == Arm(DoStop(k, t), t, k.timer[t].(expiry := e, base := e, fired := 0))
  {
    hide Place, Without;
    var x := k.timer[t].(expiry := k.now + k.timer[t].period, base := k.now + k.timer[t].period, fired := 0, listId := BlockedList);
    assert DoStop(k, t).timer[t := x] == k.timer[t := x];
  }

  /** The head moves from the blocked to the active list, and one token is given. */
  lemma ExpireKeeps(k: Timers)
    requires TimersInv(k) && k.blocked != []
    ensures k.blocked[0] < |k.timer| && TimersInv(Expire(k))
  {
    hide Grid;
    var t := k.blocked[0];
    assert t in k.blocked;
    var r := Expire(k);
    MoveHead(k.timer, k.blocked, k.active);
    SortedRemoveAt(k.timer, k.blocked, 0);
    assert RemoveAt(k.blocked, 0) == k.blocked[1..];
    hide ListsOk, RemoveAt;
    SortedFrame(k.timer, r.timer, r.blocked);
    hide Sorted;
  }

  lemma MoveHead(timer: seq<Timer>, blocked: seq<nat>, active: seq<nat>)
    requires ListsOk(timer, blocked, active) && blocked != []
    ensures blocked[0] < |timer|
    ensures ListsOk(timer[blocked[0] := timer[blocked[0]].(listId := ActiveList)], blocked[1..], [blocked[0]] + active)
  {
    var t := blocked[0];
    assert t in blocked;
    RemoveAtMembers(blocked, 0);
    assert RemoveAt(blocked, 0) == blocked[1..];
    InsertAtMembers(active, 0, t);
    assert InsertAt(active, 0, t) == [t] + active;
    hide RemoveAt, InsertAt;
  }

  predicate Due(k: Timers, t: nat) { t in k.blocked && ExpiryOf(k.timer, t) <= k.now }

  lemma {:induction false} ExpireAllExact(k: Timers, t: nat)
    requires TimersInv(k) && t < |k.timer|
    ensures var r := ExpireAll(k);
      && TimersInv(r) && |r.timer| == |k.timer| && r.now == k.now && r.inHand == k.inHand && r.taken == k.taken
      && (t in r.blocked <==> t in k.blocked && !Due(k, t))
      && (t in r.active <==> t in k.active || Due(k, t))
      && r.timer[t] == k.timer[t].(listId := if Due(k, t) then ActiveList else k.timer[t].listId)
      && r.pending - k.pending == |r.active| - |k.active| >= 0
    decreases |k.blocked|
  {
    if k.blocked != [] {
      assert k.blocked[0] in k.blocked;
      if k.timer[k.blocked[0]].expiry <= k.now {
        ExpireKeeps(k);
        ExpireOne(k, t);
        hide TimersInv, Expire;
        ExpireAllExact(Expire(k), t);
      } else if t in k.blocked {
        HeadFirst(k, t);
      }
    }
  }

  lemma HeadFirst(k: Timers, t: nat)
    requires Sorted(k.timer, k.blocked) && t in k.blocked
    ensures ExpiryOf(k.timer, k.blocked[0]) <= ExpiryOf(k.timer, t)
  {
    var j :| 0 <= j < |k.blocked| && k.blocked[j] == t;
  }

  lemma ExpireOne(k: Timers, t: nat)
    requires TimersInv(k) && k.blocked != [] && k.blocked[0] < |k.timer| && t < |k.timer|
    ensures var r := Expire(k); var h := k.blocked[0];
      && |r.blocked| < |k.blocked| && |r.timer| == |k.timer| && r.now == k.now && r.inHand == k.inHand && r.taken == k.taken
      && (t in r.blocked <==> t in k.blocked && t != h) && (t in r.active <==> t in k.active || t == h)
      && r.timer[t] == (if t == h then k.timer[t].(listId := ActiveList) else k.timer[t])
      && r.pending == k.pending + 1 && |r.active| == |k.active| + 1 && h in k.blocked
  {
    RemoveAtMembers(k.blocked, 0);
    assert RemoveAt(k.blocked, 0) == k.blocked[1..];
  }

  /** A tick moves exactly the timers whose expiry has come, gives one token for each, and
      changes nothing else. */
  lemma TickExact(k: Timers, t: nat)
    requires TimersInv(k) && t < |k.timer|
    ensures var r := DoTick(k); var due := t in k.blocked && k.timer[t].expiry <= k.now + 1;
      && TimersInv(r) && |r.timer| == |k.timer|
      && (t in r.blocked <==> t in k.blocked && !due)
      && (t in r.active <==> t in k.active || due)
      && r.timer[t] == k.timer[t].(listId := if due then ActiveList else k.timer[t].listId)
      && r.pending - k.pending == |r.active| - |k.active| >= 0 && r.inHand == k.inHand
  {
    hide ListsOk, Sorted, ExpireAll;
    assert TimersInv(k.(now := k.now + 1));
    ExpireAllExact(k.(now := k.now + 1), t);
  }

  lemma TickKeeps(k: Timers)
    requires TimersInv(k)
    ensures TimersInv(DoTick(k)) && |DoTick(k).timer| == |k.timer|
  {
    hide ListsOk, Sorted, ExpireAll;
    assert TimersInv(k.(now := k.now + 1));
    if |k.timer| > 0 {
      ExpireAllExact(k.(now := k.now + 1), 0);
    } else {
      NoTimers(k.(now := k.now + 1));
    }
  }

  lemma {:induction false} NoTimers(k: Timers)
    requires TimersInv(k) && |k.timer| == 0
    ensures ExpireAll(k) == k
  {
    if k.blocked != [] { assert k.blocked[0] in k.blocked; }
  }

  lemma PopKeeps(k: Timers)
    requires TimersInv(k) && Allowed(k, Pop)
    ensures TimersInv(DoPop(k))
  {
    var r := DoPop(k);
    if k.active != [] {
      assert k.active[0] in k.active;
      RemoveAtMembers(k.active, 0);
      assert RemoveAt(k.active, 0) == k.active[1..];
      SortedFrame(k.timer, r.timer, k.blocked);
    }
    hide Sorted, RemoveAt;
  }

  lemma GridStep(expiry: nat, base: nat, fired: nat, period: nat)
    requires Grid(expiry, base, fired, period)
    ensures Grid(expiry + period, base, fired + 1, period)
  {
    assert (fired + 1) * period == fired * period + period;
  }

  lemma RearmKeeps(k: Timers)
    requires TimersInv(k) && Allowed(k, Rearm)
    ensures TimersInv(DoRearm(k, k.inHand.value))
  {
    hide Sorted, Arm, Grid;
    var t := k.inHand.value;
    var x := k.timer[t];
    if x.periodic {
      ArmKeeps(k, t, x.(expiry := x.expiry + x.period, fired := x.fired + 1));
      GridStep(x.expiry, x.base, x.fired, x.period);
    }
  }

  lemma StepKeeps(k: Timers, a: Act)
    requires TimersInv(k) && Allowed(k, a)
    ensures TimersInv(Step(k, a)) && |Step(k, a).timer| == |k.timer|
  {
    hide ListsOk, Sorted, DoTick, Without, Place;
    match a
    case Create(t, period, periodic, running) => CreateKeeps(k, t, period, periodic, running);
    case Stop(t) => StopKeeps(k, t);
    case Restart(t) => RestartKeeps(k, t);
    case Tick => TickKeeps(k);
    case Take =>
    case Pop => PopKeeps(k);
    case Rearm => RearmKeeps(k);
  }

  // ---------------------------------------------------------------- runs

  ghost predicate Legal(k: Timers, acts: seq<Act>)
    decreases |acts|
  {
    acts == [] || (Allowed(k, acts[0]) && Legal(Step(k, acts[0]), acts[1..]))
  }

  ghost function After(k: Timers, acts: seq<Act>): Timers
    requires Legal(k, acts)
    decreases |acts|
  {
    if acts == [] then k else After(Step(k, acts[0]), acts[1..])
  }

  /** software_timer_init, before any timer is created; the pool's timers are on no list. */
  predicate Init(k: Timers) {
    && k.blocked == k.active == [] && k.pending == 0 && !k.taken && k.inHand == None
    && forall t | 0 <= t < |k.timer| :: k.timer[t].listId == NoList && OnGrid(k.timer[t])
  }

  lemma {:induction false} RunKeeps(k: Timers, acts: seq<Act>)
    requires TimersInv(k) && Legal(k, acts)
    ensures TimersInv(After(k, acts)) && |After(k, acts).timer| == |k.timer|
    decreases |acts|
  {
    hide TimersInv, Step;
    if acts != [] {
      StepKeeps(k, acts[0]);
      RunKeeps(Step(k, acts[0]), acts[1..]);
    }
  }

  /** Over any run the two lists are disjoint and agree with every timer's tag, the armed timers
      are in order, and no expired timer is ever left without a token to have it serviced. */
  lemma {:induction false} RunSafe(k: Timers, acts: seq<Act>)
    requires Init(k) && Legal(k, acts)
    ensures var r := After(k, acts);
      && ListsOk(r.timer, r.blocked, r.active) && Sorted(r.timer, r.blocked) && (forall t | t in r.blocked :: t !in r.active)
      && r.pending + (if r.taken then 1 else 0) >= |r.active|
  {
    hide Step, Legal, After;
    assert TimersInv(k);
    RunKeeps(k, acts);
  }

  /** The user leaves timer `t` alone. */
  predicate LeavesAlone(t: nat, a: Act) {
    match a
    case Create(u, _, _, _) => u != t
    case Stop(u) => u != t
    case Restart(u) => u != t
    case Tick | Take | Pop | Rearm => true
  }

  ghost predicate Undisturbed(t: nat, acts: seq<Act>) { forall i | 0 <= i < |acts| :: LeavesAlone(t, acts[i]) }

  /** How often the service task re-arms timer `t` in a run. */
  ghost function Rearms(k: Timers, acts: seq<Act>, t: nat): nat
    requires Legal(k, acts)
    decreases |acts|
  {
    if acts == [] then 0
    else (if acts[0] == Rearm && k.inHand == Some(t) then 1 else 0) + Rearms(Step(k, acts[0]), acts[1..], t)
  }

  lemma StepUndisturbed(k: Timers, a: Act, t: nat)
    requires TimersInv(k) && Allowed(k, a) && t < |k.timer| && LeavesAlone(t, a) && k.timer[t].periodic
    ensures var x := k.timer[t]; var y := Step(k, a).timer;
      && t < |y| && y[t].periodic && y[t].period == x.period && y[t].base == x.base
      && y[t].fired == x.fired + if a == Rearm && k.inHand == Some(t) then 1 else 0
  {
    hide ListsOk, Sorted, ExpireAll, Place, Without, TimersInv;
    if a.Tick? {
      TickExact(k, t);
    }
  }

  /** A periodic timer left alone expires at e0 + n * period after n re-arms, however late the
      service task ran. */
  lemma {:induction false} DriftFree(k: Timers, acts: seq<Act>, t: nat)
    requires TimersInv(k) && Legal(k, acts) && Undisturbed(t, acts) && t < |k.timer| && k.timer[t].periodic
    ensures var r := After(k, acts); var n := Rearms(k, acts, t);
      && t < |r.timer| && r.timer[t].period == k.timer[t].period
      && r.timer[t].fired == k.timer[t].fired + n
      && r.timer[t].expiry == k.timer[t].expiry + n * k.timer[t].period
  {
    hide Step, ListsOk, Sorted;
    RunUndisturbed(k, acts, t);
    RunKeeps(k, acts);
    hide After, Legal, Rearms;
    var x, y, n := k.timer[t], After(k, acts).timer[t], Rearms(k, acts, t);
    assert OnGrid(x) && OnGrid(y);
    GridAdds(x.base, x.fired, n, x.period);
  }

  lemma GridAdds(base: nat, fired: nat, n: nat, period: nat)
    ensures base + (fired + n) * period == base + fired * period + n * period
  {
  }

  lemma {:induction false} RunUndisturbed(k: Timers, acts: seq<Act>, t: nat)
    requires TimersInv(k) && Legal(k, acts) && Undisturbed(t, acts) && t < |k.timer| && k.timer[t].periodic
    ensures var r := After(k, acts);
      && t < |r.timer| && r.timer[t].period == k.timer[t].period && r.timer[t].base == k.timer[t].base
      && r.timer[t].fired == k.timer[t].fired + Rearms(k, acts, t)
    decreases |acts|
  {
    hide Step, TimersInv;
    if acts != [] {
      assert LeavesAlone(t, acts[0]);
      StepUndisturbed(k, acts[0], t);
      StepKeeps(k, acts[0]);
      RunUndisturbed(Step(k, acts[0]), acts[1..], t);
    }
  }

  /** The re-arm of a periodic timer is unconditional: it leaves the lists sound exactly when
      nobody armed or expired that timer while the service task had it in hand. */
  lemma RearmSoundExactly(k: Timers, t: nat)
    requires ListsOk(k.timer, k.blocked, k.active) && Sorted(k.timer, k.blocked) && t < |k.timer| && k.timer[t].periodic
    ensures var r := DoRearm(k, t); ListsOk(r.timer, r.blocked, r.active) <==> k.timer[t].listId == NoList
  {
    hide Sorted, Place, Arm;
    var x := k.timer[t].(expiry := k.timer[t].expiry + k.timer[t].period, fired := k.timer[t].fired + 1);
    if k.timer[t].listId == NoList {
      assert t !in k.blocked && t !in k.active;
      hide ListsOk;
      ArmKeeps(k, t, x);
    } else {
      assert t in k.blocked || t in k.active;
      hide ListsOk;
      ArmLinked(k, t, x);
    }
  }

  /** Arming a timer that is still linked puts it on the blocked list twice, or on both lists. */
  lemma ArmLinked(k: Timers, t: nat, x: Timer)
    requires t < |k.timer| && (t in k.blocked || t in k.active)
    ensures var r := Arm(k, t, x); !ListsOk(r.timer, r.blocked, r.active)
  {
    hide Place;
    var r := Arm(k, t, x);
    if t in k.active {
      hide InsertAt;
      assert t in r.active && r.timer[t].listId == BlockedList;
    } else {
      var j := Place(r.timer, k.blocked, x.expiry);
      var i := IndexOf(k.blocked, t);
      var i' := if i < j then i else i + 1;
      assert r.blocked == InsertAt(k.blocked, j, t);
      hide IndexOf;
      assert r.blocked[j] == t && r.blocked[i'] == t && i' != j;
    }
  }

  // ---------------------------------------------------------------- what the calls leave

  /** A timer created while the scheduler runs is armed, first to expire one period from now; one
      created before is not armed; a period of 0 creates nothing. */
  lemma {:induction false} CreateResult(k: Timers, t: nat, period: nat, periodic: bool, running: bool)
    requires TimersInv(k) && t < |k.timer| && k.timer[t].listId == NoList
    ensures var r := DoCreate(k, t, period, periodic, running);
      if period == 0 then r == k
      else
        && |r.timer| == |k.timer| && r.timer[t].period == period && r.timer[t].periodic == periodic
        && (running ==> r.timer[t].expiry == k.now + period && t in r.blocked)
        && (!running ==> t !in r.blocked && r.blocked == k.blocked)
        && r.active == k.active && r.pending == k.pending && r.now == k.now
        && (forall u | 0 <= u < |k.timer| && u != t :: r.timer[u] == k.timer[u])
  {
    hide Sorted, Place, Grid, InsertAt;
    var e := k.now + period;
    assert t !in k.blocked && t !in k.active;
    InsertAtMembers(k.blocked, Place(k.timer[t := Timer(e, period, periodic, BlockedList, e, 0)], k.blocked, e), t);
    hide ListsOk;
  }

  /** A timer reset, wherever it was, is armed to expire one period from now. */
  lemma {:induction false} RestartResult(k: Timers, t: nat)
    requires TimersInv(k) && t < |k.timer|
    ensures var r := DoRestart(k, t);
      && |r.timer| == |k.timer| && r.timer[t].expiry == k.now + k.timer[t].period && r.timer[t].listId == BlockedList
      && r.timer[t].period == k.timer[t].period && r.timer[t].periodic == k.timer[t].periodic
      && t in r.blocked && t !in r.active && r.pending == k.pending && r.now == k.now
      && (forall u | 0 <= u < |k.timer| && u != t :: r.timer[u] == k.timer[u])
  {
    hide Sorted, Place, Grid, Without, Arm;
    UnlinkKeeps(k, t);
    var e := k.now + k.timer[t].period;
    var x := k.timer[t].(expiry := e, base := e, fired := 0);
    RestartIsArm(k, t);
    ArmKeeps(DoStop(k, t), t, x);
    StopRecords(k, t);
    var r := DoRestart(k, t);
    assert t in r.blocked;
    hide ListsOk, DoRestart, DoStop;
  }

  /** A timer is armed behind exactly those that expire no later. */
  lemma {:induction false} PlaceResult(timer: seq<Timer>, s: seq<nat>, e: nat)
    requires Sorted(timer, s)
    ensures forall i | 0 <= i < |s| :: i < Place(timer, s, e) <==> ExpiryOf(timer, s[i]) <= e
  {
  }

  /** A token the service task has taken is used up, and serves one expired timer exactly if there
      is one; that timer is then off every list, and every other as it was. */
  lemma {:induction false} PopResult(k: Timers)
    requires TimersInv(k) && Allowed(k, Pop)
    ensures var r := DoPop(k);
      && !r.taken && r.now == k.now && r.pending == k.pending && r.blocked == k.blocked && |r.timer| == |k.timer|
      && (k.active == [] <==> r.inHand == k.inHand) && (k.active == [] ==> r.active == [])
      && (k.active != [] ==>
            && r.inHand.Some? && r.inHand.value in k.active && r.inHand.value < |r.timer|
            && r.timer[r.inHand.value] == k.timer[r.inHand.value].(listId := NoList)
            && (forall u :: u in r.active <==> u in k.active && u != r.inHand.value))
      && (forall u | 0 <= u < |k.timer| && r.inHand != Some(u) :: r.timer[u] == k.timer[u])
  {
    if k.active != [] {
      assert k.active[0] in k.active;
      RemoveAtMembers(k.active, 0);
      assert RemoveAt(k.active, 0) == k.active[1..];
    }
    hide Sorted, RemoveAt, Grid;
  }

  lemma {:induction false} StopRecords(k: Timers, t: nat)
    requires t < |k.timer|
    ensures var r := DoStop(k, t);
      && r.timer == k.timer[t := k.timer[t].(listId := NoList)] && r.pending == k.pending && r.now == k.now
  {
    hide Without;
  }

  // ---------------------------------------------------------------- calls that break the lists

  /** Creating a timer keeps the lists sound if and only if nothing is created or the timer is on
      no list, whether it is armed at once or not. */
  lemma {:induction false} CreateSoundExactly(k: Timers, t: nat, period: nat, periodic: bool, running: bool)
    requires ListsOk(k.timer, k.blocked, k.active) && Sorted(k.timer, k.blocked) && t < |k.timer|
    ensures var r := DoCreate(k, t, period, periodic, running);
      ListsOk(r.timer, r.blocked, r.active) <==> period == 0 || k.timer[t].listId == NoList
  {
    hide Sorted, Place, Arm;
    var x := Timer(k.now + period, period, periodic, NoList, k.now + period, 0);
    if period != 0 && running {
      if k.timer[t].listId == NoList {
        assert t !in k.blocked && t !in k.active;
        hide ListsOk;
        ArmKeeps(k, t, x);
      } else {
        assert t in k.blocked || t in k.active;
        hide ListsOk;
        ArmLinked(k, t, x);
      }
    } else if period != 0 && k.timer[t].listId != NoList {
      Untagged(k, t, Timer(0, period, periodic, NoList, 0, 0));
    }
  }

  /** A linked timer whose tag says otherwise. */
  lemma {:induction false} Untagged(k: Timers, t: nat, x: Timer)
    requires ListsOk(k.timer, k.blocked, k.active) && t < |k.timer| && k.timer[t].listId != NoList && x.listId == NoList
    ensures !ListsOk(k.timer[t := x], k.blocked, k.active)
  {
    assert t in k.blocked || t in k.active;
  }

  /** For every state and every act: the lists are sound after it, and after the service task has
      re-armed what it has in hand, if and only if the act neither creates a linked timer nor arms
      the one in hand as a periodic timer. */
  lemma {:induction false} CallsSoundExactly(k: Timers, a: Act)
    requires TimersInv(k) && Possible(k, a)
    ensures var r := Step(k, a);
      ListsOk(r.timer, r.blocked, r.active) && (Possible(r, Rearm) ==> SoundAfterRearm(r))
      <==> !CreatesLinked(k, a) && !ArmsInHand(k, a)
  {
    hide ListsOk, Sorted, Without, Place, DoTick, SoundAfterRearm;
    if CreatesLinked(k, a) {
      CreateSoundExactly(k, a.id, a.period, a.periodic, a.running);
    } else if ArmsInHand(k, a) {
      ArmedInHand(k, a);
      RearmOfLinked(Step(k, a), k.inHand.value);
    } else {
      StepKeeps(k, a);
      if Possible(Step(k, a), Rearm) { RearmOfSound(Step(k, a)); }
    }
  }

  ghost predicate SoundAfterRearm(r: Timers)
    requires Possible(r, Rearm)
  {
    var u := Step(r, Rearm);
    ListsOk(u.timer, u.blocked, u.active)
  }

  lemma {:induction false} RearmOfLinked(m: Timers, t: nat)
    requires LinkedInHand(m, t)
    ensures Possible(m, Rearm) && !SoundAfterRearm(m)
  {
    RearmSoundExactly(m, t);
    hide ListsOk, Sorted, DoRearm;
  }

  lemma {:induction false} RearmOfSound(m: Timers)
    requires TimersInv(m) && Possible(m, Rearm)
    ensures SoundAfterRearm(m)
  {
    hide ListsOk, Sorted, DoRearm, Place;
    StepKeeps(m, Rearm);
  }

  /** Arming a periodic timer, unlinked until now, as a call in between does. */
  lemma ArmLinks(k: Timers, t: nat, x: Timer)
    requires ListsOk(k.timer, k.blocked, k.active) && Sorted(k.timer, k.blocked)
    requires t < |k.timer| && t !in k.blocked && t !in k.active && x.periodic
    ensures var m := Arm(k, t, x);
      && m.inHand == k.inHand && t < |m.timer| && m.timer[t].periodic && m.timer[t].listId == BlockedList
      && ListsOk(m.timer, m.blocked, m.active) && Sorted(m.timer, m.blocked)
  {
    ArmKeeps(k, t, x);
    hide ListsOk, Sorted, Place, InsertAt;
  }

  lemma RestartInHandArms(k: Timers, t: nat)
    requires TimersInv(k) && Allowed(k, Stop(t)) && k.timer[t].periodic
    ensures exists x: Timer :: x.periodic && Restarted(k, t, x)
  {
    hide Arm, Sorted, Without, Grid, ListsOk;
    UnlinkKeeps(k, t);
    var e := k.now + k.timer[t].period;
    RestartIsArm(k, t);
    var x := k.timer[t].(expiry := e, base := e, fired := 0);
    assert Restarted(k, t, x) by { hide Unlinked; }
  }

  /** Resetting stops the timer and arms it as `x`. */
  ghost predicate Restarted(k: Timers, t: nat, x: Timer) {
    && t < |k.timer| && DoRestart(k, t) == Arm(DoStop(k, t), t, x)
    && var m := DoStop(k, t);
      && ListsOk(m.timer, m.blocked, m.active) && Sorted(m.timer, m.blocked) && |m.timer| == |k.timer|
      && t !in m.blocked && t !in m.active && m.inHand == k.inHand
  }

  /** `t` is in hand, periodic, and linked among sound lists. */
  ghost predicate LinkedInHand(m: Timers, t: nat) {
    && m.inHand == Some(t) && t < |m.timer| && m.timer[t].periodic && m.timer[t].listId == BlockedList
    && ListsOk(m.timer, m.blocked, m.active) && Sorted(m.timer, m.blocked)
  }

  lemma CreateLinks(k: Timers, t: nat, period: nat)
    requires TimersInv(k) && k.inHand == Some(t) && k.timer[t].listId == NoList && period != 0
    ensures LinkedInHand(DoCreate(k, t, period, true, true), t)
  {
    hide Sorted, Grid, Arm;
    var e := k.now + period;
    assert t !in k.blocked && t !in k.active;
    ArmLinks(k, t, Timer(e, period, true, NoList, e, 0));
    hide ListsOk;
  }

  lemma RestartLinks(k: Timers, t: nat)
    requires TimersInv(k) && k.inHand == Some(t) && k.timer[t].periodic
    ensures LinkedInHand(DoRestart(k, t), t)
  {
    hide Sorted, Grid, Arm, DoStop, DoRestart, ListsOk;
    RestartInHandArms(k, t);
    var x: Timer :| x.periodic && Restarted(k, t, x);
    ArmLinks(DoStop(k, t), t, x);
  }

  /** Such an act links the timer in hand. */
  lemma ArmedInHand(k: Timers, a: Act)
    requires TimersInv(k) && Possible(k, a) && ArmsInHand(k, a) && !CreatesLinked(k, a)
    ensures LinkedInHand(Step(k, a), k.inHand.value)
  {
    hide LinkedInHand, TimersInv, DoCreate, DoRestart, DoStop, DoTick, DoPop, DoRearm;
    if a.Create? { CreateLinks(k, a.id, a.period); } else { RestartLinks(k, a.id); }
  }

  /** One periodic timer, from its creation to its first expiry. */
  lemma FirstExpiry(k: Timers) returns (u: Timers)
    requires k == Timers(0, [Timer(0, 1, true, NoList, 0, 0)], [], [], 0, false, None)
    ensures Allowed(k, Create(0, 1, true, true))
    ensures var k1 := Step(k, Create(0, 1, true, true)); var k2 := Step(k1, Tick);
      && Allowed(k1, Tick) && Allowed(k2, Take) && Allowed(Step(k2, Take), Pop)
      && u == Step(Step(k2, Take), Pop)
    ensures u.inHand == Some(0) && |u.timer| == 1 && u.timer[0].periodic
  {
    var k1 := Step(k, Create(0, 1, true, true));
    assert k1.blocked == [0] && k1.timer == [Timer(1, 1, true, BlockedList, 1, 0)];
    var due := k1.(now := 1);
    var k2 := Expire(due);
    assert k2.blocked == [] && k2.active == [0] && k2.pending == 1;
    assert ExpireAll(due) == ExpireAll(k2) == k2;
    u := Step(Step(k2, Take), Pop);
  }

  /** It does happen: the same create twice. */
  lemma {:induction false} CreateTwiceBreaks() returns (k: Timers, a: Act)
    ensures Init(k) && Allowed(k, a) && Possible(Step(k, a), a)
    ensures var r := Step(Step(k, a), a); !ListsOk(r.timer, r.blocked, r.active)
  {
    k := Timers(0, [Timer(0, 1, true, NoList, 0, 0)], [], [], 0, false, None);
    a := Create(0, 1, true, true);
    FirstTimer(k);
    StepKeeps(k, a);
    CreateSoundExactly(Step(k, a), 0, 1, true, true);
  }

  /** It does happen: create, tick, take, pop, reset, re-arm, and the lists are broken. */
  lemma ResetInHandBreaks() returns (k: Timers, acts: seq<Act>)
    ensures Init(k) && Legal(k, acts)
    ensures var u := After(k, acts);
      && Possible(u, Restart(0)) && Possible(Step(u, Restart(0)), Rearm)
      && var r := Step(Step(u, Restart(0)), Rearm); !ListsOk(r.timer, r.blocked, r.active)
  {
    hide Step, Possible, ArmsInHand, TimersInv, ListsOk, Legal, After, Init;
    k := Timers(0, [Timer(0, 1, true, NoList, 0, 0)], [], [], 0, false, None);
    acts := [Create(0, 1, true, true), Tick, Take, Pop];
    FirstTimer(k);
    var u := FirstExpiry(k);
    FourActs(k, Create(0, 1, true, true), Tick, Take, Pop);
    RunKeeps(k, acts);
    RestartInHand(u);
    ArmedInHand(u, Restart(0));
    RearmOfLinked(Step(u, Restart(0)), 0);
    BrokenAfter(Step(u, Restart(0)));
  }

  lemma {:induction false} BrokenAfter(m: Timers)
    requires Possible(m, Rearm) && !SoundAfterRearm(m)
    ensures var r := Step(m, Rearm); !ListsOk(r.timer, r.blocked, r.active)
  {
    hide ListsOk, Step;
  }

  lemma FirstTimer(k: Timers)
    requires k == Timers(0, [Timer(0, 1, true, NoList, 0, 0)], [], [], 0, false, None)
    ensures Init(k) && TimersInv(k)
  {
  }

  lemma {:induction false} OneMore(k: Timers, a: Act, acts: seq<Act>)
    requires Allowed(k, a) && Legal(Step(k, a), acts)
    ensures Legal(k, [a] + acts) && After(k, [a] + acts) == After(Step(k, a), acts)
  {
    hide Step, Possible, ArmsInHand;
    assert ([a] + acts)[1..] == acts;
  }

  lemma {:induction false} FourActs(k: Timers, a: Act, b: Act, c: Act, d: Act)
    requires Allowed(k, a) && Allowed(Step(k, a), b) && Allowed(Step(Step(k, a), b), c)
    requires Allowed(Step(Step(Step(k, a), b), c), d)
    ensures Legal(k, [a, b, c, d]) && After(k, [a, b, c, d]) == Step(Step(Step(Step(k, a), b), c), d)
  {
    hide Step, Possible, ArmsInHand;
    var k1, k2, k3 := Step(k, a), Step(Step(k, a), b), Step(Step(Step(k, a), b), c);
    OneMore(k3, d, []);
    OneMore(k2, c, [d]);
    OneMore(k1, b, [c] + [d]);
    OneMore(k, a, [b] + ([c] + [d]));
    assert [a] + ([b] + ([c] + [d])) == [a, b, c, d];
    assert [d] + [] == [d];
  }

  lemma RestartInHand(u: Timers)
    requires u.inHand == Some(0) && |u.timer| == 1 && u.timer[0].periodic
    ensures Possible(u, Restart(0)) && ArmsInHand(u, Restart(0)) && u.inHand.value == 0
  {
  }

  predicate Armed(k: Timers, t: nat) { t < |k.timer| && k.timer[t].listId != NoList }

  /** On no list, and not about to be re-armed. */
  predicate StaysOff(k: Timers, t: nat) {
    t < |k.timer| && !Armed(k, t) && !(k.inHand == Some(t) && k.timer[t].periodic)
  }

  lemma StepStaysOff(k: Timers, a: Act, t: nat)
    requires TimersInv(k) && Allowed(k, a) && LeavesAlone(t, a) && StaysOff(k, t)
    ensures StaysOff(Step(k, a), t)
  {
    hide Sorted, ExpireAll, Place, Without, InsertAt;
    if a.Tick? {
      hide TimersInv, ListsOk;
      NotListed(k, t);
      TickExact(k, t);
    } else if a.Pop? && k.active != [] {
      assert k.active[0] in k.active;
    }
  }

  lemma NotListed(k: Timers, t: nat)
    requires TimersInv(k) && StaysOff(k, t)
    ensures t !in k.blocked && t !in k.active
  {
    hide Sorted;
  }

  lemma {:induction false} RunStaysOff(k: Timers, acts: seq<Act>, t: nat)
    requires TimersInv(k) && Legal(k, acts) && Undisturbed(t, acts) && StaysOff(k, t)
    ensures StaysOff(After(k, acts), t)
    decreases |acts|
  {
    hide Step, TimersInv, StaysOff;
    if acts != [] {
      assert LeavesAlone(t, acts[0]);
      StepStaysOff(k, acts[0], t);
      StepKeeps(k, acts[0]);
      RunStaysOff(Step(k, acts[0]), acts[1..], t);
    }
  }

  /** Some run in which nobody touches the timer arms it again. */
  ghost predicate ComesBack(k: Timers, t: nat) {
    exists acts: seq<Act> :: Legal(k, acts) && Undisturbed(t, acts) && Armed(After(k, acts), t)
  }

  lemma StopInHand(k: Timers, t: nat)
    requires TimersInv(k) && k.inHand == Some(t) && k.timer[t].periodic
    ensures ComesBack(DoStop(k, t), t)
  {
    var m := DoStop(k, t);
    assert Allowed(m, Rearm) && Armed(Step(m, Rearm), t) by { hide Place; }
    hide Step, Possible, Armed;
    var acts := [Rearm];
    assert acts[1..] == [];
    assert Legal(m, acts) && Undisturbed(t, acts) && After(m, acts) == Step(m, Rearm);
  }

  /** A stop is lost exactly when the service task has the timer, a periodic one, in hand. */
  lemma StopLostExactly(k: Timers, t: nat)
    requires TimersInv(k) && t < |k.timer|
    ensures ComesBack(DoStop(k, t), t) <==> k.inHand == Some(t) && k.timer[t].periodic
  {
    if k.inHand == Some(t) && k.timer[t].periodic {
      StopInHand(k, t);
    } else {
      hide ListsOk, Sorted, Without;
      StopKeeps(k, t);
      var m := DoStop(k, t);
      assert StaysOff(m, t);
      hide TimersInv, StaysOff, DoStop;
      forall acts: seq<Act> | Legal(m, acts) && Undisturbed(t, acts) ensures !Armed(After(m, acts), t) {
        RunStaysOff(m, acts, t);
        OffIsNotArmed(After(m, acts), t);
      }
    }
  }

  lemma OffIsNotArmed(k: Timers, t: nat)
    requires StaysOff(k, t)
    ensures !Armed(k, t)
  {
  }
}
