/** The software timers' two intrusive singly linked lists, and the operations on them. */
module TimerService {
  import opened Sequences
  import opened SoftwareTimer

  /** The link embedded in a timer; `id` is the timer's place in the pool. */
  class Node {
    var next: Node?
    const id: nat

    constructor (id: nat)
      ensures this.id == id && next == null
    {
      this.id := id;
      next := null;
    }
  }

  function Nth(nodes: seq<Node>, s: seq<nat>, i: int): Node? {
    if 0 <= i < |s| && s[i] < |nodes| then nodes[s[i]] else null
  }

  lemma NthIs(nodes: seq<Node>, s: seq<nat>, i: int)
    ensures 0 <= i < |s| && s[i] < |nodes| ==> Nth(nodes, s, i) == nodes[s[i]]
    ensures !(0 <= i < |s|) ==> Nth(nodes, s, i) == null
  {
  }

  predicate Numbered(nodes: seq<Node>) { forall i | 0 <= i < |nodes| :: nodes[i].id == i }

  /** The links from `head` run through the timers `s`, in order, and end. */
  ghost predicate Chain(nodes: seq<Node>, head: Node?, s: seq<nat>)
    reads nodes
  {
    && head == Nth(nodes, s, 0)
    && forall i | 0 <= i < |s| :: s[i] < |nodes| && nodes[s[i]].next == Nth(nodes, s, i + 1)
  }

  lemma NthWithout(nodes: seq<Node>, s: seq<nat>, i: nat)
    requires Distinct(s) && i < |s|
    ensures Without(s, s[i]) == RemoveAt(s, i)
    ensures forall j {:trigger Nth(nodes, RemoveAt(s, i), j)} | -1 <= j <= |s| ::
      Nth(nodes, RemoveAt(s, i), j) == if j < i then Nth(nodes, s, j) else Nth(nodes, s, j + 1)
    ensures |RemoveAt(s, i)| == |s| - 1
    ensures forall j | 0 <= j < |s| - 1 :: RemoveAt(s, i)[j] == s[if j < i then j else j + 1]
  {
    IndexOfDistinct(s, i);
  }

  lemma NthInsert(nodes: seq<Node>, s: seq<nat>, i: nat, t: nat)
    requires i <= |s| && t < |nodes|
    ensures forall j {:trigger Nth(nodes, InsertAt(s, i, t), j)} | -1 <= j <= |s| + 1 ::
      Nth(nodes, InsertAt(s, i, t), j) == if j < i then Nth(nodes, s, j) else if j == i then nodes[t] else Nth(nodes, s, j - 1)
    ensures |InsertAt(s, i, t)| == |s| + 1
  {
  }

  lemma InsertedAt(s: seq<nat>, i: nat, t: nat, j: nat)
    requires i <= |s| && j <= |s|
    ensures |InsertAt(s, i, t)| == |s| + 1
    ensures InsertAt(s, i, t)[j] == if j < i then s[j] else if j == i then t else s[j - 1]
  {
  }

  /** Walks to the node whose successor is `t`, if there is one. */
  method FindBefore(nodes: seq<Node>, head: Node?, t: nat, ghost s: seq<nat>) returns (iter: Node?, ghost i: nat)
    requires Numbered(nodes) && Chain(nodes, head, s) && t < |nodes| && (s != [] ==> s[0] != t)
    ensures iter == null ==> t !in s
    ensures iter != null ==> i + 1 < |s| && s[i + 1] == t && s[i] < |nodes| && iter == nodes[s[i]]
  {
    hide Nth;
    iter := head;
    i := 0;
    NthIs(nodes, s, 0);
    while iter != null && iter.next != nodes[t]
      invariant i <= |s| && iter == Nth(nodes, s, i)
      invariant iter == null <==> i == |s|
      invariant iter != null ==> i < |s| && iter == nodes[s[i]]
      invariant forall j | 0 <= j <= i && j < |s| :: s[j] != t
      decreases |s| - i
    {
      NthIs(nodes, s, i + 1);
      iter := iter.next;
      i := i + 1;
    }
    NthIs(nodes, s, i + 1);
  }

  /** software_timer_unlink: the list without `t`, if it was there. */
  method Unlink(nodes: seq<Node>, head: Node?, t: nat, ghost s: seq<nat>) returns (first: Node?, found: bool)
    requires Numbered(nodes) && Chain(nodes, head, s) && Distinct(s) && t < |nodes|
    modifies nodes
    ensures Chain(nodes, first, Without(s, t)) && (found <==> t in s)
    ensures forall u | 0 <= u < |nodes| && u !in s :: nodes[u].next == old(nodes[u].next)
  {
    hide Nth, Without, RemoveAt;
    NthIs(nodes, s, 0);
    if head == nodes[t] {
      HeadIs(nodes, s, t);
      NthWithout(nodes, s, 0);
      first := nodes[t].next;
      nodes[t].next := null;
      return first, true;
    }
    ghost var i: nat;
    var iter: Node?;
    iter, i := FindBefore(nodes, head, t, s);
    if iter == null {
      WithoutNone(s, t);
      return head, false;
    }
    NthWithout(nodes, s, i + 1);
    NthIs(nodes, s, i + 1);
    iter.next := nodes[t].next;
    nodes[t].next := null;
    return head, true;
  }

  lemma HeadIs(nodes: seq<Node>, s: seq<nat>, t: nat)
    requires Numbered(nodes) && t < |nodes| && Nth(nodes, s, 0) == nodes[t]
    ensures s != [] && s[0] == t
  {
  }

  lemma WithoutNone(s: seq<nat>, t: nat)
    requires t !in s
    ensures Without(s, t) == s
  {
  }

  /** Walks to the node a timer expiring at `e` goes behind. */
  method FindPlace(nodes: seq<Node>, timer: seq<Timer>, head: Node, e: nat, ghost s: seq<nat>) returns (iter: Node)
    requires Numbered(nodes) && |timer| == |nodes| && Chain(nodes, head, s) && s != [] && ExpiryOf(timer, s[0]) <= e
    ensures var j := Place(timer, s, e); 0 < j <= |s| && s[j - 1] < |nodes| && iter == nodes[s[j - 1]]
  {
    hide Nth;
    NthIs(nodes, s, 0);
    iter := head;
    ghost var i: nat := 0;
    NthIs(nodes, s, 1);
    while iter.next != null && timer[iter.next.id].expiry <= e
      invariant i < |s| && iter == nodes[s[i]] && iter.next == Nth(nodes, s, i + 1)
      invariant iter.next != null <==> i + 1 < |s|
      invariant i + 1 < |s| ==> iter.next == nodes[s[i + 1]]
      invariant PlaceFrom(timer, s, 1, e) == PlaceFrom(timer, s, i + 1, e)
      decreases |s| - i
    {
      iter := iter.next;
      i := i + 1;
      NthIs(nodes, s, i + 1);
    }
  }

  /** Following the links from `head` leads through `path`; nothing is said of how it goes on. */
  ghost predicate Leads(nodes: seq<Node>, head: Node?, path: seq<nat>)
    reads nodes
  {
    && path != [] && (forall i | 0 <= i < |path| :: path[i] < |nodes|) && head == nodes[path[0]]
    && forall i | 0 <= i < |path| - 1 :: nodes[path[i]].next == nodes[path[i + 1]]
  }

  /** Whatever list the links from `head` are, it begins with the timers they lead through. */
  lemma {:induction false} LeadsInto(nodes: seq<Node>, head: Node?, path: seq<nat>, w: seq<nat>, i: nat)
    requires Numbered(nodes) && Leads(nodes, head, path) && Chain(nodes, head, w) && i < |path|
    ensures i < |w| && w[i] == path[i]
    decreases i
  {
    if i > 0 {
      LeadsInto(nodes, head, path, w, i - 1);
      assert nodes[path[i - 1]].next == nodes[path[i - 1 + 1]];
    }
    assert Nth(nodes, w, i) == nodes[path[i]];
    assert nodes[w[i]].id == w[i] && nodes[path[i]].id == path[i];
  }

  /** Links that come back to a timer are no list. */
  lemma {:induction false} LoopIsNoList(nodes: seq<Node>, head: Node?, path: seq<nat>, i: nat, j: nat, w: seq<nat>)
    requires Numbered(nodes) && Leads(nodes, head, path) && i < j < |path| && path[i] == path[j]
    ensures !(Chain(nodes, head, w) && Distinct(w))
  {
    if Chain(nodes, head, w) {
      LeadsInto(nodes, head, path, w, i);
      LeadsInto(nodes, head, path, w, j);
    }
  }

  /** The last timer of a list linked in once more, at place `j`. */
  lemma {:induction false} Circle(nodes: seq<Node>, first: Node?, s: seq<nat>, j: nat, t: nat)
    requires Numbered(nodes) && (forall i | 0 <= i < |s| :: s[i] < |nodes|) && s != [] && s[|s| - 1] == t && j <= |s|
    requires forall i | 0 <= i < |s| - 1 && i + 1 != j :: nodes[s[i]].next == nodes[s[i + 1]]
    requires j > 0 ==> nodes[s[j - 1]].next == nodes[t]
    requires j < |s| ==> nodes[t].next == nodes[s[j]]
    requires first == if j == 0 then nodes[t] else nodes[s[0]]
    ensures forall w: seq<nat> :: !(Chain(nodes, first, w) && Distinct(w))
  {
    hide Chain, Nth, Numbered;
    var path := InsertAt(s, j, t);
    assert path[j] == t && path[if j == |s| then |s| - 1 else |s|] == t;
    forall i | 0 <= i < |path| ensures path[i] < |nodes| {
      assert path[i] == if i < j then s[i] else if i == j then t else s[i - 1];
    }
    forall i | 0 <= i < |path| - 1 ensures nodes[path[i]].next == nodes[path[i + 1]] {
      assert path[i] == if i < j then s[i] else if i == j then t else s[i - 1];
      assert path[i + 1] == if i + 1 < j then s[i + 1] else if i + 1 == j then t else s[i];
      if i > j { assert nodes[s[i - 1]].next == nodes[s[i - 1 + 1]]; }
    }
    assert Leads(nodes, first, path);
    forall w: seq<nat> ensures !(Chain(nodes, first, w) && Distinct(w)) {
      LoopIsNoList(nodes, first, path, if j == |s| then |s| - 1 else j, |s|, w);
    }
  }

  ghost predicate LastOf(nodes: seq<Node>, s: seq<nat>, t: nat)
    reads nodes
  {
    t < |nodes| && s != [] && s[|s| - 1] == t && nodes[t].next == null
  }

  /** software_timer_add_to_blocked_list.  On a timer that is on the list already, cut off from
      the ones behind it, the links afterwards run in a circle. */
  method Insert(nodes: seq<Node>, timer: seq<Timer>, head: Node?, t: nat, ghost s: seq<nat>) returns (first: Node?)
    requires Numbered(nodes) && |timer| == |nodes| && Chain(nodes, head, s) && Distinct(s) && t < |nodes|
    requires t in s ==> LastOf(nodes, s, t)
    modifies nodes
    ensures t !in s ==> Chain(nodes, first, InsertAt(s, Place(timer, s, timer[t].expiry), t))
    ensures t in s ==> forall w: seq<nat> :: !(Chain(nodes, first, w) && Distinct(w))
    ensures forall u | 0 <= u < |nodes| && u !in s && u != t :: nodes[u].next == old(nodes[u].next)
  {
    hide Nth, InsertAt;
    if t !in s { ChainApart(nodes, head, s, t); }
    var e := timer[t].expiry;
    NthIs(nodes, s, 0);
    nodes[t].next := null;
    ghost var j := Place(timer, s, e);
    NthInsert(nodes, s, j, t);
    if head == null || e < timer[head.id].expiry {
      nodes[t].next := head;
      first := nodes[t];
    } else {
      var iter := FindPlace(nodes, timer, head, e, s);
      NthIs(nodes, s, j);
      hide Place;
      nodes[t].next := iter.next;
      iter.next := nodes[t];
      first := head;
    }
    ghost var w := InsertAt(s, j, t);
    if t !in s {
      forall i | 0 <= i < |w| ensures w[i] < |nodes| && nodes[w[i]].next == Nth(nodes, w, i + 1) {
        InsertedAt(s, j, t, i);
        if i != j {
          var i' := if i < j then i else i - 1;
          assert w[i] == s[i'] && s[i'] in s && s[i'] < |nodes|;
          assert i' + 1 != j ==> nodes[s[i']].next == Nth(nodes, s, i' + 1);
        }
      }
    } else {
      assert forall i | 0 <= i < |s| - 1 && i + 1 != j :: nodes[s[i]].next == nodes[s[i + 1]] by {
        forall i | 0 <= i < |s| - 1 && i + 1 != j ensures nodes[s[i]].next == nodes[s[i + 1]] {
          NthIs(nodes, s, i + 1);
          assert s[i] != s[|s| - 1];
        }
      }
      Circle(nodes, first, s, j, t);
    }
  }

  /** Writing a node outside the chain does not disturb it. */
  lemma ChainApart(nodes: seq<Node>, head: Node?, s: seq<nat>, t: nat)
    requires Numbered(nodes) && t < |nodes| && t !in s && Chain(nodes, head, s)
    ensures forall i | 0 <= i < |s| :: nodes[s[i]] != nodes[t]
  {
    forall i | 0 <= i < |s| ensures nodes[s[i]] != nodes[t] { assert s[i] in s; }
  }

  /** Pushes an unlinked timer in front. */
  method Push(nodes: seq<Node>, head: Node?, t: nat, ghost s: seq<nat>) returns (first: Node)
    requires Numbered(nodes) && Chain(nodes, head, s) && t < |nodes| && t !in s
    modifies nodes
    ensures Chain(nodes, first, [t] + s)
    ensures forall u | 0 <= u < |nodes| && u != t :: nodes[u].next == old(nodes[u].next)
  {
    hide Nth, InsertAt;
    ChainApart(nodes, head, s, t);
    ghost var w := [t] + s;
    assert w == InsertAt(s, 0, t) by { InsertFront(s, t); }
    NthInsert(nodes, s, 0, t);
    nodes[t].next := head;
    first := nodes[t];
    forall i | 0 <= i < |w| ensures w[i] < |nodes| && nodes[w[i]].next == Nth(nodes, w, i + 1) {
      if i > 0 { assert w[i] == s[i - 1]; }
    }
  }

  lemma InsertFront(s: seq<nat>, t: nat)
    ensures InsertAt(s, 0, t) == [t] + s
  {
  }

  lemma WithoutHead(s: seq<nat>)
    requires s != []
    ensures Without(s, s[0]) == s[1..]
  {
  }

  /** A list as far as `t`. */
  ghost function UpTo(s: seq<nat>, t: nat): seq<nat> { if t in s then s[..IndexOf(s, t) + 1] else s }

  lemma {:induction false} UpToIs(nodes: seq<Node>, s: seq<nat>, t: nat)
    ensures var w := UpTo(s, t);
      && |w| <= |s| && (t in w <==> t in s) && (t !in s ==> w == s)
      && (forall i | 0 <= i < |w| :: w[i] == s[i] && Nth(nodes, w, i) == Nth(nodes, s, i))
      && (forall i | 0 <= i < |w| :: w[i] == t <==> t in s && i == |w| - 1)
      && (t in s ==> w != [] && w[|w| - 1] == t)
      && Nth(nodes, w, |w|) == null
  {
    if t in s {
      var n := IndexOf(s, t);
      assert forall i | 0 <= i < n :: s[i] == s[..n][i];
    } else {
      assert forall i | 0 <= i < |s| :: s[i] in s;
    }
  }

  lemma {:induction false} UpToDistinct(s: seq<nat>, t: nat)
    requires Distinct(s)
    ensures Distinct(UpTo(s, t))
  {
  }

  /** Cutting the list behind `t` off from two lists at once. */
  method CutLink(nodes: seq<Node>, t: nat, ghost h: Node?, ghost s: seq<nat>, ghost g: Node?, ghost r: seq<nat>)
    requires Numbered(nodes) && t < |nodes| && Chain(nodes, h, s) && Chain(nodes, g, r)
    modifies nodes
    ensures Chain(nodes, h, UpTo(s, t)) && Chain(nodes, g, UpTo(r, t)) && nodes[t].next == null
    ensures forall u | 0 <= u < |nodes| && u != t :: nodes[u].next == old(nodes[u].next)
  {
    hide Nth, UpTo;
    nodes[t].next := null;
    UpToIs(nodes, s, t);
    UpToIs(nodes, r, t);
    NthIs(nodes, s, 0);
    NthIs(nodes, r, 0);
    NthIs(nodes, UpTo(s, t), 0);
    NthIs(nodes, UpTo(r, t), 0);
    assert Chain(nodes, h, UpTo(s, t)) by {
      forall i | 0 <= i < |UpTo(s, t)| ensures nodes[s[i]].next == Nth(nodes, UpTo(s, t), i + 1) {
        assert s[i] < |nodes| && nodes[s[i]].id == s[i];
      }
    }
    assert Chain(nodes, g, UpTo(r, t)) by {
      forall i | 0 <= i < |UpTo(r, t)| ensures nodes[r[i]].next == Nth(nodes, UpTo(r, t), i + 1) {
        assert r[i] < |nodes| && nodes[r[i]].id == r[i];
      }
    }
  }

  /** Linking `t` into one list, seen from another: that one is untouched, or still leads to `t`. */
  method InsertBeside(nodes: seq<Node>, timer: seq<Timer>, head: Node?, t: nat, ghost s: seq<nat>, ghost g: Node?, ghost r: seq<nat>)
    returns (first: Node?)
    requires Numbered(nodes) && |timer| == |nodes| && Chain(nodes, head, s) && Distinct(s) && t < |nodes|
    requires t in s ==> LastOf(nodes, s, t)
    requires Chain(nodes, g, r) && forall i | 0 <= i < |r| :: r[i] !in s && (r[i] == t ==> i == |r| - 1)
    modifies nodes
    ensures t !in s ==> Chain(nodes, first, InsertAt(s, Place(timer, s, timer[t].expiry), t))
    ensures t in s ==> forall w: seq<nat> :: !(Chain(nodes, first, w) && Distinct(w))
    ensures t !in r ==> Chain(nodes, g, r)
    ensures r != [] ==> Leads(nodes, g, r)
  {
    hide Place, InsertAt, Distinct;
    if r != [] { ChainLeads(nodes, g, r); }
    first := Insert(nodes, timer, head, t, s);
  }

  /** A timer that the links lead to is on whatever list they are. */
  lemma {:induction false} ReachedIsListed(nodes: seq<Node>, head: Node?, s: seq<nat>, t: nat, w: seq<nat>)
    requires Numbered(nodes) && Leads(nodes, head, s) && s[|s| - 1] == t && Chain(nodes, head, w)
    ensures t in w
  {
    LeadsInto(nodes, head, s, w, |s| - 1);
  }

  lemma {:induction false} ChainLeads(nodes: seq<Node>, head: Node?, s: seq<nat>)
    requires Chain(nodes, head, s) && s != []
    ensures Leads(nodes, head, s)
  {
  }

  /** All timers, the two list heads, and the service task's place in its loop. */
  class Service {
    const nodes: seq<Node>
    var timer: seq<Timer>
    var blockedHead: Node?
    var activeHead: Node?
    var now: nat
    var pending: nat
    var taken: bool
    var inHand: Option<nat>
    /** The value all this represents. */
    ghost var k: Timers

    ghost predicate FieldsMatch()
      reads this
    {
      && timer == k.timer && |timer| == |nodes| && now == k.now && pending == k.pending && taken == k.taken && inHand == k.inHand
    }

    ghost predicate Valid()
      reads this, nodes
    {
      && Numbered(nodes) && FieldsMatch()
      && Chain(nodes, blockedHead, k.blocked) && Chain(nodes, activeHead, k.active)
      && ListsOk(k.timer, k.blocked, k.active)
    }

    /** software_timer_init, with a pool of `n` timers not created yet. */
    constructor (nodes: seq<Node>, timer: seq<Timer>)
      requires Numbered(nodes) && |timer| == |nodes|
      requires forall t | 0 <= t < |timer| :: timer[t].listId == NoList && OnGrid(timer[t])
      ensures Valid() && Init(k) && this.nodes == nodes && k.timer == timer
    {
      this.nodes, this.timer := nodes, timer;
      blockedHead, activeHead, now, pending, taken, inHand := null, null, 0, 0, false, None;
      k := Timers(0, timer, [], [], 0, false, None);
    }

    /** Links a timer that is on no list into the blocked list; its record is set first. */
    method AddToBlocked(t: nat, x: Timer)
      requires Valid() && t < |nodes| && t !in k.blocked && t !in k.active
      modifies this`timer, this`blockedHead, this`k, nodes
      ensures Valid() && k == Arm(old(k), t, x)
    {
      hide Place, Nth, InsertAt, Distinct;
      ghost var r := Arm(k, t, x);
      ArmLists(k, t, x);
      timer := timer[t := x.(listId := BlockedList)];
      var first := Insert(nodes, timer, blockedHead, t, k.blocked);
      assert Chain(nodes, activeHead, k.active) by { Members(k.active); }
      hide Chain, ListsOk;
      blockedHead := first;
      k := r;
    }

    lemma Members(s: seq<nat>)
      ensures forall i | 0 <= i < |s| :: s[i] in s
    {
    }

    lemma ArmLists(k: Timers, t: nat, x: Timer)
      requires ListsOk(k.timer, k.blocked, k.active) && t < |k.timer| && t !in k.blocked && t !in k.active
      ensures var r := Arm(k, t, x); ListsOk(r.timer, r.blocked, r.active)
    {
      hide Place;
      InsertAtMembers(k.blocked, Place(k.timer[t := x.(listId := BlockedList)], k.blocked, x.expiry), t);
      hide InsertAt;
    }

    /** Takes a timer off whichever list its tag names. */
    method TakeOff(t: nat)
      requires Valid() && t < |nodes|
      modifies this, nodes
      ensures Valid() && k == SetTimer(Unlinked(old(k), t), t, old(k).timer[t].(listId := NoList))
      ensures t !in k.blocked && t !in k.active
    {
      hide Nth, Without, Distinct, ListsOk;
      ghost var r := SetTimer(Unlinked(k, t), t, k.timer[t].(listId := NoList));
      UnlinkLists(k, t);
      ListsApart(k);
      if timer[t].listId == BlockedList {
        var first, found := Unlink(nodes, blockedHead, t, k.blocked);
        assert Chain(nodes, activeHead, k.active) by { Members(k.active); }
        blockedHead := first;
      } else if timer[t].listId == ActiveList {
        var first, found := Unlink(nodes, activeHead, t, k.active);
        assert Chain(nodes, blockedHead, k.blocked) by { Members(k.blocked); }
        activeHead := first;
      }
      hide Chain;
      timer := timer[t := timer[t].(listId := NoList)];
      k := r;
    }

    lemma ListsApart(k: Timers)
      requires ListsOk(k.timer, k.blocked, k.active)
      ensures Distinct(k.blocked) && Distinct(k.active) && forall u | u in k.active :: u !in k.blocked
    {
    }

    /** The links from the two heads are lists that agree with the timers' tags. */
    ghost predicate Sound()
      reads this, nodes
    {
      exists b: seq<nat>, a: seq<nat> :: Chain(nodes, blockedHead, b) && Chain(nodes, activeHead, a) && ListsOk(timer, b, a)
    }

    /** software_timer_create: the record is written whatever list the timer is on, and the timer
        is armed at once only when the scheduler runs.  What the two heads lead to afterwards is
        sound if and only if nothing was created or the timer was on no list. */
    method Create(t: nat, period: nat, periodic: bool, running: bool) returns (ok: bool)
      requires Valid() && t < |nodes|
      modifies this, nodes
      ensures ok <==> period != 0
      ensures period == 0 || old(k).timer[t].listId == NoList ==> Valid() && k == DoCreate(old(k), t, period, periodic, running)
      ensures Sound() <==> period == 0 || old(k).timer[t].listId == NoList
    {
      hide Chain, Distinct, Arm, Sound, ListsOk;
      if period == 0 {
        ValidSound();
        return false;
      }
      ghost var linked := k.timer[t].listId != NoList;
      if running {
        ArmAnew(t, Timer(now + period, period, periodic, NoList, now + period, 0));
      } else {
        Anew(t, Timer(0, period, periodic, NoList, 0, 0));
      }
      if !linked { ValidSound(); }
      return true;
    }

    /** Writes timer `t`'s record anew, on no list; whatever pointed to it still does. */
    method Anew(t: nat, x: Timer)
      requires Valid() && t < |nodes| && x.listId == NoList
      modifies this`timer, this`k, nodes
      ensures Numbered(nodes) && timer == old(timer)[t := x] && nodes[t].next == null
      ensures Chain(nodes, blockedHead, UpTo(old(k).blocked, t)) && Chain(nodes, activeHead, UpTo(old(k).active, t))
      ensures k == if old(k).timer[t].listId == NoList then SetTimer(old(k), t, x) else old(k)
      ensures if old(k).timer[t].listId == NoList then Valid() else !Sound()
    {
      hide Nth, Distinct, UpTo, Chain, Leads;
      CutLink(nodes, t, blockedHead, k.blocked, activeHead, k.active);
      UpToIs(nodes, k.blocked, t);
      UpToIs(nodes, k.active, t);
      timer := timer[t := x];
      if old(k).timer[t].listId == NoList {
        k := SetTimer(k, t, x);
      } else {
        forall b: seq<nat>, a: seq<nat> ensures !(Chain(nodes, blockedHead, b) && Chain(nodes, activeHead, a) && ListsOk(timer, b, a)) {
          StillReached(t, UpTo(old(k).blocked, t), UpTo(old(k).active, t), b, a);
        }
      }
    }

    /** The links lead to `t`, whose tag names no list. */
    lemma {:induction false} StillReached(t: nat, b0: seq<nat>, a0: seq<nat>, b: seq<nat>, a: seq<nat>)
      requires Numbered(nodes) && t < |timer| && timer[t].listId == NoList
      requires Chain(nodes, blockedHead, b0) && Chain(nodes, activeHead, a0)
      requires (b0 != [] && b0[|b0| - 1] == t) || (a0 != [] && a0[|a0| - 1] == t)
      ensures !(Chain(nodes, blockedHead, b) && Chain(nodes, activeHead, a) && ListsOk(timer, b, a))
    {
      if Chain(nodes, blockedHead, b) && Chain(nodes, activeHead, a) {
        if b0 != [] && b0[|b0| - 1] == t {
          ChainLeads(nodes, blockedHead, b0);
          ReachedIsListed(nodes, blockedHead, b0, t, b);
        } else {
          ChainLeads(nodes, activeHead, a0);
          ReachedIsListed(nodes, activeHead, a0, t, a);
        }
      }
    }

    /** The links from the active list's head lead to `t`, which is tagged blocked. */
    lemma {:induction false} StillActive(t: nat, a0: seq<nat>)
      requires Numbered(nodes) && t < |timer| && timer[t].listId == BlockedList
      requires Leads(nodes, activeHead, a0) && a0[|a0| - 1] == t
      ensures !Sound()
    {
      forall b: seq<nat>, a: seq<nat> ensures !(Chain(nodes, blockedHead, b) && Chain(nodes, activeHead, a) && ListsOk(timer, b, a)) {
        if Chain(nodes, activeHead, a) { ReachedIsListed(nodes, activeHead, a0, t, a); }
      }
    }

    lemma {:induction false} NoBlockedList()
      requires forall w: seq<nat> :: !(Chain(nodes, blockedHead, w) && Distinct(w))
      ensures !Sound()
    {
      hide Chain;
      forall b: seq<nat>, a: seq<nat> ensures !(Chain(nodes, blockedHead, b) && Chain(nodes, activeHead, a) && ListsOk(timer, b, a)) {
        if ListsOk(timer, b, a) { assert Distinct(b); }
      }
    }

    /** The same, and arms it. */
    method ArmAnew(t: nat, x: Timer)
      requires Valid() && t < |nodes| && x.listId == NoList
      modifies this`timer, this`blockedHead, this`k, nodes
      ensures k == if old(k).timer[t].listId == NoList then Arm(old(k), t, x) else old(k)
      ensures if old(k).timer[t].listId == NoList then Valid() else !Sound()
    {
      hide Place, Nth, InsertAt, Distinct, Chain, Leads, UpTo, Arm, Sound;
      ghost var k0 := k;
      ghost var b, a := UpTo(k.blocked, t), UpTo(k.active, t);
      ListsApart(k);
      UpToIs(nodes, k.blocked, t);
      UpToIs(nodes, k.active, t);
      UpToDistinct(k.blocked, t);
      TagTells(k, t);
      CutsApart(k, t);
      if k.timer[t].listId == NoList { ArmIs(k, t, x); }
      Anew(t, x);
      timer := timer[t := x.(listId := BlockedList)];
      assert timer == k0.timer[t := x.(listId := BlockedList)];
      var first := InsertBeside(nodes, timer, blockedHead, t, b, activeHead, a);
      blockedHead := first;
      if k0.timer[t].listId == NoList {
        k := Arm(k0, t, x);
      } else if t in k0.blocked {
        NoBlockedList();
      } else {
        StillActive(t, a);
      }
    }

    lemma {:induction false} CutsApart(k: Timers, t: nat)
      requires ListsOk(k.timer, k.blocked, k.active)
      ensures var a := UpTo(k.active, t); forall i | 0 <= i < |a| :: a[i] !in UpTo(k.blocked, t) && (a[i] == t ==> i == |a| - 1)
    {
      UpToIs([], k.blocked, t);
      UpToIs([], k.active, t);
      hide UpTo;
      var b, a := UpTo(k.blocked, t), UpTo(k.active, t);
      forall i | 0 <= i < |a| ensures a[i] !in b {
        assert a[i] == k.active[i] && k.active[i] in k.active;
        assert forall j | 0 <= j < |b| :: b[j] == k.blocked[j] && k.blocked[j] in k.blocked;
      }
    }

    lemma {:induction false} ArmIs(k: Timers, t: nat, x: Timer)
      requires ListsOk(k.timer, k.blocked, k.active) && t < |k.timer| && t !in k.blocked && t !in k.active
      ensures var r := Arm(k, t, x); var timer' := k.timer[t := x.(listId := BlockedList)];
        && ListsOk(r.timer, r.blocked, r.active)
        && r == k.(timer := timer', blocked := InsertAt(k.blocked, Place(timer', k.blocked, x.expiry), t))
    {
      ArmLists(k, t, x);
      hide Place, InsertAt, ListsOk;
    }

    lemma {:induction false} TagTells(k: Timers, t: nat)
      requires ListsOk(k.timer, k.blocked, k.active) && t < |k.timer|
      ensures t in k.blocked <==> k.timer[t].listId == BlockedList
      ensures t in k.active <==> k.timer[t].listId == ActiveList
    {
    }

    lemma {:induction false} ValidSound()
      requires Valid()
      ensures Sound()
    {
    }

    /** software_timer_stop. */
    method Stop(t: nat)
      requires Valid() && t < |nodes|
      modifies this, nodes
      ensures Valid() && k == DoStop(old(k), t)
    {
      hide Valid, Without;
      TakeOff(t);
    }

    /** software_timer_reset. */
    method Reset(t: nat)
      requires Valid() && t < |nodes|
      modifies this, nodes
      ensures |nodes| == |old(k).timer| && Valid() && k == DoRestart(old(k), t)
    {
      hide Valid, Without, Arm, Unlinked;
      Fields();
      var e := now + timer[t].period;
      RestartIsArm(k, t);
      UnlinkedTimer(k, t);
      ghost var x := k.timer[t].(expiry := e, base := e, fired := 0);
      TakeOff(t);
      Fields();
      ArmTag(k, t, x);
      AddToBlocked(t, timer[t].(expiry := e, base := e, fired := 0));
    }

    lemma Fields()
      requires Valid()
      ensures FieldsMatch()
    {
    }

    lemma UnlinkedTimer(k: Timers, t: nat)
      requires t < |k.timer|
      ensures Unlinked(k, t).timer == k.timer
    {
    }

    /** Arming sets the tag, whatever it was. */
    lemma ArmTag(k: Timers, t: nat, x: Timer)
      requires t < |k.timer|
      ensures Arm(k, t, x) == Arm(k, t, x.(listId := NoList))
    {
    }

    /** software_timer_pop_to_active of the first timer, and the token for it. */
    method ExpireHead()
      requires Valid() && k.blocked != []
      modifies this, nodes
      ensures old(k).blocked[0] < |old(k).timer| && Valid() && k == Expire(old(k))
    {
      hide Nth, Without, Distinct, ListsOk;
      NthIs(nodes, k.blocked, 0);
      ghost var r := Expire(k);
      ExpireLists(k);
      var t := blockedHead.id;
      var first, found := Unlink(nodes, blockedHead, t, k.blocked);
      assert Chain(nodes, activeHead, k.active) by { Members(k.active); }
      var front := Push(nodes, activeHead, t, k.active);
      assert Chain(nodes, first, r.blocked) by { Members(r.blocked); }
      hide Chain;
      blockedHead := first;
      activeHead := front;
      timer := timer[t := timer[t].(listId := ActiveList)];
      pending := pending + 1;
      k := r;
    }

    /** What moving the head relies on. */
    lemma ExpireLists(k: Timers)
      requires ListsOk(k.timer, k.blocked, k.active) && k.blocked != []
      ensures Distinct(k.blocked) && k.blocked[0] in k.blocked && Without(k.blocked, k.blocked[0]) == k.blocked[1..]
      ensures k.blocked[0] < |k.timer| && k.blocked[0] !in k.active && k.blocked[0] !in k.blocked[1..]
      ensures forall u | u in k.active :: u !in k.blocked
      ensures var r := Expire(k); ListsOk(r.timer, r.blocked, r.active)
    {
      MoveHead(k.timer, k.blocked, k.active);
      WithoutHead(k.blocked);
      assert k.blocked[0] in k.blocked;
    }

    /** software_timer_tick, after the tick count went up. */
    method TimerTick()
      requires Valid() && TimersInv(k)
      modifies this, nodes
      ensures Valid() && k == DoTick(old(k))
    {
      hide Chain, ListsOk, Expire;
      ClockTick();
      HeadOf();
      while blockedHead != null && timer[blockedHead.id].expiry <= now
        invariant Valid() && TimersInv(k) && ExpireAll(k) == DoTick(old(k))
        invariant blockedHead != null ==> blockedHead.id < |timer|
        decreases |k.blocked|
      {
        HeadOf();
        SoftwareTimer.ExpireKeeps(k);
        ExpireShortens(k);
        ExpireHead();
        HeadOf();
      }
      HeadOf();
    }

    method ClockTick()
      requires Valid() && TimersInv(k)
      modifies this`now, this`k
      ensures Valid() && TimersInv(k) && k == old(k).(now := old(k).now + 1)
    {
      hide Chain, ListsOk, Sorted;
      now := now + 1;
      k := k.(now := k.now + 1);
    }

    lemma HeadOf()
      requires Valid()
      ensures blockedHead == null <==> k.blocked == []
      ensures blockedHead != null ==> blockedHead.id == k.blocked[0] < |timer| && |timer| == |k.timer| && timer == k.timer && now == k.now
      ensures activeHead == null <==> k.active == []
      ensures activeHead != null ==> activeHead.id == k.active[0] < |timer| && |timer| == |k.timer|
    {
    }

    lemma ExpireShortens(k: Timers)
      requires k.blocked != [] && k.blocked[0] < |k.timer|
      ensures |Expire(k).blocked| < |k.blocked|
    {
    }

    /** The service task's semaphore_take returns. */
    method Take()
      requires Valid() && k.pending > 0
      modifies this`pending, this`taken, this`k
      ensures Valid() && k == old(k).(pending := old(k).pending - 1, taken := true)
    {
      hide Chain, ListsOk;
      pending, taken := pending - 1, true;
      k := k.(pending := k.pending - 1, taken := true);
    }

    /** Its first critical section: one timer off the active list, if there is one. */
    method PopExpired()
      requires Valid()
      modifies this, nodes
      ensures (old(k).active != [] ==> old(k).active[0] < |old(k).timer|) && Valid() && k == DoPop(old(k))
    {
      hide Nth, Without, Distinct, ListsOk;
      HeadOf();
      ghost var r := DoPop(k);
      taken := false;
      if activeHead != null {
        var t := activeHead.id;
        NthIs(nodes, k.active, 0);
        WithoutHead(k.active);
        ListsApart(k);
        PopLists(k);
        var first, found := Unlink(nodes, activeHead, t, k.active);
        assert Chain(nodes, blockedHead, k.blocked) by { Members(k.blocked); }
        hide Chain;
        activeHead := first;
        timer := timer[t := timer[t].(listId := NoList)];
        inHand := Some(t);
        k := r;
      } else {
        k := r;
      }
    }

    lemma PopLists(k: Timers)
      requires ListsOk(k.timer, k.blocked, k.active) && k.active != [] && k.active[0] < |k.timer|
      ensures var r := DoPop(k); ListsOk(r.timer, r.blocked, r.active) && k.active[0] in k.active
    {
      RemoveAtMembers(k.active, 0);
      assert RemoveAt(k.active, 0) == k.active[1..];
    }

    /** Its second critical section: a periodic timer goes back, one period after its last expiry. */
    method RearmInHand()
      requires Valid() && k.inHand.Some? && k.inHand.value < |k.timer|
      requires k.timer[k.inHand.value].periodic ==> k.timer[k.inHand.value].listId == NoList
      modifies this, nodes
      ensures Valid() && k == DoRearm(old(k), old(k).inHand.value)
    {
      hide Chain, Distinct, Arm;
      var t := inHand.value;
      var x := timer[t];
      if x.periodic {
        AddToBlocked(t, x.(expiry := x.expiry + x.period, fired := x.fired + 1));
      }
      hide ListsOk;
      inHand := None;
      k := k.(inHand := None);
    }

    /** Any act on the linked lists. */
    method Perform(a: Act)
      requires Valid() && TimersInv(k) && Allowed(k, a)
      modifies this, nodes
      ensures Valid() && TimersInv(k) && k == Step(old(k), a)
    {
      hide Valid, DoTick, Arm, Without, Sorted;
      StepKeeps(k, a);
      Fields();
      match a {
        case Create(t, period, periodic, running) => var ok := Create(t, period, periodic, running);
        case Stop(t) => Stop(t);
        case Restart(t) => Reset(t);
        case Tick => TimerTick();
        case Take => Take();
        case Pop => PopExpired();
        case Rearm => RearmInHand();
      }
    }

    /** Every run of calls, ticks and service steps, on the linked lists. */
    method Execute(acts: seq<Act>)
      requires Valid() && TimersInv(k) && Legal(k, acts)
      modifies this, nodes
      ensures Valid() && k == After(old(k), acts)
    {
      hide Valid, TimersInv, Step, Allowed;
      var i := 0;
      while i < |acts|
        invariant 0 <= i <= |acts| && Valid() && TimersInv(k) && Legal(k, acts[i..])
        invariant After(k, acts[i..]) == After(old(k), acts)
      {
        assert acts[i..][1..] == acts[i + 1..];
        Perform(acts[i]);
        i := i + 1;
      }
    }
  }
}
