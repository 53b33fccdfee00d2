/** The bounded queue: any number of senders and receivers, on any cores, interleaved between
    their accesses to the two semaphores, the lock and the buffer. */
module Queue {
  import opened Sequences
  import opened Bytes

  /** Where a task is inside queue_send or queue_recv. */
  datatype Pc =
    | Idle
    | SendToken(item: seq<byte>)               // holds a space token
    | Writing(item: seq<byte>, i: nat)         // holds the lock, `i` bytes copied
    | SendAdvanced                             // head moved on, lock still held
    | SendGiving                               // lock released, data token still to be given
    | RecvToken                                // holds a data token
    | Reading(part: seq<byte>)                 // holds the lock, `part` copied
    | RecvAdvanced
    | RecvGiving

  /** `sent` and `got` record the items written and read, in order. */
  datatype Q = Q(
    size: nat, slots: seq<seq<byte>>, head: nat, tail: nat, space: nat, data: nat,
    lock: Option<nat>, pc: seq<Pc>, sent: seq<seq<byte>>, got: seq<seq<byte>>)

  datatype Event = StartSend(task: nat, item: seq<byte>) | StartRecv(task: nat) | Go(task: nat)

  function Capacity(q: Q): nat { |q.slots| }

  /** The next place around the ring. */
  function Succ(i: nat, n: nat): nat { if i + 1 >= n then 0 else i + 1 }

  lemma SuccIsMod(i: nat, n: nat)
    requires i < n
    ensures Succ(i, n) == (i + 1) % n
  {
    if i + 1 < n { assert (i + 1) % n == i + 1; } else { assert n % n == 0; }
  }

  /** `k` places on from `i`. */
  function Wrap(i: nat, k: nat, n: nat): nat { if i + k < n then i + k else i + k - n }

  predicate Locked(pc: Pc) { pc.Writing? || pc.SendAdvanced? || pc.Reading? || pc.RecvAdvanced? }

  predicate Enabled(q: Q, e: Event) {
    && e.task < |q.pc| && q.head < |q.slots| && q.tail < |q.slots|
    && |q.slots[q.head]| == |q.slots[q.tail]| == q.size
    && match e
       case StartSend(t, item) => q.pc[t] == Idle && |item| == q.size && q.space > 0
       case StartRecv(t) => q.pc[t] == Idle && q.data > 0
       case Go(t) => q.pc[t] != Idle && (q.pc[t].SendToken? || q.pc[t].RecvToken? ==> q.lock == None)
                     && (q.pc[t].Writing? ==> |q.pc[t].item| == q.size)
  }

  function At(q: Q, t: nat, pc: Pc): Q
    requires t < |q.pc|
  {
    q.(pc := q.pc[t := pc])
  }

  /** semaphore_give refuses at its ceiling. */
  function GiveTo(count: nat, max: nat): nat { if count < max then count + 1 else count }

  function Next(q: Q, e: Event): (r: Q)
    requires Enabled(q, e)
    ensures |r.slots| == |q.slots|
  {
    var t := e.task;
    match e
    case StartSend(_, item) => At(q.(space := q.space - 1), t, SendToken(item))
    case StartRecv(_) => At(q.(data := q.data - 1), t, RecvToken)
    case Go(_) =>
      match q.pc[t]
      case SendToken(item) => At(q.(lock := Some(t)), t, Writing(item, 0))
      case Writing(item, i) =>
        if i < q.size then
          At(q.(slots := q.slots[q.head := q.slots[q.head][i := item[i]]]), t, Writing(item, i + 1))
        else At(q.(head := Succ(q.head, Capacity(q)), sent := q.sent + [item]), t, SendAdvanced)
      case SendAdvanced => At(q.(lock := None), t, SendGiving)
      case SendGiving => At(q.(data := GiveTo(q.data, Capacity(q))), t, Idle)
      case RecvToken => At(q.(lock := Some(t)), t, Reading([]))
      case Reading(part) =>
        if |part| < q.size then At(q, t, Reading(part + [q.slots[q.tail][|part|]]))
        else At(q.(tail := Succ(q.tail, Capacity(q)), got := q.got + [part]), t, RecvAdvanced)
      case RecvAdvanced => At(q.(lock := None), t, RecvGiving)
      case RecvGiving => At(q.(space := GiveTo(q.space, Capacity(q))), t, Idle)
  }

  // ---------------------------------------------------------------- invariant

  /** Operations in flight, by what they hold: a space or data token not used up yet, or a token
      of the other kind they are about to give. */
  function Storing(): Pc -> bool { (pc: Pc) => pc.SendToken? || pc.Writing? }

  function Stored(): Pc -> bool { (pc: Pc) => pc.SendAdvanced? || pc.SendGiving? }

  function Fetching(): Pc -> bool { (pc: Pc) => pc.RecvToken? || pc.Reading? }

  function Fetched(): Pc -> bool { (pc: Pc) => pc.RecvAdvanced? || pc.RecvGiving? }

  function InFlight(pc: seq<Pc>): nat {
    Tally(pc, Storing()) + Tally(pc, Stored()) + Tally(pc, Fetching()) + Tally(pc, Fetched())
  }

  /** Items written and not yet read. */
  function Unread(q: Q): nat { if |q.sent| >= |q.got| then |q.sent| - |q.got| else 0 }

  ghost predicate TokensOk(q: Q) {
    && |q.got| <= |q.sent| && Unread(q) <= Capacity(q)
    && Unread(q) == q.data + Tally(q.pc, Fetching()) + Tally(q.pc, Stored())
    && Capacity(q) - Unread(q) == q.space + Tally(q.pc, Storing()) + Tally(q.pc, Fetched())
  }

  ghost predicate Shaped(q: Q) {
    && 0 < |q.slots| && q.head < |q.slots| && q.tail < |q.slots|
    && (forall i | 0 <= i < |q.slots| :: |q.slots[i]| == q.size)
  }

  /** The unread items sit in the ring from the tail on, oldest first; what was read is what was
      written, in the same order. */
  ghost predicate RingOk(q: Q) {
    && Shaped(q)
    && |q.got| <= |q.sent| && Unread(q) <= Capacity(q)
    && q.head == Wrap(q.tail, Unread(q), Capacity(q))
    && q.got == q.sent[..|q.got|]
    && (forall k | 0 <= k < Unread(q) :: q.slots[Wrap(q.tail, k, Capacity(q))] == q.sent[|q.got| + k])
  }

  /** The lock admits one task, and that task's copy so far is right. */
  ghost predicate CopyOk(q: Q, t: nat)
    requires t < |q.pc| && Shaped(q)
  {
    && (Locked(q.pc[t]) <==> q.lock == Some(t))
    && match q.pc[t]
       case SendToken(item) => |item| == q.size
       case Writing(item, i) => |item| == q.size && i <= q.size && q.slots[q.head][..i] == item[..i]
       case Reading(part) => |part| <= q.size && part == q.slots[q.tail][..|part|]
       case _ => true
  }

  ghost predicate QueueInv(q: Q) {
    && TokensOk(q) && RingOk(q)
    && forall t | 0 <= t < |q.pc| :: CopyOk(q, t)
  }

  // ---------------------------------------------------------------- preservation

  lemma MoveTask(q: Q, t: nat, pc: Pc)
    requires t < |q.pc|
    ensures var r := q.pc[t := pc];
      && Tally(r, Storing()) == Tally(q.pc, Storing()) - (if Storing()(q.pc[t]) then 1 else 0) + (if Storing()(pc) then 1 else 0)
      && Tally(r, Stored()) == Tally(q.pc, Stored()) - (if Stored()(q.pc[t]) then 1 else 0) + (if Stored()(pc) then 1 else 0)
      && Tally(r, Fetching()) == Tally(q.pc, Fetching()) - (if Fetching()(q.pc[t]) then 1 else 0) + (if Fetching()(pc) then 1 else 0)
      && Tally(r, Fetched()) == Tally(q.pc, Fetched()) - (if Fetched()(q.pc[t]) then 1 else 0) + (if Fetched()(pc) then 1 else 0)
  {
    TallyUpdate(q.pc, t, pc, Storing());
    TallyUpdate(q.pc, t, pc, Stored());
    TallyUpdate(q.pc, t, pc, Fetching());
    TallyUpdate(q.pc, t, pc, Fetched());
  }

  /** Every token is in a semaphore, or spoken for by one operation in flight. */
  lemma TokensAddUp(q: Q)
    requires TokensOk(q)
    ensures q.space + q.data + InFlight(q.pc) == Capacity(q)
  {
  }

  /** A task about to give a token finds the semaphore below its ceiling. */
  lemma CeilingNeverHit(q: Q, t: nat)
    requires TokensOk(q) && t < |q.pc|
    ensures q.pc[t].SendGiving? ==> q.data < Capacity(q)
    ensures q.pc[t].RecvGiving? ==> q.space < Capacity(q)
  {
    if q.pc[t].SendGiving? { TallyPositive(q.pc, t, Stored()); }
    if q.pc[t].RecvGiving? { TallyPositive(q.pc, t, Fetched()); }
  }

  lemma TokensKept(q: Q, e: Event)
    requires TokensOk(q) && Enabled(q, e) && 0 < |q.slots|
    ensures TokensOk(Next(q, e))
  {
    var t := e.task;
    var r := Next(q, e);
    MoveTask(q, t, r.pc[t]);
    assert r.pc == q.pc[t := r.pc[t]];
    CeilingNeverHit(q, t);
    if q.pc[t].Writing? || q.pc[t].SendToken? { TallyPositive(q.pc, t, Storing()); }
    if q.pc[t].Reading? || q.pc[t].RecvToken? { TallyPositive(q.pc, t, Fetching()); }
    hide Tally, Storing, Stored, Fetching, Fetched;
  }

  /** A sender's slot holds no unread item, so its stores overwrite none. */
  lemma WritesFreeSlot(q: Q, t: nat, k: nat)
    requires QueueInv(q) && t < |q.pc| && q.pc[t].Writing? && k < Unread(q)
    ensures Unread(q) < Capacity(q) && Wrap(q.tail, k, Capacity(q)) != q.head
  {
    TallyPositive(q.pc, t, Storing());
  }

  /** A receiver's slot holds the oldest unread item. */
  lemma ReadsWrittenSlot(q: Q, t: nat)
    requires QueueInv(q) && t < |q.pc| && (q.pc[t].Reading? || q.pc[t].RecvToken?)
    ensures |q.got| < |q.sent| && q.slots[q.tail] == q.sent[|q.got|]
  {
    TallyPositive(q.pc, t, Fetching());
    hide Tally;
    assert q.slots[Wrap(q.tail, 0, Capacity(q))] == q.sent[|q.got|];
  }

  lemma RingKept(q: Q, e: Event)
    requires QueueInv(q) && Enabled(q, e)
    ensures RingOk(Next(q, e))
  {
    var t := e.task;
    var r := Next(q, e);
    assert CopyOk(q, t);
    hide Tally, TokensOk, CopyOk;
    match q.pc[t] {
      case Writing(item, i) =>
        if i < q.size {
          StoreKept(q, t, item, i);
        } else {
          SendKept(q, t, item);
        }
      case Reading(part) =>
        ReadsWrittenSlot(q, t);
        if |part| == q.size {
          RecvKept(q, t, part);
        }
      case Idle | SendToken(_) | SendAdvanced | SendGiving | RecvToken | RecvAdvanced | RecvGiving =>
    }
  }

  lemma StoreKept(q: Q, t: nat, item: seq<byte>, i: nat)
    requires QueueInv(q) && t < |q.pc| && q.pc[t] == Writing(item, i) && i < q.size && |item| == q.size
    ensures RingOk(q.(slots := q.slots[q.head := q.slots[q.head][i := item[i]]], pc := q.pc[t := Writing(item, i + 1)]))
  {
    forall k | 0 <= k < Unread(q) ensures Wrap(q.tail, k, Capacity(q)) != q.head { WritesFreeSlot(q, t, k); }
    hide TokensOk, CopyOk;
  }

  lemma SendKept(q: Q, t: nat, item: seq<byte>)
    requires QueueInv(q) && t < |q.pc| && q.pc[t].Writing? && q.slots[q.head] == item
    ensures RingOk(q.(head := Succ(q.head, Capacity(q)), sent := q.sent + [item], pc := q.pc[t := SendAdvanced]))
  {
    TallyPositive(q.pc, t, Storing());
    assert Unread(q) < Capacity(q);
    hide TokensOk, CopyOk;
  }

  lemma RecvKept(q: Q, t: nat, part: seq<byte>)
    requires QueueInv(q) && t < |q.pc| && |q.got| < |q.sent| && part == q.sent[|q.got|]
    ensures RingOk(q.(tail := Succ(q.tail, Capacity(q)), got := q.got + [part], pc := q.pc[t := RecvAdvanced]))
  {
    hide TokensOk, CopyOk;
    var r := q.(tail := Succ(q.tail, Capacity(q)), got := q.got + [part], pc := q.pc[t := RecvAdvanced]);
    forall k | 0 <= k < Unread(r) ensures r.slots[Wrap(r.tail, k, Capacity(r))] == r.sent[|r.got| + k] {
      assert Wrap(r.tail, k, Capacity(r)) == Wrap(q.tail, k + 1, Capacity(q));
    }
  }

  lemma CopyKept(q: Q, e: Event, u: nat)
    requires QueueInv(q) && Enabled(q, e) && u < |q.pc| && Shaped(Next(q, e))
    ensures CopyOk(Next(q, e), u)
  {
    hide TokensOk, RingOk;
    if u == e.task { OwnCopyKept(q, e); } else { OtherCopyKept(q, e, u); }
  }

  lemma OwnCopyKept(q: Q, e: Event)
    requires QueueInv(q) && Enabled(q, e) && Shaped(Next(q, e))
    ensures CopyOk(Next(q, e), e.task)
  {
    assert CopyOk(q, e.task);
    hide TokensOk, RingOk;
  }

  /** No other task is at the buffer while one holds the lock. */
  lemma OtherCopyKept(q: Q, e: Event, u: nat)
    requires QueueInv(q) && Enabled(q, e) && u < |q.pc| && u != e.task && Shaped(Next(q, e))
    ensures CopyOk(Next(q, e), u)
  {
    assert CopyOk(q, u) && CopyOk(q, e.task);
    hide TokensOk, RingOk;
  }

  lemma NextKeeps(q: Q, e: Event)
    requires QueueInv(q) && Enabled(q, e)
    ensures QueueInv(Next(q, e))
  {
    var r := Next(q, e);
    TokensKept(q, e);
    RingKept(q, e);
    forall u | 0 <= u < |r.pc| ensures CopyOk(r, u) { CopyKept(q, e, u); }
    hide CopyOk, TokensOk;
  }

  // ---------------------------------------------------------------- runs

  /** queue_init, with `tasks` tasks that may use the queue. */
  ghost predicate Init(q: Q, tasks: nat) {
    && 0 < |q.slots| && (forall i | 0 <= i < |q.slots| :: |q.slots[i]| == q.size)
    && q.head == q.tail == q.data == 0 && q.space == Capacity(q) && q.lock == None
    && q.pc == seq(tasks, _ => Idle) && q.sent == q.got == []
  }

  lemma InitInv(q: Q, tasks: nat)
    requires Init(q, tasks)
    ensures QueueInv(q)
  {
    TallyZero(q.pc, Storing());
    TallyZero(q.pc, Stored());
    TallyZero(q.pc, Fetching());
    TallyZero(q.pc, Fetched());
  }

  ghost predicate Legal(q: Q, es: seq<Event>)
    decreases |es|
  {
    es == [] || (Enabled(q, es[0]) && Legal(Next(q, es[0]), es[1..]))
  }

  ghost function After(q: Q, es: seq<Event>): (r: Q)
    requires Legal(q, es)
    ensures |r.slots| == |q.slots|
    decreases |es|
  {
    if es == [] then q else After(Next(q, es[0]), es[1..])
  }

  lemma {:induction false} RunKeeps(q: Q, es: seq<Event>)
    requires QueueInv(q) && Legal(q, es)
    ensures QueueInv(After(q, es))
    decreases |es|
  {
    hide QueueInv, Next;
    if es != [] {
      NextKeeps(q, es[0]);
      RunKeeps(Next(q, es[0]), es[1..]);
    }
  }

  /** In any interleaving the queue is a FIFO: what has come out is what went in, in order, and
      never more than the capacity lies between the two ends; tokens are conserved throughout. */
  lemma {:induction false} Fifo(q: Q, tasks: nat, es: seq<Event>)
    requires Init(q, tasks) && Legal(q, es)
    ensures var r := After(q, es);
      && |r.got| <= |r.sent| <= |r.got| + Capacity(q) && r.got == r.sent[..|r.got|]
      && r.space + r.data + InFlight(r.pc) == Capacity(q)
  {
    hide Tally, CopyOk;
    InitInv(q, tasks);
    RunKeeps(q, es);
    TokensAddUp(After(q, es));
  }

  // ---------------------------------------------------------------- whose items they are

  /** The items task `t`'s queue_send calls were given in a run, in order. */
  ghost function OfferedBy(es: seq<Event>, t: nat): seq<seq<byte>> {
    if es == [] then []
    else (if es[0].StartSend? && es[0].task == t then [es[0].item] else []) + OfferedBy(es[1..], t)
  }

  /** The item a task is about to write. */
  function Carrying(pc: Pc): seq<seq<byte>> {
    match pc
    case SendToken(item) => [item]
    case Writing(item, _) => [item]
    case _ => []
  }

  /** Task `t`, at `pc`, completes a write with this act. */
  predicate Writes(q: Q, e: Event) {
    e.Go? && e.task < |q.pc| && q.pc[e.task].Writing? && q.pc[e.task].i >= q.size
  }

  predicate Reads(q: Q, e: Event) {
    e.Go? && e.task < |q.pc| && q.pc[e.task].Reading? && |q.pc[e.task].part| >= q.size
  }

  /** The writes a run completes: which task, which item. */
  ghost function WriteLog(q: Q, es: seq<Event>): seq<(nat, seq<byte>)>
    requires Legal(q, es)
    decreases |es|
  {
    if es == [] then []
    else (if Writes(q, es[0]) then [(es[0].task, q.pc[es[0].task].item)] else []) + WriteLog(Next(q, es[0]), es[1..])
  }

  /** The reads it completes: which task, and what it copied out. */
  ghost function ReadLog(q: Q, es: seq<Event>): seq<(nat, seq<byte>)>
    requires Legal(q, es)
    decreases |es|
  {
    if es == [] then []
    else (if Reads(q, es[0]) then [(es[0].task, q.pc[es[0].task].part)] else []) + ReadLog(Next(q, es[0]), es[1..])
  }

  ghost function Items(log: seq<(nat, seq<byte>)>): (s: seq<seq<byte>>)
    ensures |s| == |log|
  {
    if log == [] then [] else [log[0].1] + Items(log[1..])
  }

  /** The items of one task in a log. */
  ghost function ItemsOf(log: seq<(nat, seq<byte>)>, t: nat): seq<seq<byte>> {
    if log == [] then [] else (if log[0].0 == t then [log[0].1] else []) + ItemsOf(log[1..], t)
  }

  lemma {:induction false} LogStep(x: (nat, seq<byte>), now: bool, log: seq<(nat, seq<byte>)>, t: nat)
    ensures Items((if now then [x] else []) + log) == (if now then [x.1] else []) + Items(log)
    ensures ItemsOf((if now then [x] else []) + log, t) == (if now && x.0 == t then [x.1] else []) + ItemsOf(log, t)
  {
    assert [] + log == log && ([x] + log)[1..] == log;
    hide Items, ItemsOf;
    assert [] + Items(log) == Items(log) && [] + ItemsOf(log, t) == ItemsOf(log, t);
  }

  /** One act, and the items it is about. */
  lemma {:induction false} ItemStep(q: Q, e: Event, t: nat)
    requires Enabled(q, e) && t < |q.pc|
    ensures var r := Next(q, e);
      && r.sent == q.sent + (if Writes(q, e) then [q.pc[e.task].item] else [])
      && r.got == q.got + (if Reads(q, e) then [q.pc[e.task].part] else [])
      && if e.StartSend? && e.task == t then Carrying(q.pc[t]) == [] && Carrying(r.pc[t]) == [e.item]
         else if Writes(q, e) && e.task == t then Carrying(q.pc[t]) == [q.pc[t].item] && Carrying(r.pc[t]) == []
         else Carrying(r.pc[t]) == Carrying(q.pc[t])
  {
  }

  lemma {:induction false} RunUnfolds(q: Q, e: Event, es: seq<Event>, t: nat)
    requires Legal(q, [e] + es)
    ensures Enabled(q, e) && Legal(Next(q, e), es) && After(q, [e] + es) == After(Next(q, e), es) && |Next(q, e).pc| == |q.pc|
    ensures WriteLog(q, [e] + es) == (if Writes(q, e) then [(e.task, q.pc[e.task].item)] else []) + WriteLog(Next(q, e), es)
    ensures ReadLog(q, [e] + es) == (if Reads(q, e) then [(e.task, q.pc[e.task].part)] else []) + ReadLog(Next(q, e), es)
    ensures OfferedBy([e] + es, t) == (if e.StartSend? && e.task == t then [e.item] else []) + OfferedBy(es, t)
  {
    SamePcs(q, e);
    hide Next, Enabled;
    assert ([e] + es)[1..] == es;
  }

  lemma {:induction false} SamePcs(q: Q, e: Event)
    requires Enabled(q, e)
    ensures |Next(q, e).pc| == |q.pc|
  {
  }

  /** The write and the read an act would complete, if it does. */
  function TheWrite(q: Q, e: Event): (nat, seq<byte>) { if Writes(q, e) then (e.task, q.pc[e.task].item) else (0, []) }

  function TheRead(q: Q, e: Event): (nat, seq<byte>) { if Reads(q, e) then (e.task, q.pc[e.task].part) else (0, []) }

  lemma {:induction false} Join<T>(a: seq<T>, b: seq<T>, c: seq<T>)
    ensures (a + b) + c == a + (b + c)
  {
  }

  /** What is written and read in a run is the completed writes and reads, one item each. */
  lemma {:induction false} LogsAre(q: Q, es: seq<Event>)
    requires Legal(q, es) && |q.pc| > 0
    ensures After(q, es).sent == q.sent + Items(WriteLog(q, es)) && After(q, es).got == q.got + Items(ReadLog(q, es))
    decreases |es|
  {
    if es == [] {
      assert q.sent + [] == q.sent && q.got + [] == q.got;
    } else {
      var e, rest := es[0], es[1..];
      hide Next, Enabled, Legal, After, WriteLog, ReadLog, OfferedBy, Carrying, Items, ItemsOf;
      assert es == [e] + rest;
      RunUnfolds(q, e, rest, 0);
      ItemStep(q, e, 0);
      var r := Next(q, e);
      LogsAre(r, rest);
      LogStep(TheWrite(q, e), Writes(q, e), WriteLog(r, rest), 0);
      LogStep(TheRead(q, e), Reads(q, e), ReadLog(r, rest), 0);
      Join(q.sent, if Writes(q, e) then [q.pc[e.task].item] else [], Items(WriteLog(r, rest)));
      Join(q.got, if Reads(q, e) then [q.pc[e.task].part] else [], Items(ReadLog(r, rest)));
    }
  }

  /** Every task's writes are the items its calls were given, in order, each once; the last may
      still be on its way. */
  lemma {:induction false} WritesAreOffered(q: Q, es: seq<Event>, t: nat)
    requires Legal(q, es) && t < |q.pc|
    ensures t < |After(q, es).pc|
    ensures ItemsOf(WriteLog(q, es), t) + Carrying(After(q, es).pc[t]) == Carrying(q.pc[t]) + OfferedBy(es, t)
    decreases |es|
  {
    if es == [] {
      assert [] + Carrying(q.pc[t]) == Carrying(q.pc[t]) + [];
    } else {
      var e, rest := es[0], es[1..];
      hide Next, Enabled, Legal, After, WriteLog, ReadLog, OfferedBy, Carrying, Items, ItemsOf;
      assert es == [e] + rest;
      RunUnfolds(q, e, rest, t);
      ItemStep(q, e, t);
      var r := Next(q, e);
      WritesAreOffered(r, rest, t);
      LogStep(TheWrite(q, e), Writes(q, e), WriteLog(r, rest), t);
      WriteFits(q, e, t);
      var now := if Writes(q, e) && e.task == t then [q.pc[t].item] else [];
      var late := if e.StartSend? && e.task == t then [e.item] else [];
      Join(now, ItemsOf(WriteLog(r, rest), t), Carrying(After(r, rest).pc[t]));
      Join(now, Carrying(r.pc[t]), OfferedBy(rest, t));
      Join(Carrying(q.pc[t]), late, OfferedBy(rest, t));
      assert now + Carrying(r.pc[t]) == Carrying(q.pc[t]) + late;
    }
  }

  lemma {:induction false} WriteFits(q: Q, e: Event, t: nat)
    ensures !(Writes(q, e) && e.StartSend?)
  {
  }

  /** In any interleaving, from the beginning: the items written are an interleaving of what the
      tasks' queue_send calls were given, each task's in its own order, and the items read by
      queue_recv calls, in the order they complete, are the first of those. */
  lemma {:induction false} ItemsDelivered(q: Q, tasks: nat, es: seq<Event>)
    requires Init(q, tasks) && Legal(q, es) && tasks > 0
    ensures var written := Items(WriteLog(q, es)); var read := Items(ReadLog(q, es));
      |read| <= |written| <= |read| + Capacity(q) && read == written[..|read|]
    ensures forall t | 0 <= t < tasks :: EachOnce(q, es, t)
  {
    hide Legal, After, WriteLog, ReadLog, Items, ItemsOf, OfferedBy, Tally;
    Fifo(q, tasks, es);
    LogsAre(q, es);
    assert [] + Items(WriteLog(q, es)) == Items(WriteLog(q, es)) && [] + Items(ReadLog(q, es)) == Items(ReadLog(q, es));
    forall t | 0 <= t < tasks ensures EachOnce(q, es, t) {
      WritesAreOffered(q, es, t);
      assert q.pc[t] == Idle;
      assert [] + OfferedBy(es, t) == OfferedBy(es, t);
    }
  }

  /** What task `t`'s calls were given is what it wrote, but for an item on its way. */
  ghost predicate EachOnce(q: Q, es: seq<Event>, t: nat)
    requires Legal(q, es)
  {
    t < |After(q, es).pc| && OfferedBy(es, t) == ItemsOf(WriteLog(q, es), t) + Carrying(After(q, es).pc[t])
  }

  // ---------------------------------------------------------------- the buffer in memory

  /** Slot `p` of a buffer of `size`-byte slots. */
  function SlotOf(buf: seq<byte>, size: nat, p: nat): seq<byte>
    requires p * size + size <= |buf|
  {
    buf[p * size..p * size + size]
  }

  lemma SlotFits(p: nat, n: nat, size: nat)
    requires p < n
    ensures p * size + size <= n * size
  {
    assert (p + 1) * size <= n * size;
  }

  lemma SlotsApart(p: nat, r: nat, size: nat)
    requires p != r
    ensures p * size + size <= r * size || r * size + size <= p * size
  {
    if p < r { SlotFits(p, r, size); } else { SlotFits(r, p, size); }
  }

  lemma OtherSlice(before: seq<byte>, base: nat, src: seq<byte>, at: nat)
    requires base + |src| <= |before| && at + |src| <= |before| && (at + |src| <= base || base + |src| <= at)
    ensures (before[..base] + src + before[base + |src|..])[at..at + |src|] == before[at..at + |src|]
  {
  }

  /** The bytes under the queue's lock. */
  class QueueBuffer {
    const capacity: nat
    const size: nat
    const buf: array<byte>
    var head: nat
    var tail: nat

    ghost predicate Valid()
      reads this
    {
      0 < capacity && buf.Length == capacity * size && head < capacity && tail < capacity
    }

    ghost function Slot(p: nat): seq<byte>
      requires p < capacity && buf.Length == capacity * size
      reads this, buf
    {
      SlotFits(p, capacity, size);
      SlotOf(buf[..], size, p)
    }

    constructor (capacity: nat, size: nat)
      requires 0 < capacity
      ensures Valid() && this.capacity == capacity && this.size == size && head == tail == 0 && fresh(buf)
    {
      this.capacity, this.size := capacity, size;
      buf := new byte[capacity * size](_ => 0);
      head, tail := 0, 0;
    }

    /** queue_send's critical section. */
    method Store(src: seq<byte>)
      requires Valid() && |src| == size
      modifies this`head, buf
      ensures Valid() && head == Succ(old(head), capacity)
      ensures Slot(old(head)) == src
      ensures forall p | 0 <= p < capacity && p != old(head) :: Slot(p) == old(Slot(p))
    {
      SlotFits(head, capacity, size);
      CopyIn(head * size, src);
      forall p | 0 <= p < capacity && p != head ensures Slot(p) == old(Slot(p)) {
        SlotFits(p, capacity, size);
        SlotsApart(p, head, size);
        OtherSlice(old(buf[..]), head * size, src, p * size);
      }
      SuccIsMod(head, capacity);
      head := (head + 1) % capacity;
    }

    /** The byte loop: `src` goes to offset `base`. */
    method CopyIn(base: nat, src: seq<byte>)
      requires base + |src| <= buf.Length
      modifies buf
      ensures buf[..] == old(buf[..])[..base] + src + old(buf[..])[base + |src|..]
    {
      ghost var before := buf[..];
      for i := 0 to |src|
        invariant buf[..] == before[..base] + src[..i] + before[base + i..]
      {
        buf[base + i] := src[i];
      }
    }

    /** queue_recv's critical section. */
    method Fetch() returns (dst: seq<byte>)
      requires Valid()
      modifies this`tail
      ensures Valid() && tail == Succ(old(tail), capacity) && dst == Slot(old(tail))
    {
      SlotFits(tail, capacity, size);
      dst := [];
      for i := 0 to size
        invariant |dst| == i && dst == buf[tail * size..tail * size + i]
      {
        dst := dst + [buf[tail * size + i]];
      }
      SuccIsMod(tail, capacity);
      tail := (tail + 1) % capacity;
    }
  }

  /** A flat buffer seen as `n` slots. */
  ghost function Slots(buf: seq<byte>, size: nat, n: nat): (r: seq<seq<byte>>)
    ensures |r| == n
  {
    seq(n, p requires 0 <= p < n => if p * size + size <= |buf| then SlotOf(buf, size, p) else [])
  }

  lemma SlotsAt(buf: seq<byte>, size: nat, n: nat, p: nat)
    requires |buf| == n * size && p < n
    ensures p * size + size <= |buf| && Slots(buf, size, n)[p] == buf[p * size..p * size + size]
  {
    SlotFits(p, n, size);
  }

  lemma SliceUpdate(buf: seq<byte>, lo: nat, size: nat, i: nat, b: byte)
    requires lo + size <= |buf| && i < size
    ensures buf[lo + i := b][lo..lo + size] == buf[lo..lo + size][i := b]
  {
  }

  lemma SliceAway(buf: seq<byte>, lo: nat, size: nat, at: nat, b: byte)
    requires lo + size <= |buf| && at < |buf| && !(lo <= at < lo + size)
    ensures buf[at := b][lo..lo + size] == buf[lo..lo + size]
  {
  }

  lemma OtherByte(buf: seq<byte>, size: nat, n: nat, p: nat, i: nat, b: byte, r: nat)
    requires |buf| == n * size && p < n && r < n && i < size && p * size + i < |buf|
    ensures var slots: seq<seq<byte>> := Slots(buf, size, n);
      && |slots[p]| == size
      && Slots(buf[p * size + i := b], size, n)[r] == if r == p then slots[p][i := b] else slots[r]
  {
    var at, lo := p * size, r * size;
    SlotsAt(buf, size, n, p);
    SlotsAt(buf, size, n, r);
    SlotsAt(buf[at + i := b], size, n, r);
    if r != p { SlotsApart(p, r, size); }
    hide Slots;
    if r == p { SliceUpdate(buf, at, size, i, b); } else { SliceAway(buf, lo, size, at + i, b); }
  }

  /** Storing one byte of slot `p` changes that slot at that place and no other. */
  lemma StoreByte(buf: seq<byte>, size: nat, n: nat, p: nat, i: nat, b: byte)
    requires |buf| == n * size && p < n && i < size
    ensures p * size + i < |buf| && |Slots(buf, size, n)[p]| == size
    ensures var slots: seq<seq<byte>> := Slots(buf, size, n); var slot: seq<byte> := slots[p][i := b];
      Slots(buf[p * size + i := b], size, n) == slots[p := slot]
  {
    SlotsAt(buf, size, n, p);
    hide Slots;
    forall r | 0 <= r < n
      ensures Slots(buf[p * size + i := b], size, n)[r] == if r == p then Slots(buf, size, n)[p][i := b] else Slots(buf, size, n)[r]
    {
      OtherByte(buf, size, n, p, i, b, r);
    }
  }

  /** The queue as its users share it: the flat buffer, the two counts, the lock, and where each
      task is. */
  class SharedQueue {
    const memory: QueueBuffer
    var space: nat
    var data: nat
    var lock: Option<nat>
    var pc: seq<Pc>
    ghost var sent: seq<seq<byte>>
    ghost var got: seq<seq<byte>>

    ghost predicate Valid()
      reads this, memory
    {
      memory.Valid()
    }

    /** The machine's state that this memory stands for. */
    ghost function Machine(): Q
      requires Valid()
      reads this, memory, memory.buf
    {
      Q(memory.size, Slots(memory.buf[..], memory.size, memory.capacity), memory.head, memory.tail, space, data, lock, pc, sent, got)
    }

    /** queue_init. */
    constructor (capacity: nat, size: nat, tasks: nat)
      requires 0 < capacity
      ensures Valid() && Init(Machine(), tasks) && fresh(memory) && fresh(memory.buf)
    {
      memory := new QueueBuffer(capacity, size);
      space, data, lock, pc := capacity, 0, None, seq(tasks, _ => Idle);
      sent, got := [], [];
      new;
      forall p | 0 <= p < capacity ensures |Slots(memory.buf[..], size, capacity)[p]| == size { SlotsAt(memory.buf[..], size, capacity, p); }
    }

    /** One access of one task to the shared memory is one step of the machine. */
    method Access(e: Event)
      requires Valid() && Enabled(Machine(), e)
      modifies this, memory, memory.buf
      ensures Valid() && Machine() == Next(old(Machine()), e)
    {
      hide Slots;
      match e {
        case StartSend(t, item) =>
          space := space - 1;
          pc := pc[t := SendToken(item)];
        case StartRecv(t) =>
          data := data - 1;
          pc := pc[t := RecvToken];
        case Go(t) => Continue(t);
      }
    }

    method Continue(t: nat)
      requires Valid() && Enabled(Machine(), Go(t))
      modifies this, memory, memory.buf
      ensures Valid() && Machine() == Next(old(Machine()), Go(t))
    {
      hide Slots;
      var size, capacity := memory.size, memory.capacity;
      match pc[t] {
        case SendToken(item) =>
          lock := Some(t);
          pc := pc[t := Writing(item, 0)];
        case Writing(item, i) =>
          if i < size {
            StoreByte(memory.buf[..], size, capacity, memory.head, i, item[i]);
            memory.buf[memory.head * size + i] := item[i];
            pc := pc[t := Writing(item, i + 1)];
          } else {
            SuccIsMod(memory.head, capacity);
            memory.head := (memory.head + 1) % capacity;
            sent := sent + [item];
            pc := pc[t := SendAdvanced];
          }
        case SendAdvanced =>
          lock := None;
          pc := pc[t := SendGiving];
        case SendGiving =>
          data := GiveTo(data, capacity);
          pc := pc[t := Idle];
        case RecvToken =>
          lock := Some(t);
          pc := pc[t := Reading([])];
        case Reading(part) =>
          if |part| < size {
            ReadByte(memory.buf[..], size, capacity, memory.tail, |part|);
            pc := pc[t := Reading(part + [memory.buf[memory.tail * size + |part|]])];
          } else {
            SuccIsMod(memory.tail, capacity);
            memory.tail := (memory.tail + 1) % capacity;
            got := got + [part];
            pc := pc[t := RecvAdvanced];
          }
        case RecvAdvanced =>
          lock := None;
          pc := pc[t := RecvGiving];
        case RecvGiving =>
          space := GiveTo(space, capacity);
          pc := pc[t := Idle];
        case Idle =>
      }
    }
  }

  lemma ReadByte(buf: seq<byte>, size: nat, n: nat, p: nat, i: nat)
    requires |buf| == n * size && p < n && i < size
    ensures p * size + i < |buf| && |Slots(buf, size, n)[p]| == size && Slots(buf, size, n)[p][i] == buf[p * size + i]
  {
    SlotsAt(buf, size, n, p);
  }
}
