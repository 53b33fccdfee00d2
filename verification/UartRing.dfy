/** The UART transmit ring: producers take turns under a lock, the consumer task takes none, and
    every load or store of a byte of the ring or of the other side's index is a step of its own;
    each side reads its own index, which only it writes, for free. */
module UartRing {
  import opened Bytes

  const UART_BUFFER_SIZE: nat := 2056

  /** The producer holding the lock, inside uart_channel_print. */
  datatype Producer =
    | Nobody
    | Sending(text: seq<byte>)                  // `text` left to send
    | Storing(b: byte, text: seq<byte>)         // saw room for `b`
    | Publishing(b: byte, text: seq<byte>)      // stored it, index not moved yet

  /** uart_tx_task. */
  datatype Consumer =
    | Waiting                                   // in semaphore_take
    | Checking                                  // at a drain loop's test
    | Sizing                                    // DMA: saw bytes, about to read the right index
    | Transferring(start: nat, run: nat, i: nat)   // DMA: `i` of `run` bytes out
    | Advancing                                 // PIO: saw bytes, left index not moved yet
    | Emitting                                  // PIO: left index moved, byte not out yet

  /** `accepted` and `sent` record the bytes published to the ring and put on the line; `token` is
      the binary semaphore, `giving` counts producers out of the lock that have not given yet. */
  datatype Ring = Ring(
    buf: seq<byte>, left: nat, right: nat, dma: bool,
    producer: Producer, consumer: Consumer, token: bool, giving: nat,
    accepted: seq<byte>, sent: seq<byte>)

  datatype Event = Begin(text: seq<byte>) | Produce | Give | Consume

  function Size(r: Ring): nat { |r.buf| }

  /** One place on around the ring, as the source computes it modulo the size. */
  function Succ(i: nat, n: nat): nat { if i + 1 >= n then 0 else i + 1 }

  /** `k` places on from `i`. */
  function Wrap(i: nat, k: nat, n: nat): nat { if i + k < n then i + k else i + k - n }

  /** Bytes between the indices, as the consumer computes them. */
  function Available(left: nat, right: nat, n: nat): nat
    requires left <= n
  {
    if right >= left then right - left else right + n - left
  }

  predicate Fits(r: Ring) { 2 <= |r.buf| && r.left < |r.buf| && r.right < |r.buf| }

  predicate Enabled(r: Ring, e: Event) {
    && Fits(r)
    && match e
       case Begin(_) => r.producer == Nobody
       case Produce => r.producer != Nobody
       case Give => r.giving > 0
       case Consume => (r.consumer == Waiting ==> r.token)
                       && (r.consumer.Transferring? ==> r.consumer.start + r.consumer.i < |r.buf| || r.consumer.i >= r.consumer.run)
  }

  function DoProduce(r: Ring): Ring
    requires Fits(r)
  {
    var next := Succ(r.right, Size(r));
    match r.producer
    case Nobody => r
    case Sending(text) =>
      if text == [] then r.(producer := Nobody, giving := r.giving + 1)
      else if next == r.left then r.(producer := Sending(text[1..]))
      else r.(producer := Storing(text[0], text[1..]))
    case Storing(b, text) => r.(buf := r.buf[next := b], producer := Publishing(b, text))
    case Publishing(b, text) => r.(right := next, accepted := r.accepted + [b], producer := Sending(text))
  }

  function DoConsume(r: Ring): Ring
    requires Enabled(r, Consume)
  {
    var n := Size(r);
    match r.consumer
    case Waiting => r.(token := false, consumer := Checking)
    case Checking =>
      if r.right == r.left then r.(consumer := Waiting)
      else if r.dma then r.(consumer := Sizing)
      else r.(consumer := Advancing)
    case Advancing => r.(left := Succ(r.left, n), consumer := Emitting)
    case Sizing =>
      var start := Succ(r.left, n);
      var avail := Available(r.left, r.right, n);
      r.(consumer := Transferring(start, if start + avail > n then n - start else avail, 0))
    case Transferring(start, run, i) =>
      if i < run then r.(sent := r.sent + [r.buf[start + i]], consumer := Transferring(start, run, i + 1))
      else r.(left := if r.left + run >= n then r.left + run - n else r.left + run, consumer := Checking)
    case Emitting => r.(sent := r.sent + [r.buf[r.left]], consumer := Checking)
  }

  function Next(r: Ring, e: Event): Ring
    requires Enabled(r, e)
  {
    match e
    case Begin(text) => r.(producer := Sending(text))
    case Produce => DoProduce(r)
    case Give => r.(giving := r.giving - 1, token := true)
    case Consume => DoConsume(r)
  }

  // ---------------------------------------------------------------- invariant

  /** Bytes of `sent` whose ring slots the consumer has not released yet (DMA), or a slot released
      before its byte went out (PIO). */
  function Released(r: Ring): int {
    match r.consumer
    case Transferring(_, _, i) => |r.sent| - i
    case Emitting => |r.sent| + 1
    case Waiting | Checking | Sizing | Advancing => |r.sent|
  }

  /** Slots between the indices. */
  function Held(r: Ring): int { |r.accepted| - Released(r) }

  /** The byte `k` places after the left index. */
  function ByteAt(buf: seq<byte>, left: nat, k: nat): byte
    requires left < |buf| && k < |buf|
  {
    buf[Wrap(left, k, |buf|)]
  }

  /** The slots after `left` hold `pending`, and one slot at least is spare. */
  ghost predicate Slots(buf: seq<byte>, left: nat, right: nat, pending: seq<byte>) {
    && left < |buf| && |pending| < |buf| && right == Wrap(left, |pending|, |buf|)
    && forall k | 0 <= k < |pending| :: ByteAt(buf, left, k + 1) == pending[k]
  }

  function Pending(r: Ring): seq<byte>
    requires 0 <= Released(r) <= |r.accepted|
  {
    r.accepted[Released(r)..]
  }

  ghost predicate ContentsOk(r: Ring) {
    Fits(r) && 0 <= Released(r) <= |r.accepted| && Slots(r.buf, r.left, r.right, Pending(r))
  }

  ghost predicate ConsumerOk(r: Ring)
    requires Fits(r)
  {
    && |r.sent| <= |r.accepted| && r.sent == r.accepted[..|r.sent|]
    && match r.consumer
       case Transferring(start, run, i) =>
         0 < run && i <= run <= Held(r) && start == Succ(r.left, Size(r)) && start + run <= Size(r) && r.dma
       case Emitting => |r.sent| < |r.accepted| && r.buf[r.left] == r.accepted[|r.sent|] && !r.dma
       case Sizing => Held(r) > 0 && r.dma
       case Advancing => Held(r) > 0 && !r.dma
       case Waiting | Checking => true
  }

  ghost predicate ProducerOk(r: Ring)
    requires Fits(r)
  {
    match r.producer
    case Storing(b, _) => Held(r) + 1 < Size(r)
    case Publishing(b, _) => Held(r) + 1 < Size(r) && r.buf[Succ(r.right, Size(r))] == b
    case Nobody | Sending(_) => true
  }

  /** Bytes in the ring are never forgotten: the consumer is awake, has a token, or will get one. */
  predicate WakeOk(r: Ring) {
    r.consumer == Waiting && Held(r) > 0 ==> r.token || r.giving > 0 || r.producer != Nobody
  }

  ghost predicate RingInv(r: Ring) {
    ContentsOk(r) && ConsumerOk(r) && ProducerOk(r) && WakeOk(r)
  }

  // ---------------------------------------------------------------- preservation

  lemma SuccIsMod(i: nat, n: nat)
    requires i < n
    ensures Succ(i, n) == (i + 1) % n
  {
    if i + 1 < n { assert (i + 1) % n == i + 1; } else { assert n % n == 0; }
  }

  /** The full test, the empty test and the consumer's count, in terms of slots. */
  lemma FullTest(buf: seq<byte>, left: nat, right: nat, pending: seq<byte>)
    requires Slots(buf, left, right, pending)
    ensures Succ(right, |buf|) == left <==> |pending| + 1 == |buf|
    ensures right == left <==> |pending| == 0
    ensures Available(left, right, |buf|) == |pending|
  {
  }

  /** A store to the slot after the right index, while another is spare, meets no pending byte. */
  lemma StoreApart(buf: seq<byte>, left: nat, right: nat, pending: seq<byte>, b: byte)
    requires Slots(buf, left, right, pending) && |pending| + 1 < |buf|
    ensures var next := Succ(right, |buf|);
      && next < |buf| && next != left && Slots(buf[next := b], left, right, pending) && buf[next := b][next] == b
  {
  }

  lemma PublishSlot(buf: seq<byte>, left: nat, right: nat, pending: seq<byte>, b: byte)
    requires Slots(buf, left, right, pending) && |pending| + 1 < |buf| && right < |buf|
    requires Succ(right, |buf|) < |buf| && buf[Succ(right, |buf|)] == b
    ensures Slots(buf, left, Succ(right, |buf|), pending + [b])
  {
    assert ByteAt(buf, left, |pending| + 1) == b;
  }

  /** Releasing `run` slots. */
  lemma ReleaseSlots(buf: seq<byte>, left: nat, right: nat, pending: seq<byte>, run: nat)
    requires Slots(buf, left, right, pending) && run <= |pending|
    ensures Slots(buf, Wrap(left, run, |buf|), right, pending[run..])
  {
    forall k | 0 <= k < |pending| - run ensures ByteAt(buf, Wrap(left, run, |buf|), k + 1) == pending[run..][k] {
      assert ByteAt(buf, left, run + k + 1) == pending[run + k];
    }
  }

  /** Byte `i` of a run that does not cross the end is pending byte `i`. */
  lemma RunByte(buf: seq<byte>, left: nat, right: nat, pending: seq<byte>, i: nat)
    requires Slots(buf, left, right, pending) && i < |pending| && Succ(left, |buf|) + i < |buf|
    ensures buf[Succ(left, |buf|) + i] == pending[i]
  {
    assert ByteAt(buf, left, i + 1) == pending[i];
  }

  lemma StoreKeeps(r: Ring)
    requires RingInv(r) && r.producer.Storing?
    ensures RingInv(DoProduce(r))
  {
    hide Slots;
    StoreApart(r.buf, r.left, r.right, Pending(r), r.producer.b);
    ConsumerSameSlot(r);
  }

  /** The slot the PIO drain is about to send is the spare one, which no store reaches. */
  lemma ConsumerSameSlot(r: Ring)
    requires RingInv(r) && r.producer.Storing?
    ensures ConsumerOk(DoProduce(r))
  {
    StoreApart(r.buf, r.left, r.right, Pending(r), r.producer.b);
    hide Slots;
  }

  lemma PublishKeeps(r: Ring)
    requires RingInv(r) && r.producer.Publishing?
    ensures RingInv(DoProduce(r))
  {
    hide Slots;
    PublishSlot(r.buf, r.left, r.right, Pending(r), r.producer.b);
    assert Pending(DoProduce(r)) == Pending(r) + [r.producer.b];
  }

  lemma SendKeeps(r: Ring)
    requires RingInv(r) && r.producer.Sending?
    ensures RingInv(DoProduce(r))
  {
    hide Slots;
    FullTest(r.buf, r.left, r.right, Pending(r));
  }

  lemma ProduceKeeps(r: Ring)
    requires RingInv(r) && Enabled(r, Produce)
    ensures RingInv(DoProduce(r))
  {
    hide RingInv, DoProduce;
    match r.producer {
      case Storing(_, _) => StoreKeeps(r);
      case Publishing(_, _) => PublishKeeps(r);
      case Sending(_) => SendKeeps(r);
    }
  }

  lemma CheckKeeps(r: Ring)
    requires RingInv(r) && r.consumer == Checking && Enabled(r, Consume)
    ensures RingInv(DoConsume(r))
  {
    hide Slots;
    FullTest(r.buf, r.left, r.right, Pending(r));
  }

  lemma AdvanceKeeps(r: Ring)
    requires RingInv(r) && r.consumer == Advancing && Enabled(r, Consume)
    ensures RingInv(DoConsume(r))
  {
    hide Slots;
    var p := Pending(r);
    ReleaseSlots(r.buf, r.left, r.right, p, 1);
    RunOne(r.buf, r.left, r.right, p);
    assert Pending(DoConsume(r)) == p[1..];
  }

  lemma SizeKeeps(r: Ring)
    requires RingInv(r) && r.consumer == Sizing && Enabled(r, Consume)
    ensures RingInv(DoConsume(r))
  {
    hide Slots;
    FullTest(r.buf, r.left, r.right, Pending(r));
  }

  lemma RunByteKeeps(r: Ring)
    requires RingInv(r) && r.consumer.Transferring? && r.consumer.i < r.consumer.run && Enabled(r, Consume)
    ensures RingInv(DoConsume(r))
  {
    hide Slots;
    RunByte(r.buf, r.left, r.right, Pending(r), r.consumer.i);
    var next := DoConsume(r);
    assert Pending(next) == Pending(r);
    assert next.sent == r.accepted[..|r.sent| + 1];
  }

  lemma RunEndKeeps(r: Ring)
    requires RingInv(r) && r.consumer.Transferring? && r.consumer.i >= r.consumer.run && Enabled(r, Consume)
    ensures RingInv(DoConsume(r))
  {
    hide Slots;
    var p := Pending(r);
    ReleaseSlots(r.buf, r.left, r.right, p, r.consumer.run);
    assert Pending(DoConsume(r)) == p[r.consumer.run..];
    hide Pending;
  }

  lemma TransferKeeps(r: Ring)
    requires RingInv(r) && r.consumer.Transferring? && Enabled(r, Consume)
    ensures RingInv(DoConsume(r))
  {
    hide RingInv, DoConsume;
    if r.consumer.i < r.consumer.run {
      RunByteKeeps(r);
    } else {
      RunEndKeeps(r);
    }
  }

  lemma EmitKeeps(r: Ring)
    requires RingInv(r) && (r.consumer == Emitting || r.consumer == Waiting) && Enabled(r, Consume)
    ensures RingInv(DoConsume(r))
  {
    hide Slots;
  }

  lemma ConsumeKeeps(r: Ring)
    requires RingInv(r) && Enabled(r, Consume)
    ensures RingInv(DoConsume(r))
  {
    hide RingInv, DoConsume;
    match r.consumer {
      case Checking => CheckKeeps(r);
      case Advancing => AdvanceKeeps(r);
      case Sizing => SizeKeeps(r);
      case Transferring(_, _, _) => TransferKeeps(r);
      case Waiting | Emitting => EmitKeeps(r);
    }
  }

  lemma RunOne(buf: seq<byte>, left: nat, right: nat, pending: seq<byte>)
    requires Slots(buf, left, right, pending) && pending != []
    ensures Succ(left, |buf|) == Wrap(left, 1, |buf|) < |buf| && buf[Succ(left, |buf|)] == pending[0]
  {
    assert ByteAt(buf, left, 1) == pending[0];
  }

  lemma NextKeeps(r: Ring, e: Event)
    requires RingInv(r) && Enabled(r, e)
    ensures RingInv(Next(r, e))
  {
    hide Slots;
    match e
    case Produce => ProduceKeeps(r);
    case Consume => ConsumeKeeps(r);
    case Begin(_) | Give =>
  }

  // ---------------------------------------------------------------- runs

  ghost predicate Legal(r: Ring, es: seq<Event>)
    decreases |es|
  {
    es == [] || (Enabled(r, es[0]) && Legal(Next(r, es[0]), es[1..]))
  }

  ghost function After(r: Ring, es: seq<Event>): Ring
    requires Legal(r, es)
    decreases |es|
  {
    if es == [] then r else After(Next(r, es[0]), es[1..])
  }

  /** The ring as uart_channel_task_start finds it, the consumer task about to wait. */
  predicate Init(r: Ring) {
    && 2 <= |r.buf| && r.left == r.right == 0 && r.producer == Nobody && r.consumer == Waiting
    && !r.token && r.giving == 0 && r.accepted == r.sent == []
  }

  lemma {:induction false} RunKeeps(r: Ring, es: seq<Event>)
    requires RingInv(r) && Legal(r, es)
    ensures RingInv(After(r, es))
    decreases |es|
  {
    hide RingInv, Next;
    if es != [] {
      NextKeeps(r, es[0]);
      RunKeeps(Next(r, es[0]), es[1..]);
    }
  }

  /** However producers and consumer interleave, DMA or PIO: the bytes on the line are a prefix, in
      order, of the bytes accepted; a DMA run stays inside the buffer; and bytes never wait in the
      ring with the consumer asleep and nobody left to wake it. */
  lemma {:induction false} PrefixAndWake(r: Ring, es: seq<Event>)
    requires Init(r) && Legal(r, es)
    ensures var t := After(r, es);
      && |t.sent| <= |t.accepted| && t.sent == t.accepted[..|t.sent|]
      && (t.consumer.Transferring? ==> 0 < t.consumer.run && t.consumer.start + t.consumer.run <= |t.buf|)
      && (t.consumer == Waiting && t.right != t.left ==> t.token || t.giving > 0 || t.producer != Nobody)
  {
    hide Legal, After, Next;
    assert RingInv(r) by { Start(r); }
    RunKeeps(r, es);
    var t := After(r, es);
    FullTest(t.buf, t.left, t.right, Pending(t));
    hide Slots;
  }

  /** Once the consumer has gone back to waiting for good, everything accepted has been sent. */
  lemma {:induction false} DrainedWhenAsleep(r: Ring, es: seq<Event>)
    requires Init(r) && Legal(r, es)
    requires var t := After(r, es); t.consumer == Waiting && !t.token && t.giving == 0 && t.producer == Nobody
    ensures After(r, es).sent == After(r, es).accepted
  {
    hide Legal, After, Next, Slots;
    assert RingInv(r) by { Start(r); }
    RunKeeps(r, es);
  }

  lemma Start(r: Ring)
    requires Init(r)
    ensures RingInv(r)
  {
  }

  // ---------------------------------------------------------------- what callers offered

  /** All bytes the calls of a run were given, in order. */
  ghost function Offered(es: seq<Event>): seq<byte> {
    if es == [] then [] else (if es[0].Begin? then es[0].text else []) + Offered(es[1..])
  }

  /** What the producer still has of its text. */
  function TextLeft(p: Producer): seq<byte> {
    match p
    case Nobody => []
    case Sending(text) => text
    case Storing(b, text) => [b] + text
    case Publishing(b, text) => [b] + text
  }

  /** The producer's next byte meets a full ring. */
  predicate MeetsFull(r: Ring) { r.producer.Sending? && r.producer.text != [] && Succ(r.right, Size(r)) == r.left }

  /** The fate, in order, of the bytes whose turn came in a run: true for a byte that met a full
      ring, false for one that was stored and published. */
  ghost function Fates(r: Ring, es: seq<Event>): seq<bool>
    requires Legal(r, es)
    decreases |es|
  {
    if es == [] then []
    else
      (if es[0] != Produce then [] else if MeetsFull(r) then [true] else if r.producer.Publishing? then [false] else [])
      + Fates(Next(r, es[0]), es[1..])
  }

  /** The bytes that did not meet a full ring. */
  ghost function Kept(bytes: seq<byte>, fates: seq<bool>): seq<byte>
    requires |fates| <= |bytes|
  {
    if fates == [] then [] else (if fates[0] then [] else [bytes[0]]) + Kept(bytes[1..], fates[1..])
  }

  /** One act, and the bytes it is about. */
  lemma {:induction false} FateStep(r: Ring, e: Event)
    requires Enabled(r, e)
    ensures var t := Next(r, e); var have := TextLeft(r.producer);
      if e.Begin? then have == [] && TextLeft(t.producer) == e.text && t.accepted == r.accepted
      else if e == Produce && MeetsFull(r) then have != [] && TextLeft(t.producer) == have[1..] && t.accepted == r.accepted
      else if e == Produce && r.producer.Publishing? then
        have != [] && TextLeft(t.producer) == have[1..] && t.accepted == r.accepted + [have[0]]
      else TextLeft(t.producer) == have && t.accepted == r.accepted
  {
  }

  lemma {:induction false} KeptStep(b: byte, rest: seq<byte>, met: bool, fates: seq<bool>)
    requires |fates| <= |rest|
    ensures Kept([b] + rest, [met] + fates) == (if met then [] else [b]) + Kept(rest, fates)
  {
    assert ([b] + rest)[1..] == rest && ([met] + fates)[1..] == fates;
  }

  /** Whether the byte whose turn it is has its fate decided by this act. */
  predicate Decides(r: Ring, e: Event) { e == Produce && (MeetsFull(r) || r.producer.Publishing?) }

  lemma {:induction false} RunUnfolds(r: Ring, e: Event, es: seq<Event>)
    requires Legal(r, [e] + es)
    ensures Enabled(r, e) && Legal(Next(r, e), es) && After(r, [e] + es) == After(Next(r, e), es)
    ensures Offered([e] + es) == (if e.Begin? then e.text else []) + Offered(es)
    ensures Fates(r, [e] + es) == (if Decides(r, e) then [MeetsFull(r)] else []) + Fates(Next(r, e), es)
  {
    hide Next, Enabled;
    assert ([e] + es)[1..] == es;
  }

  /** All the producer has and is going to get, in order. */
  ghost function Coming(r: Ring, es: seq<Event>): seq<byte> { TextLeft(r.producer) + Offered(es) }

  lemma {:induction false} ComingStep(r: Ring, e: Event, es: seq<Event>)
    requires Legal(r, [e] + es)
    ensures var later := Coming(Next(r, e), es);
      if Decides(r, e) then TextLeft(r.producer) != [] && Coming(r, [e] + es) == [TextLeft(r.producer)[0]] + later
      else Coming(r, [e] + es) == later
  {
    hide Next, Enabled, TextLeft, Offered, Legal, After, Fates, MeetsFull, DoProduce, DoConsume;
    RunUnfolds(r, e, es);
    FateStep(r, e);
    var have, offered := TextLeft(r.producer), Offered(es);
    if e.Begin? {
      assert [] + (e.text + offered) == e.text + offered;
    } else if Decides(r, e) {
      assert have + ([] + offered) == [have[0]] + (have[1..] + offered);
    } else {
      assert [] + offered == offered;
    }
  }

  /** Over any run: of the bytes the producer had and the calls brought, in that order, those whose
      turn has come are accepted exactly unless they met a full ring; the others are what the
      producer still has. */
  lemma {:induction false} AcceptedInOrder(r: Ring, es: seq<Event>)
    requires Legal(r, es)
    ensures var t := After(r, es); var n := |Fates(r, es)|;
      && n <= |Coming(r, es)|
      && TextLeft(t.producer) == Coming(r, es)[n..]
      && t.accepted == r.accepted + Kept(Coming(r, es), Fates(r, es))
    decreases |es|
  {
    if es != [] {
      var e, rest := es[0], es[1..];
      assert es == [e] + rest;
      RunUnfolds(r, e, rest);
      ComingStep(r, e, rest);
      FateStep(r, e);
      hide Next, Enabled, TextLeft, Offered, Legal, After, Fates, Coming, MeetsFull, Kept;
      AcceptedInOrder(Next(r, e), rest);
      AddFate(r, e, rest);
    } else {
      assert TextLeft(r.producer) + Offered(es) == TextLeft(r.producer);
      assert r.accepted + [] == r.accepted;
    }
  }

  /** The first byte's fate put in front of the others'. */
  lemma {:induction false} AddFate(r: Ring, e: Event, es: seq<Event>)
    requires Legal(r, [e] + es) && Legal(Next(r, e), es)
    requires |Fates(Next(r, e), es)| <= |Coming(Next(r, e), es)|
    ensures |Fates(r, [e] + es)| <= |Coming(r, [e] + es)|
    ensures Coming(r, [e] + es)[|Fates(r, [e] + es)|..] == Coming(Next(r, e), es)[|Fates(Next(r, e), es)|..]
    ensures Next(r, e).accepted + Kept(Coming(Next(r, e), es), Fates(Next(r, e), es))
            == r.accepted + Kept(Coming(r, [e] + es), Fates(r, [e] + es))
  {
    hide Next, Enabled, TextLeft, Offered, Legal, After, Fates, MeetsFull, Coming, Kept, DoProduce, DoConsume;
    RunUnfolds(r, e, es);
    ComingStep(r, e, es);
    FateStep(r, e);
    var fates, later := Fates(Next(r, e), es), Coming(Next(r, e), es);
    if Decides(r, e) {
      var b, met := TextLeft(r.producer)[0], MeetsFull(r);
      KeptStep(b, later, met, fates);
      assert ([b] + later)[|[met] + fates|..] == later[|fates|..];
      assert (r.accepted + [b]) + Kept(later, fates) == r.accepted + ([b] + Kept(later, fates));
      assert r.accepted + Kept(later, fates) == r.accepted + ([] + Kept(later, fates));
    } else {
      assert [] + fates == fates;
    }
  }

  ghost predicate NoneMet(fates: seq<bool>) { forall i | 0 <= i < |fates| :: !fates[i] }

  lemma {:induction false} KeptAll(bytes: seq<byte>, fates: seq<bool>)
    requires |fates| <= |bytes| && NoneMet(fates)
    ensures Kept(bytes, fates) == bytes[..|fates|]
    decreases |fates|
  {
    if fates != [] { KeptAll(bytes[1..], fates[1..]); }
  }

  /** The ring has room for all the producer still has. */
  predicate HasRoom(r: Ring) { Held(r) + |TextLeft(r.producer)| < Size(r) }

  lemma {:induction false} RoomStays(r: Ring, e: Event)
    requires RingInv(r) && HasRoom(r) && Enabled(r, e) && !e.Begin?
    ensures HasRoom(Next(r, e)) && !(e == Produce && MeetsFull(r))
  {
    hide Slots, ProducerOk;
    FullTest(r.buf, r.left, r.right, Pending(r));
  }

  lemma {:induction false} RoomMeansNoneMet(r: Ring, es: seq<Event>)
    requires RingInv(r) && HasRoom(r) && Legal(r, es) && forall i | 0 <= i < |es| :: !es[i].Begin?
    ensures NoneMet(Fates(r, es)) && Offered(es) == []
    decreases |es|
  {
    if es != [] {
      assert !es[0].Begin?;
      RoomStays(r, es[0]);
      NextKeeps(r, es[0]);
      hide Next, RingInv, HasRoom, MeetsFull;
      RoomMeansNoneMet(Next(r, es[0]), es[1..]);
    }
  }

  /** A text for which there is room is accepted whole, byte after byte, by the time its producer
      is done, whatever the consumer does meanwhile. */
  lemma {:induction false} TextAccepted(r: Ring, text: seq<byte>, es: seq<Event>)
    requires RingInv(r) && r.producer == Nobody && Held(r) + |text| < Size(r)
    requires Legal(r, [Event.Begin(text)] + es) && forall i | 0 <= i < |es| :: !es[i].Begin?
    requires After(r, [Event.Begin(text)] + es).producer == Nobody
    ensures After(r, [Event.Begin(text)] + es).accepted == r.accepted + text
  {
    var run := [Event.Begin(text)] + es;
    assert run[1..] == es;
    var begun := Next(r, Event.Begin(text));
    NextKeeps(r, Event.Begin(text));
    hide RingInv, Next;
    RoomMeansNoneMet(begun, es);
    AcceptedInOrder(begun, es);
    assert Coming(begun, es) == text + [] == text;
    KeptAll(text, Fates(begun, es));
  }

  /** Once the consumer sleeps for good, the line has carried, in order, every byte of every call
      except those that met a full ring. */
  lemma {:induction false} LineCarries(r: Ring, es: seq<Event>)
    requires Init(r) && Legal(r, es)
    requires var t := After(r, es); t.consumer == Waiting && !t.token && t.giving == 0 && t.producer == Nobody
    ensures |Fates(r, es)| == |Offered(es)| && After(r, es).sent == Kept(Offered(es), Fates(r, es))
  {
    hide After, Legal, Fates, Next;
    DrainedWhenAsleep(r, es);
    AcceptedInOrder(r, es);
    assert Coming(r, es) == [] + Offered(es) == Offered(es);
    assert r.accepted + Kept(Offered(es), Fates(r, es)) == Kept(Offered(es), Fates(r, es));
  }

  // ---------------------------------------------------------------- the ring in memory

  /** The buffer and the two indices, with each side's place in its code. */
  class TxRing {
    const buf: array<byte>
    var left: nat
    var right: nat
    const dma: bool
    var producer: Producer
    var consumer: Consumer
    var token: bool
    var giving: nat
    var accepted: seq<byte>
    var sent: seq<byte>

    ghost function Abs(): Ring
      reads this, buf
    {
      Ring(buf[..], left, right, dma, producer, consumer, token, giving, accepted, sent)
    }

    constructor (dma: bool)
      ensures fresh(buf) && buf.Length == UART_BUFFER_SIZE && this.dma == dma && Init(Abs())
    {
      buf := new byte[UART_BUFFER_SIZE](_ => 0);
      this.dma := dma;
      left, right, token, giving, accepted, sent := 0, 0, false, 0, [], [];
      producer, consumer := Nobody, Waiting;
    }

    /** A producer gets the lock. */
    method Begin(text: seq<byte>)
      requires Enabled(Abs(), Event.Begin(text))
      modifies this`producer
      ensures Abs() == Next(old(Abs()), Event.Begin(text))
    {
      producer := Sending(text);
    }

    /** uart_channel_tx, one access at a time. */
    method Produce()
      requires Enabled(Abs(), Event.Produce)
      modifies this, buf
      ensures Abs() == Next(old(Abs()), Event.Produce)
    {
      SuccIsMod(right, buf.Length);
      var next := (right + 1) % buf.Length;
      match producer {
        case Sending(text) =>
          if text == [] {
            producer := Nobody;
            giving := giving + 1;
          } else if next == left {
            producer := Sending(text[1..]);
          } else {
            producer := Storing(text[0], text[1..]);
          }
        case Storing(b, text) =>
          buf[next] := b;
          producer := Publishing(b, text);
        case Publishing(b, text) =>
          right := next;
          accepted := accepted + [b];
          producer := Sending(text);
      }
    }

    /** semaphore_give after the lock was released. */
    method Give()
      requires Enabled(Abs(), Event.Give)
      modifies this`giving, this`token
      ensures Abs() == Next(old(Abs()), Event.Give)
    {
      giving := giving - 1;
      token := true;
    }

    /** uart_tx_task, one access at a time. */
    method Consume()
      requires RingInv(Abs()) && Enabled(Abs(), Event.Consume)
      modifies this
      ensures Abs() == Next(old(Abs()), Event.Consume)
    {
      var n := buf.Length;
      SuccIsMod(left, n);
      match consumer {
        case Waiting =>
          token := false;
          consumer := Checking;
        case Checking =>
          if right == left {
            consumer := Waiting;
          } else if dma {
            consumer := Sizing;
          } else {
            consumer := Advancing;
          }
        case Advancing =>
          left := (left + 1) % n;
          consumer := Emitting;
        case Sizing =>
          AvailableIsMod(left, right, n);
          var start := (left + 1) % n;
          var run := (right - left + n) % n;
          if start + run > n {
            run := n - start;
          }
          consumer := Transferring(start, run, 0);
        case Transferring(start, run, i) =>
          if i < run {
            sent := sent + [buf[start + i]];
            consumer := Transferring(start, run, i + 1);
          } else {
            WrapIsMod(left, run, n);
            left := (left + run) % n;
            consumer := Checking;
          }
        case Emitting =>
          sent := sent + [buf[left]];
          consumer := Checking;
      }
    }
  }

  lemma AvailableIsMod(left: nat, right: nat, n: nat)
    requires left < n && right < n
    ensures (right - left + n) % n == Available(left, right, n)
  {
    if right >= left { ModOver(right - left, n); } else { ModUnder(right - left + n, n); }
  }

  lemma WrapIsMod(left: nat, run: nat, n: nat)
    requires left < n && run < n
    ensures (left + run) % n == if left + run >= n then left + run - n else left + run
  {
    if left + run >= n { ModOver(left + run - n, n); } else { ModUnder(left + run, n); }
  }

  lemma ModUnder(x: nat, n: nat)
    requires x < n
    ensures x % n == x
  {
  }

  lemma ModOver(x: nat, n: nat)
    requires x < n
    ensures (x + n) % n == x
  {
  }
}
