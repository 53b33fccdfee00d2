/** How far a session's writes reach, read off the packets that arrive: the receiver itself never
    checks. */
module DfuBounds {
  import opened Bytes
  import opened Sequences
  import opened Crc
  import opened Storage
  import opened Packet
  import opened Dfu
  import opened DfuSafety

  // ---------------------------------------------------------------- what the line carries

  type GoodPacket = p: Packet | WellFormed(p) witness Packet(CMD_REQ, 1, [0])

  /** The packets on the line, up to the first one that cannot be received. */
  function Packets(input: seq<Rx>): seq<GoodPacket>
    decreases |input|
  {
    match Parse(input)
    case Received(p, rest) => [p] + Packets(rest)
    case _ => []
  }

  predicate IsStart(p: Packet) { p.cmd == CMD_START || p.cmd == CMD_START_SELF_UPDATE }

  /** Packets that end a session by themselves. */
  predicate Ends(p: Packet) { p.cmd == CMD_FINISH || p.cmd == CMD_ABORT || (p.cmd == CMD_DATA && p.len % 4 != 0) }

  function BytesOf(p: GoodPacket): seq<byte> { if p.cmd == CMD_DATA then p.data[..p.len] else [] }

  function EmptyAfter(p: GoodPacket, was: bool): bool { if p.cmd == CMD_DATA then p.len == 0 else was }

  /** The START that opens the transfer, and the packets behind it. */
  function Opening(ps: seq<GoodPacket>): (r: Option<(GoodPacket, seq<GoodPacket>)>)
    ensures r.Some? ==> IsStart(r.value.0) && |r.value.0.data| == 12
  {
    if ps == [] || Ends(ps[0]) then None
    else if IsStart(ps[0]) then (if ps[0].len == 12 then Some((ps[0], ps[1..])) else None)
    else Opening(ps[1..])
  }

  /** The bytes of the DATA packets, up to whatever ends the transfer. */
  function Carried(ps: seq<GoodPacket>): seq<byte> {
    if ps == [] || Ends(ps[0]) || IsStart(ps[0]) then []
    else BytesOf(ps[0]) + Carried(ps[1..])
  }

  /** The last of these DATA packets is empty (`was` when there is none). */
  predicate EndsEmpty(ps: seq<GoodPacket>, was: bool) {
    if ps == [] || Ends(ps[0]) || IsStart(ps[0]) then was
    else EndsEmpty(ps[1..], EmptyAfter(ps[0], was))
  }

  /** Header and data fit `sectors` sectors.  An empty DATA packet on a sector boundary claims one
      sector more than the data needs. */
  predicate Within(data: seq<byte>, endsEmpty: bool, sectors: nat) {
    1 <= sectors && (|data| < (sectors - 1) * SECTOR_SIZE || (|data| == (sectors - 1) * SECTOR_SIZE && !endsEmpty))
  }

  /** Everything the host sends after the trigger key. */
  function Sent(input: seq<Rx>): seq<GoodPacket> {
    match AwaitTrigger(0, input)
    case None => []
    case Some(rest) => Packets(rest)
  }

  // ---------------------------------------------------------------- the session, from the packets

  lemma PayloadCounts(s: Session, p: GoodPacket)
    requires p.len % 4 == 0
    ensures var total := |s.stream| + p.len;
      if Tail(s) + p.len >= SECTOR_SIZE then total % SECTOR_SIZE == Tail(s) + p.len - SECTOR_SIZE
      else total % SECTOR_SIZE == Tail(s) + p.len
  {
    SectorStep(|s.stream|, p.len);
  }

  /** A sector is pending: it is incomplete, or the last DATA packet was empty. */
  predicate Pending(s: Session, endsEmpty: bool) { s.unwritten == (Tail(s) != 0 || endsEmpty) }

  /** One packet in the middle of a transfer. */
  lemma PacketIs(w: World, s: Session, p: GoodPacket, was: bool)
    requires s.phase == Receiving && s.started && Pending(s, was) && !IsStart(p)
    ensures var r := OnPacket(w, s, p).1;
      if Ends(p) then r == s.(phase := r.phase) && !Dfu.Live(r) && Pending(r, was)
      else r == s.(stream := s.stream + BytesOf(p), unwritten := r.unwritten) && Pending(r, EmptyAfter(p, was))
  {
    hide SectorOf, ActualCrc, ValidImage, HasMarker;
    if p.cmd == CMD_DATA && p.len % 4 == 0 {
      PayloadCounts(s, p);
    } else {
      assert s.stream + [] == s.stream;
    }
  }

  lemma SecondStart(w: World, s: Session, p: GoodPacket, was: bool)
    requires s.started && IsStart(p) && Pending(s, was)
    ensures OnPacket(w, s, p).1 == s.(phase := Aborted) && Pending(s.(phase := Aborted), was)
  {
  }

  /** One turn of the packet loop, on both sides. */
  lemma {:induction false} Turn(w: World, s: Session, input: seq<Rx>)
    requires Dfu.Live(s) && Parse(input).Received?
    ensures var p: GoodPacket, rest := Parse(input).packet, Parse(input).rest;
      && Packets(input) == [p] + Packets(rest) && |rest| < |input|
      && RunSession(w, s, input) == RunSession(OnPacket(w, s, p).0, OnPacket(w, s, p).1, rest)
  {
    hide Parse, OnPacket;
  }

  lemma {:induction false} NoTurn(w: World, s: Session, input: seq<Rx>)
    requires !Dfu.Live(s) || !Parse(input).Received?
    ensures RunSession(w, s, input).0 == w && RunSession(w, s, input).1 == s
    ensures !Parse(input).Received? ==> Packets(input) == []
  {
    hide Parse;
  }

  lemma {:induction false} CarriedStep(p: GoodPacket, ps: seq<GoodPacket>, was: bool)
    ensures if Ends(p) || IsStart(p) then Carried([p] + ps) == [] && EndsEmpty([p] + ps, was) == was
            else Carried([p] + ps) == BytesOf(p) + Carried(ps) && EndsEmpty([p] + ps, was) == EndsEmpty(ps, EmptyAfter(p, was))
  {
    assert ([p] + ps)[1..] == ps;
  }

  /** What the packets behind a START make of the session. */
  lemma {:induction false} TransferIs(w: World, s: Session, input: seq<Rx>, was: bool)
    requires s.phase == Receiving && s.started && Pending(s, was)
    ensures var r := RunSession(w, s, input).1; var ps := Packets(input);
      && r == s.(phase := r.phase, stream := s.stream + Carried(ps), unwritten := r.unwritten)
      && Pending(r, EndsEmpty(ps, was))
    decreases |input|
  {
    hide Parse, OnPacket, Pending, RunSession, Packets, IsStart, Ends, BytesOf, EmptyAfter;
    assert s.stream + [] == s.stream;
    if Parse(input).Received? {
      Turn(w, s, input);
      var p: GoodPacket, rest := Parse(input).packet, Parse(input).rest;
      var n := OnPacket(w, s, p);
      CarriedStep(p, Packets(rest), was);
      hide Carried, EndsEmpty;
      if IsStart(p) {
        SecondStart(w, s, p, was);
        NoTurn(n.0, n.1, rest);
      } else {
        PacketIs(w, s, p, was);
        if Ends(p) {
          NoTurn(n.0, n.1, rest);
        } else {
          TransferIs(n.0, n.1, rest, EmptyAfter(p, was));
          assert (s.stream + BytesOf(p)) + Carried(Packets(rest)) == s.stream + (BytesOf(p) + Carried(Packets(rest)));
        }
      }
    } else {
      NoTurn(w, s, input);
    }
  }

  /** The transfer a list of packets opens: which image, its declared length, its bytes. */
  ghost predicate Opened(s: Session, ps: seq<GoodPacket>) {
    match Opening(ps)
    case None => !s.started && s.stream == [] && !s.unwritten && s.length == 0 && !s.selfUpdate
    case Some((p, rest)) =>
      && s.started && s.selfUpdate == (p.cmd == CMD_START_SELF_UPDATE) && s.length == WordAt(p.data, 4)
      && s.hash == CRC_INIT && s.expectedCrc == WordAt(p.data, 8)
      && s.stream == Carried(rest) && Pending(s, EndsEmpty(rest, false))
  }

  lemma {:induction false} OpeningStep(p: GoodPacket, ps: seq<GoodPacket>)
    ensures Opening([p] + ps) == if IsStart(p) && p.len == 12 then Some((p, ps))
                                 else if IsStart(p) || Ends(p) then None else Opening(ps)
  {
    assert ([p] + ps)[1..] == ps;
  }

  /** A packet before the transfer: it opens it, ends the session, or changes nothing. */
  lemma FirstPacket(w: World, s: Session, p: GoodPacket)
    requires Fresh(s)
    ensures var r := OnPacket(w, s, p).1;
      if IsStart(p) && p.len == 12 then
        && r.phase == Receiving && r.started && r.stream == [] && Pending(r, false)
        && r.selfUpdate == (p.cmd == CMD_START_SELF_UPDATE) && r.length == WordAt(p.data, 4)
        && r.hash == CRC_INIT && r.expectedCrc == WordAt(p.data, 8)
      else if IsStart(p) || Ends(p) then r == s.(phase := r.phase) && !Dfu.Live(r)
      else r == s
  {
    hide WordAt, ActualCrc, ValidImage, HasMarker;
  }

  lemma {:induction false} OpeningIs(w: World, s: Session, input: seq<Rx>)
    requires Fresh(s)
    ensures Opened(RunSession(w, s, input).1, Packets(input))
    decreases |input|
  {
    hide Parse, OnPacket, Pending, RunSession, Packets, IsStart, Ends, WordAt;
    if Parse(input).Received? {
      Turn(w, s, input);
      var p: GoodPacket, rest := Parse(input).packet, Parse(input).rest;
      var n := OnPacket(w, s, p);
      OpeningStep(p, Packets(rest));
      FirstPacket(w, s, p);
      hide Opening;
      if IsStart(p) && p.len == 12 {
        TransferIs(n.0, n.1, rest, false);
        assert [] + Carried(Packets(rest)) == Carried(Packets(rest));
      } else if Ends(p) || IsStart(p) {
        NoTurn(n.0, n.1, rest);
      } else {
        OpeningIs(n.0, n.1, rest);
      }
    } else {
      NoTurn(w, s, input);
    }
  }

  /** The session's image is what the packets carried, whatever the flash and the metadata held. */
  lemma SessionIs(w: World, s0: Session, input: seq<Rx>)
    requires Fresh(s0)
    ensures Opened(Receive(w, s0, input).1, Sent(input))
  {
    hide RunSession, Opened;
    if AwaitTrigger(0, input).Some? {
      OpeningIs(Reply(w, ACK), s0, AwaitTrigger(0, input).value);
    } else {
      NothingOpened(s0);
    }
  }

  lemma NothingOpened(s: Session)
    requires Fresh(s)
    ensures Opened(s, [])
  {
  }

  lemma ExtentIs(s: Session, endsEmpty: bool, sectors: nat)
    requires s.started && Pending(s, endsEmpty)
    ensures Extent(s) <= sectors <==> Within(s.stream, endsEmpty, sectors)
  {
  }

  // ---------------------------------------------------------------- staying inside the slot

  function Image(input: seq<Rx>): seq<byte> {
    match Opening(Sent(input))
    case None => []
    case Some((_, rest)) => Carried(rest)
  }

  /** The image and what goes with it take at most `sectors` sectors. */
  predicate Takes(input: seq<Rx>, sectors: nat) {
    match Opening(Sent(input))
    case None => true
    case Some((_, rest)) => Within(Carried(rest), EndsEmpty(rest, false), sectors)
  }

  predicate AppSession(input: seq<Rx>) { Opening(Sent(input)).Some? && Opening(Sent(input)).value.0.cmd == CMD_START }

  predicate SelfUpdate(input: seq<Rx>) { Opening(Sent(input)).Some? && Opening(Sent(input)).value.0.cmd == CMD_START_SELF_UPDATE }

  lemma SessionExtent(w: World, s0: Session, input: seq<Rx>, sectors: nat)
    requires Fresh(s0)
    ensures var s := Receive(w, s0, input).1;
      && s.stream == Image(input)
      && (s.started <==> AppSession(input) || SelfUpdate(input))
      && (s.selfUpdate <==> SelfUpdate(input))
      && (Extent(s) <= sectors <==> Takes(input, sectors))
  {
    hide Receive, Opening, Carried, EndsEmpty, Within, Pending, Extent, WordAt, Sent;
    SessionIs(w, s0, input);
    var s := Receive(w, s0, input).1;
    var o := Opening(Sent(input));
    if o.Some? {
      ExtentIs(s, EndsEmpty(o.value.1, false), sectors);
    } else {
      NoExtent(s);
    }
  }

  lemma NoExtent(s: Session)
    requires !s.started && !s.unwritten
    ensures Extent(s) == 0
  {
  }

  const MAX_APP_BYTES: nat := (SIZE_APP - 1) * SECTOR_SIZE

  /** Where a self-update would run into the metadata sector. */
  const METADATA_DISTANCE: nat := SECTOR_METADATA - SECTOR_BOOTLOADER

  /** The session's image, declared and sent, stays where it belongs. */
  predicate StaysInside(s: Session) {
    if s.selfUpdate then Extent(s) <= METADATA_DISTANCE else Extent(s) <= SIZE_APP && s.length <= MAX_APP_BYTES
  }

  /** The same, read off the line. */
  predicate Sized(input: seq<Rx>) {
    if SelfUpdate(input) then Takes(input, METADATA_DISTANCE)
    else Takes(input, SIZE_APP) && (AppSession(input) ==> WordAt(Opening(Sent(input)).value.0.data, 4) <= MAX_APP_BYTES)
  }

  /** What a host has to keep to, exactly, whatever board it talks to. */
  lemma StaysInsideExactly(w: World, s0: Session, input: seq<Rx>)
    requires Fresh(s0)
    ensures StaysInside(Receive(w, s0, input).1) <==> Sized(input)
  {
    hide Receive, Extent, WordAt, Takes;
    SessionExtent(w, s0, input, METADATA_DISTANCE);
    SessionExtent(w, s0, input, SIZE_APP);
    SessionIs(w, s0, input);
  }

  predicate Writes(s: Session, k: nat) { s.base <= k < s.base + Extent(s) }

  predicate InActiveSlot(w: World, k: nat) { Active(w) <= k < Active(w) + SIZE_APP }

  lemma Overlap(w0: World, s: Session)
    requires Shape(w0, s) && s.started && !s.selfUpdate
    ensures (forall k: nat :: !(Writes(s, k) && InActiveSlot(w0, k)))
            <==> (w0.meta.activeSlot != SLOT_B || Extent(s) <= SIZE_APP)
  {
    if w0.meta.activeSlot == SLOT_B && Extent(s) > SIZE_APP {
      assert Writes(s, SECTOR_APP_B) && InActiveSlot(w0, SECTOR_APP_B);
    }
  }

  /** The sectors of an application session meet the active slot exactly when slot B is active
      and header and data take more sectors than slot A has. */
  lemma AppSessionOverlap(w0: World, s0: Session, input: seq<Rx>)
    requires Fresh(s0) && AppSession(input)
    ensures var s := Receive(w0, s0, input).1;
      (forall k: nat :: !(Writes(s, k) && InActiveSlot(w0, k))) <==> (w0.meta.activeSlot != SLOT_B || Takes(input, SIZE_APP))
  {
    hide Receive, Extent, Writes, InActiveSlot, Takes;
    SessionKeeps(w0, s0, input);
    SessionExtent(w0, s0, input, SIZE_APP);
    Overlap(w0, Receive(w0, s0, input).1);
  }

  // ---------------------------------------------------------------- packets too long

  /** The packet ends the session, a transfer having been opened or not. */
  predicate Stops(p: GoodPacket, started: bool) { Ends(p) || (IsStart(p) && (started || p.len != 12)) }

  /** `rest` is what the line holds when, after some packets that do not end the session, the next
      one is due. */
  ghost predicate NextDue(input: seq<Rx>, started: bool, rest: seq<Rx>)
    decreases |input|
  {
    || rest == input
    || (Parse(input).Received?
        && !Stops(Parse(input).packet, started)
        && NextDue(Parse(input).rest, started || IsStart(Parse(input).packet), rest))
  }

  /** A packet too long for the buffer is next. */
  ghost predicate OverlongNext(rest: seq<Rx>) { CommandAt(rest).Some? && OverlongFrame(CommandAt(rest).value.1) }

  ghost predicate OverlongDue(input: seq<Rx>, started: bool) {
    exists rest: seq<Rx> :: NextDue(input, started, rest) && OverlongNext(rest)
  }

  lemma {:induction false} PacketStops(w: World, s: Session, p: GoodPacket)
    requires Dfu.Live(s) && (s.started <==> s.phase == Receiving)
    ensures var r := OnPacket(w, s, p).1;
      && (Dfu.Live(r) <==> !Stops(p, s.started))
      && (Dfu.Live(r) ==> (r.started <==> s.started || IsStart(p)) && (r.started <==> r.phase == Receiving))
  {
    hide WordAt, ActualCrc, ValidImage, HasMarker, SectorOf;
  }

  lemma {:induction false} NextStep(input: seq<Rx>, started: bool)
    requires Parse(input).Received? && !OverlongNext(input)
    ensures var p: GoodPacket := Parse(input).packet;
      OverlongDue(input, started) <==> !Stops(p, started) && OverlongDue(Parse(input).rest, started || IsStart(p))
  {
    hide Parse, OverlongNext, Stops, IsStart;
    var p: GoodPacket := Parse(input).packet;
    if !Stops(p, started) {
      forall rest: seq<Rx> | NextDue(Parse(input).rest, started || IsStart(p), rest) ensures NextDue(input, started, rest) {}
    }
  }

  lemma {:induction false} RunOverruns(w: World, s: Session, input: seq<Rx>)
    requires Dfu.Live(s) && (s.started <==> s.phase == Receiving)
    ensures RunSession(w, s, input).2 == BufferOverrun <==> OverlongDue(input, s.started)
    decreases |input|
  {
    hide Parse, OnPacket, CommandAt, OverlongFrame, Stops, IsStart;
    ParseOverruns(input);
    if Parse(input).Received? {
      hide OverlongNext, OverlongDue;
      assert !OverlongNext(input) by { NoOverrun(input); }
      NextStep(input, s.started);
      var p: GoodPacket := Parse(input).packet;
      var n := OnPacket(w, s, p);
      PacketStops(w, s, p);
      if Dfu.Live(n.1) { RunOverruns(n.0, n.1, Parse(input).rest); }
    } else if Parse(input) == Overrun {
      assert NextDue(input, s.started, input) && OverlongNext(input);
    }
  }

  lemma {:induction false} NoOverrun(input: seq<Rx>)
    requires Parse(input) != Overrun
    ensures !OverlongNext(input)
  {
    ParseOverruns(input);
  }

  /** The receiver stores past its packet buffer exactly when, after the trigger key and some
      packets that do not end the session, a packet of more than 256 bytes stands on the line with
      257 of its bytes arriving in time, whatever the board holds. */
  lemma {:induction false} ReceiveOverruns(w: World, s0: Session, input: seq<Rx>)
    requires Fresh(s0)
    ensures Receive(w, s0, input).2 == BufferOverrun <==>
      AwaitTrigger(0, input).Some? && OverlongDue(AwaitTrigger(0, input).value, false)
  {
    hide RunSession, OverlongDue;
    if AwaitTrigger(0, input).Some? { RunOverruns(Reply(w, ACK), s0, AwaitTrigger(0, input).value); }
  }
}
