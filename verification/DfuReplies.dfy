/** What the receiver answers, and how a session ends, read off the packets that arrive. */
module DfuReplies {
  import opened Bytes
  import opened Sequences
  import opened Crc
  import opened Storage
  import opened Packet
  import opened Dfu
  import opened DfuSafety
  import opened DfuBounds
  import opened DfuFlash

  /** The packets a session acknowledges and goes on: the START that opens it, and DATA after it. */
  function Acknowledged(ps: seq<GoodPacket>, started: bool): nat {
    if ps == [] || Stops(ps[0], started) then 0
    else (if IsStart(ps[0]) || (ps[0].cmd == CMD_DATA && started) then 1 else 0)
         + Acknowledged(ps[1..], started || IsStart(ps[0]))
  }

  /** One of the packets ends the session. */
  predicate Stopped(ps: seq<GoodPacket>, started: bool) {
    ps != [] && (Stops(ps[0], started) || Stopped(ps[1..], started || IsStart(ps[0])))
  }

  /** The answer to the packet that ends a session: NACK unless the image was committed or the
      bootloader replaced. */
  function LastReply(phase: Phase): byte { if phase == Done || phase == Rebooted then ACK else NACK }

  predicate Acked(p: GoodPacket, started: bool) { IsStart(p) || (p.cmd == CMD_DATA && started) }

  lemma {:induction false} PacketReplies(w: World, s: Session, p: GoodPacket)
    requires Dfu.Live(s) && (s.started <==> s.phase == Receiving)
    ensures var r := OnPacket(w, s, p);
      if Stops(p, s.started) then r.0.replies == w.replies + [LastReply(r.1.phase)] && !Dfu.Live(r.1)
      else r.0.replies == w.replies + (if Acked(p, s.started) then [ACK] else [])
  {
    hide WordAt, ActualCrc, ValidImage, HasMarker, SectorOf;
    assert w.replies + [] == w.replies;
  }

  lemma {:induction false} CountStep(p: GoodPacket, ps: seq<GoodPacket>, started: bool)
    ensures Stopped([p] + ps, started) <==> Stops(p, started) || Stopped(ps, started || IsStart(p))
    ensures Acknowledged([p] + ps, started)
            == if Stops(p, started) then 0 else (if Acked(p, started) then 1 else 0) + Acknowledged(ps, started || IsStart(p))
  {
    assert ([p] + ps)[1..] == ps;
  }

  lemma {:induction false} NoPackets(started: bool)
    ensures !Stopped([], started) && Acknowledged([], started) == 0
  {
  }

  lemma {:induction false} OneMoreAck(before: seq<byte>, n: nat, after: seq<byte>)
    ensures before + [ACK] + Acks(n) + after == before + Acks(n + 1) + after
    ensures before + [] + Acks(n) + after == before + Acks(n) + after
    ensures before + Acks(0) + after == before + after && before + [] == before
  {
  }

  lemma {:induction false} RunReplies(w: World, s: Session, input: seq<Rx>)
    requires Dfu.Live(s) && (s.started <==> s.phase == Receiving)
    ensures var r := RunSession(w, s, input); var ps := Packets(input);
      && (Stopped(ps, s.started) <==> !Dfu.Live(r.1))
      && r.0.replies == w.replies + Acks(Acknowledged(ps, s.started))
                        + (if Stopped(ps, s.started) then [LastReply(r.1.phase)] else [])
    decreases |input|
  {
    hide Parse, OnPacket, RunSession, Packets, Stops, IsStart, Acked, Stopped, Acknowledged, Acks, LastReply;
    OneMoreAck(w.replies, 0, []);
    if Parse(input).Received? {
      Turn(w, s, input);
      var p: GoodPacket, rest := Parse(input).packet, Parse(input).rest;
      var n := OnPacket(w, s, p);
      CountStep(p, Packets(rest), s.started);
      PacketReplies(w, s, p);
      PacketStops(w, s, p);
      if Dfu.Live(n.1) {
        RunReplies(n.0, n.1, rest);
        var after := if Stopped(Packets(rest), n.1.started) then [LastReply(RunSession(n.0, n.1, rest).1.phase)] else [];
        OneMoreAck(w.replies, Acknowledged(Packets(rest), n.1.started), after);
      } else {
        NoTurn(n.0, n.1, rest);
        OneMoreAck(w.replies, 0, [LastReply(n.1.phase)]);
      }
    } else {
      NoTurn(w, s, input);
      NoPackets(s.started);
    }
  }

  /** Everything the receiver answers: one ACK for the trigger key, one for the START that opens
      the transfer and for every DATA packet of it, and one byte for the packet that ends the
      session, if one does: an ACK exactly if the image was committed or the bootloader replaced. */
  lemma {:induction false} ReceiveReplies(w: World, s0: Session, input: seq<Rx>)
    requires Fresh(s0)
    ensures var r := Receive(w, s0, input); var ps := Sent(input);
      && (Stopped(ps, false) <==> !Dfu.Live(r.1))
      && r.0.replies == if AwaitTrigger(0, input).None? then w.replies
                        else w.replies + [ACK] + Acks(Acknowledged(ps, false))
                             + (if Stopped(ps, false) then [LastReply(r.1.phase)] else [])
  {
    hide RunSession, Packets, Acknowledged, Stopped, Acks;
    if AwaitTrigger(0, input).Some? {
      RunReplies(Reply(w, ACK), s0, AwaitTrigger(0, input).value);
    } else {
      NoPackets(false);
    }
  }

  // ---------------------------------------------------------------- how a session ends

  predicate Committable(f: Flash, base: nat) { ValidImage(f, base) && HasMarker(f, base) }

  lemma {:induction false} FinishEnds(w: World, s: Session)
    requires Dfu.Live(s)
    ensures var r := OnFinish(w, s); var target := SlotToSector(SlotOther(w.meta.activeSlot)); var ok := ActualCrc(s) == s.expectedCrc;
      && (r.1.phase == Rebooted <==> s.selfUpdate && ok)
      && (r.1.phase == Done <==> !s.selfUpdate && ok && Committable(r.0.flash, target))
  {
    hide ActualCrc, ValidImage, HasMarker, Flushed, EncodeMeta;
    var target := SlotToSector(SlotOther(w.meta.activeSlot));
    SlotsAboveMetadata(SlotOther(w.meta.activeSlot));
    ValidImageFrame(Flushed(w, s), WriteMeta(Flushed(w, s), Committed(w.meta)), target);
  }

  /** How one packet in the middle of a transfer ends it, if it does. */
  lemma {:induction false} PacketEnds(w: World, s: Session, p: GoodPacket)
    requires s.phase == Receiving && s.started && (IsStart(p) || Ends(p))
    ensures var r := OnPacket(w, s, p); var target := Target(w);
      && r.1.selfUpdate == s.selfUpdate
      && (r.1.phase == Rebooted <==> s.selfUpdate && Accepts(s, p))
      && (r.1.phase == Done <==> !s.selfUpdate && Accepts(s, p) && Committable(r.0.flash, target))
      && (r.1.phase == Rebooted || r.1.phase == Done || r.1.phase == Aborted)
  {
    hide OnFinish, ActualCrc, Committable, WordAt;
    FinishEnds(w, s);
    FinishPhases(w, s);
  }

  lemma {:induction false} FinishPhases(w: World, s: Session)
    requires Dfu.Live(s)
    ensures var r := OnFinish(w, s).1; r == s.(phase := r.phase) && (r.phase == Rebooted || r.phase == Done || r.phase == Aborted)
  {
    hide ActualCrc, ValidImage, HasMarker, Flushed, EncodeMeta;
  }

  lemma {:induction false} GoingOn(w: World, s: Session, p: GoodPacket)
    requires s.phase == Receiving && s.started && !IsStart(p) && !Ends(p)
    ensures var r := OnPacket(w, s, p); r.0.meta == w.meta && r.1.selfUpdate == s.selfUpdate && r.1.phase == Receiving
  {
    hide SectorOf, WordAt;
  }

  lemma {:induction false} RunOutcome(w: World, s: Session, input: seq<Rx>, was: bool)
    requires s.phase == Receiving && s.started && Pending(s, was)
    ensures var r := RunSession(w, s, input);
      var accepted := ClosedByFinish(Packets(input)) && ActualCrc(r.1) == r.1.expectedCrc;
      && (r.1.phase == Rebooted <==> s.selfUpdate && accepted)
      && (r.1.phase == Done <==> !s.selfUpdate && accepted && Committable(r.0.flash, Target(w)))
    decreases |input|
  {
    hide Parse, OnPacket, Pending, RunSession, Packets, Ends, IsStart, ActualCrc, ClosedByFinish, Committable, Accepts;
    if Parse(input).Received? {
      Turn(w, s, input);
      var p: GoodPacket, rest := Parse(input).packet, Parse(input).rest;
      var n := OnPacket(w, s, p);
      ClosedStep(p, Packets(rest));
      if IsStart(p) || Ends(p) {
        PacketEnds(w, s, p);
        NoTurn(n.0, n.1, rest);
        EndedCrc(w, s, p, was);
      } else {
        GoingOn(w, s, p);
        PacketIs(w, s, p, was);
        RunOutcome(n.0, n.1, rest, EmptyAfter(p, was));
      }
    } else {
      NoTurn(w, s, input);
      NothingClosed();
    }
  }

  /** The packet that ends the transfer leaves its CRC as it was. */
  lemma {:induction false} EndedCrc(w: World, s: Session, p: GoodPacket, was: bool)
    requires s.phase == Receiving && s.started && Pending(s, was) && (IsStart(p) || Ends(p))
    ensures var r := OnPacket(w, s, p).1; Accepts(s, p) <==> p.cmd == CMD_FINISH && ActualCrc(r) == r.expectedCrc
  {
    hide Pending, OnPacket, ActualCrc;
    if IsStart(p) { SecondStart(w, s, p, was); } else { PacketIs(w, s, p, was); }
    SameCrc(s, OnPacket(w, s, p).1);
  }

  lemma {:induction false} OpeningOutcome(w: World, s: Session, input: seq<Rx>)
    requires Fresh(s) && Opening(Packets(input)).Some?
    ensures var r := RunSession(w, s, input); var (p, rest) := Opening(Packets(input)).value;
      var accepted := ClosedByFinish(rest) && ActualCrc(r.1) == r.1.expectedCrc; var self := p.cmd == CMD_START_SELF_UPDATE;
      && (r.1.phase == Rebooted <==> self && accepted)
      && (r.1.phase == Done <==> !self && accepted && Committable(r.0.flash, Target(w)))
    decreases |input|
  {
    hide Parse, OnPacket, Pending, RunSession, Packets, Ends, IsStart, ActualCrc, ClosedByFinish, Committable;
    if Parse(input).Received? {
      Turn(w, s, input);
      var p: GoodPacket, rest := Parse(input).packet, Parse(input).rest;
      var n := OnPacket(w, s, p);
      OpeningStep(p, Packets(rest));
      FirstPacket(w, s, p);
      hide Opening;
      if IsStart(p) {
        StartKeepsMeta(w, s, p);
        RunOutcome(n.0, n.1, rest, false);
      } else {
        IdlePacket(w, s, p);
        OpeningOutcome(n.0, n.1, rest);
      }
    } else {
      NoTurn(w, s, input);
    }
  }

  lemma {:induction false} StartKeepsMeta(w: World, s: Session, p: GoodPacket)
    requires IsStart(p)
    ensures OnPacket(w, s, p).0.meta == w.meta
  {
    hide WordAt, HeaderSector;
  }

  /** How a session that opened a transfer ends, for every board and every input: it replaced the
      bootloader, or committed, exactly if its FINISH was accepted and, for a slot, what flash then
      holds there validates and carries the marker. */
  lemma {:induction false} SessionOutcome(w0: World, s0: Session, input: seq<Rx>)
    requires Fresh(s0) && (AppSession(input) || SelfUpdate(input))
    ensures var r := Receive(w0, s0, input);
      && (r.1.phase == Rebooted <==> SelfUpdate(input) && FinishAccepted(input))
      && (r.1.phase == Done <==> AppSession(input) && FinishAccepted(input) && Committable(r.0.flash, Target(w0)))
  {
    hide RunSession, Packets, Opening, ActualCrc, CrcAgrees, ClosedByFinish, Carried, EndsEmpty, Pending, WordAt, Committable;
    TriggerFired(input);
    OpeningOutcome(Reply(w0, ACK), s0, AwaitTrigger(0, input).value);
    SessionIs(w0, s0, input);
    var (p, rest) := Opening(Sent(input)).value;
    CrcIs(Receive(w0, s0, input).1, p, rest);
  }
}
