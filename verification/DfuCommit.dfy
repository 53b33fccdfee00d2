/** Which images a receiver commits, read off the packets that arrive. */
module DfuCommit {
  import opened Bytes
  import opened Sequences
  import opened Crc
  import opened Storage
  import opened Packet
  import opened Dfu
  import opened DfuSafety
  import opened DfuBounds
  import opened DfuFlash
  import opened DfuReplies
  import DfuSender

  // ---------------------------------------------------------------- the header sector

  /** The header sector of the transfer begins with `header`. */
  ghost predicate Headed(w: World, s: Session, header: seq<byte>) {
    s.started && s.base > SECTOR_METADATA && |header| == 12 && Read(w.flash, s.base)[..12] == header
  }

  lemma {:induction false} StartHeads(w: World, s: Session, p: GoodPacket)
    requires Fresh(s) && p.cmd == CMD_START && p.len == 12
    ensures var r := OnPacket(w, s, p); Headed(r.0, r.1, p.data)
  {
    hide WordAt;
    SlotsAboveMetadata(SlotOther(w.meta.activeSlot));
  }

  lemma {:induction false} PacketKeepsHead(w: World, s: Session, p: GoodPacket, header: seq<byte>)
    requires Headed(w, s, header) && Dfu.Live(s)
    ensures var r := OnPacket(w, s, p); Headed(r.0, r.1, header)
  {
    hide SectorOf, ValidImage, HasMarker, ActualCrc, EncodeMeta, WordAt;
  }

  lemma {:induction false} RunKeepsHead(w: World, s: Session, input: seq<Rx>, header: seq<byte>)
    requires Headed(w, s, header)
    ensures var r := RunSession(w, s, input); Headed(r.0, r.1, header)
    decreases |input|
  {
    hide OnPacket, Headed, Parse;
    if Dfu.Live(s) && Parse(input).Received? {
      var p: GoodPacket := Parse(input).packet;
      PacketKeepsHead(w, s, p, header);
      RunKeepsHead(OnPacket(w, s, p).0, OnPacket(w, s, p).1, Parse(input).rest, header);
    }
  }

  lemma {:induction false} OpeningHeads(w: World, s: Session, input: seq<Rx>)
    requires Fresh(s) && Opening(Packets(input)).Some? && Opening(Packets(input)).value.0.cmd == CMD_START
    ensures var r := RunSession(w, s, input); Headed(r.0, r.1, Opening(Packets(input)).value.0.data)
    decreases |input|
  {
    hide Parse, OnPacket, RunSession, Packets, Ends, IsStart, Headed;
    if Parse(input).Received? {
      Turn(w, s, input);
      var p: GoodPacket, rest := Parse(input).packet, Parse(input).rest;
      var n := OnPacket(w, s, p);
      OpeningStep(p, Packets(rest));
      hide Opening;
      if IsStart(p) {
        StartHeads(w, s, p);
        RunKeepsHead(n.0, n.1, rest, p.data);
      } else {
        IdlePacket(w, s, p);
        OpeningHeads(n.0, n.1, rest);
      }
    } else {
      NoTurn(w, s, input);
    }
  }

  lemma {:induction false} SessionHeads(w0: World, s0: Session, input: seq<Rx>)
    requires Fresh(s0) && AppSession(input)
    ensures var r := Receive(w0, s0, input); Headed(r.0, r.1, Opening(Sent(input)).value.0.data)
  {
    hide RunSession, Packets, Opening, Headed;
    TriggerFired(input);
    OpeningHeads(Reply(w0, ACK), s0, AwaitTrigger(0, input).value);
  }

  // ---------------------------------------------------------------- the image in flash

  /** Behind an accepted FINISH the slot holds the bytes carried, zero-padded. */
  lemma {:induction false} ImageHeld(w0: World, s0: Session, input: seq<Rx>)
    requires Fresh(s0) && AppSession(input) && FinishAccepted(input)
    ensures var f := Receive(w0, s0, input).0.flash; var img := Image(input);
      forall i: nat | i * SECTOR_SIZE < |img| :: Read(f, Target(w0) + 1 + i) == SectorOf(img, i)
  {
    hide Receive, Opening, Sent, SectorOf, FinishAccepted, Carried, EndsEmpty, WordAt;
    HoldingIs(w0, s0, input);
    SessionExtent(w0, s0, input, 0);
    SlotsAboveMetadata(SlotOther(w0.meta.activeSlot));
    var (v, s, ending) := Receive(w0, s0, input);
    assert Pending(s, EndsEmpty(Opening(Sent(input)).value.1, false)) by { SessionIs(w0, s0, input); }
    forall i: nat | i * SECTOR_SIZE < |s.stream| ensures Read(v.flash, Target(w0) + 1 + i) == SectorOf(s.stream, i) {
      assert Read(v.flash, Target(w0) + 1 + i) == SectorNow(w0.flash, s, true, Target(w0) + 1 + i);
    }
  }

  /** The version and the length the opening START declares. */
  function Version(input: seq<Rx>): u32
    requires Opening(Sent(input)).Some?
  {
    WordAt(Opening(Sent(input)).value.0.data, 0)
  }

  function Declared(input: seq<Rx>): u32
    requires Opening(Sent(input)).Some?
  {
    WordAt(Opening(Sent(input)).value.0.data, 4)
  }

  /** The marker word of the image carried, which counts as zero-padded to a sector. */
  predicate Marked(img: seq<byte>) { WordAt(SectorOf(img, 0), MARKER_OFFSET) == APP_MAGIC }

  lemma {:induction false} HeaderWords(sector: Sector, header: seq<byte>)
    requires |header| == 12 && sector[..12] == header
    ensures WordAt(sector, 0) == WordAt(header, 0) && WordAt(sector, 4) == WordAt(header, 4) && WordAt(sector, 8) == WordAt(header, 8)
  {
    assert forall i | 0 <= i < 12 :: sector[i] == sector[..12][i];
  }

  lemma {:induction false} CommittableExactly(f: Flash, base: nat, header: seq<byte>, img: seq<byte>)
    requires |header| == 12 && Read(f, base)[..12] == header && WordAt(header, 4) <= |img|
    requires forall i: nat | i * SECTOR_SIZE < |img| :: Read(f, base + 1 + i) == SectorOf(img, i)
    requires Checksum(img[..WordAt(header, 4)]) == WordAt(header, 8)
    ensures Committable(f, base) <==> WordAt(header, 0) == 1 && WordAt(header, 4) != 0 && Marked(img)
  {
    hide Checksum, WordAt, SectorOf;
    HeaderWords(Read(f, base), header);
    DfuSender.ReadBack(f, base + 1, img, 0, WordAt(header, 4));
    if WordAt(header, 4) != 0 { assert Read(f, base + 1 + 0) == SectorOf(img, 0); }
  }

  /** A session for an app slot commits, whatever flash held before, exactly if its FINISH is
      accepted, the START declared version 1 and a length other than 0, and the image carries the
      marker; provided at least as many bytes are carried as were declared. */
  lemma {:induction false} CommitsExactly(w0: World, s0: Session, input: seq<Rx>)
    requires Fresh(s0) && AppSession(input) && Declared(input) <= |Image(input)|
    ensures Receive(w0, s0, input).1.phase == Done
            <==> FinishAccepted(input) && Version(input) == 1 && Declared(input) != 0 && Marked(Image(input))
  {
    hide Receive, Sent, Opening, Marked, Committable, Checksum, WordAt, SectorOf, ClosedByFinish, Carried;
    SessionOutcome(w0, s0, input);
    if FinishAccepted(input) {
      ImageHeld(w0, s0, input);
      SessionHeads(w0, s0, input);
      HoldingIs(w0, s0, input);
      var img := Image(input);
      assert img[..|img|] == img;
      CommittableExactly(Receive(w0, s0, input).0.flash, Target(w0), Opening(Sent(input)).value.0.data, img);
    }
  }
}
