/** What every DFU session keeps, whatever arrives on the line. */
module DfuSafety {
  import opened Bytes
  import opened Sequences
  import opened Crc
  import opened Storage
  import opened Packet
  import opened Dfu

  function Target(w: World): nat { SlotToSector(SlotOther(w.meta.activeSlot)) }

  /** Complete sectors after the header hold the stream in order. */
  ghost predicate Reassembled(f: Flash, s: Session) {
    forall k: nat | k < FullSectors(s) :: Read(f, s.base + 1 + k) == SectorOf(s.stream, k)
  }

  ghost predicate Shape(w0: World, s: Session) {
    && (s.started ==> s.base == if s.selfUpdate then SECTOR_BOOTLOADER else Target(w0))
    && (!s.started ==> s.stream == [] && !s.unwritten && !s.selfUpdate && s.phase != Receiving)
    && (|s.stream| % SECTOR_SIZE != 0 ==> s.unwritten)
    && (s.phase == Rebooted ==> s.selfUpdate)
    && (s.phase == Done ==> !s.selfUpdate)
  }

  /** Until a commit nothing changes but the sectors of the image being written. */
  ghost predicate Uncommitted(w0: World, w: World, s: Session) {
    && w.meta == w0.meta && w.crcOk == w0.crcOk
    && SameOutside(w0.flash, w.flash, s.base, s.base + Extent(s))
  }

  /** A commit flips the metadata to a slot that reads back valid and carries the marker. */
  ghost predicate CommittedTo(w0: World, w: World, s: Session) {
    && w.meta == Committed(w0.meta) && w.crcOk
    && MetaOf(w.flash) == w.meta
    && ValidImage(w.flash, Target(w0)) && HasMarker(w.flash, Target(w0))
    && forall k: nat :: !(s.base <= k < s.base + Extent(s)) && k != SECTOR_METADATA ==> Read(w.flash, k) == Read(w0.flash, k)
  }

  /** Every sector the session claims holds its part of the stream, zero-padded. */
  ghost predicate Complete(f: Flash, s: Session) {
    forall k: nat | k <= FullSectors(s) && k + 1 < Extent(s) :: Read(f, s.base + 1 + k) == SectorOf(s.stream, k)
  }

  ghost predicate SessionInv(w0: World, w: World, s: Session) {
    && Shape(w0, s)
    && Reassembled(w.flash, s)
    && if s.phase == Done then CommittedTo(w0, w, s) && Complete(w.flash, s) else Uncommitted(w0, w, s)
  }

  lemma StartKeeps(w0: World, w: World, s: Session, p: Packet, base: nat, self: bool)
    requires SessionInv(w0, w, s) && Live(s) && WellFormed(p)
    requires base == if self then SECTOR_BOOTLOADER else Target(w0)
    ensures var r := OnStart(w, s, p, base, self); SessionInv(w0, r.0, r.1)
  {
    hide WordAt, SectorOf, CommittedTo, Complete;
  }

  /** Earlier sectors of the stream do not change when a payload is appended. */
  lemma SectorOfPrefix(a: seq<byte>, b: seq<byte>, k: nat)
    requires (k + 1) * SECTOR_SIZE <= |a|
    ensures SectorOf(a + b, k) == SectorOf(a, k)
  {
    assert (a + b)[k * SECTOR_SIZE..] == a[k * SECTOR_SIZE..] + b;
  }

  /** How far one payload moves the sector count. */
  lemma SectorStep(total: nat, len: nat)
    requires len <= MAX_DATA
    ensures (total + len) / SECTOR_SIZE
            == total / SECTOR_SIZE + if total % SECTOR_SIZE + len >= SECTOR_SIZE then 1 else 0
    ensures total % SECTOR_SIZE + len < SECTOR_SIZE ==> (total + len) % SECTOR_SIZE == total % SECTOR_SIZE + len
  {
  }

  lemma DataReassembles(w: World, s: Session, p: Packet)
    requires Reassembled(w.flash, s) && s.base >= FIRMWARE_FLOOR
    requires WellFormed(p) && p.len % 4 == 0 && s.phase == Receiving
    ensures var r := OnData(w, s, p); Reassembled(r.0.flash, r.1)
  {
    hide SectorOf;
    var r := OnData(w, s, p);
    var n := FullSectors(s);
    SectorStep(|s.stream|, p.len);
    forall k: nat | k < FullSectors(r.1)
      ensures Read(r.0.flash, s.base + 1 + k) == SectorOf(r.1.stream, k)
    {
      if k < n {
        SectorOfPrefix(s.stream, p.data[..p.len], k);
      }
    }
  }

  lemma DataConfined(w0: World, w: World, s: Session, p: Packet)
    requires Shape(w0, s) && Uncommitted(w0, w, s) && Live(s)
    requires WellFormed(p) && p.len % 4 == 0 && s.phase == Receiving
    ensures var r := OnData(w, s, p); Shape(w0, r.1) && Uncommitted(w0, r.0, r.1)
  {
    hide SectorOf;
    SectorStep(|s.stream|, p.len);
  }

  lemma DataKeeps(w0: World, w: World, s: Session, p: Packet)
    requires SessionInv(w0, w, s) && Live(s) && WellFormed(p)
    ensures var r := OnData(w, s, p); SessionInv(w0, r.0, r.1)
  {
    hide SectorOf, Write;
    if p.len % 4 == 0 && s.phase == Receiving {
      DataReassembles(w, s, p);
      DataConfined(w0, w, s, p);
    }
  }

  lemma SlotsAboveMetadata(slot: u32)
    ensures SlotToSector(slot) > SECTOR_METADATA > FIRMWARE_FLOOR
  {
  }

  lemma ValidImageFrame(f: Flash, g: Flash, base: nat)
    requires forall k: nat | k >= base :: Read(g, k) == Read(f, k)
    ensures ValidImage(g, base) == ValidImage(f, base)
    ensures HasMarker(g, base) == HasMarker(f, base)
  {
    hide Checksum;
    ReadBytesFrame(f, g, base + 1, WordAt(Read(f, base), 4));
  }

  lemma FlushKeeps(w0: World, w: World, s: Session)
    requires Shape(w0, s) && Reassembled(w.flash, s) && Uncommitted(w0, w, s)
    ensures Reassembled(Flushed(w, s), s)
    ensures Uncommitted(w0, w.(flash := Flushed(w, s)), s)
    ensures Complete(Flushed(w, s), s)
    ensures forall k: nat | k * SECTOR_SIZE < |s.stream| :: Read(Flushed(w, s), s.base + 1 + k) == SectorOf(s.stream, k)
  {
    hide SectorOf;
  }

  /** Writing the metadata leaves the freshly validated slot as it was. */
  lemma CommitKeeps(w0: World, w: World, s: Session)
    requires Shape(w0, s) && Reassembled(w.flash, s) && Complete(w.flash, s) && Uncommitted(w0, w, s) && !s.selfUpdate
    requires ValidImage(w.flash, Target(w0)) && HasMarker(w.flash, Target(w0))
    ensures var v := w.(meta := Committed(w.meta), flash := WriteMeta(w.flash, Committed(w.meta)), crcOk := true);
      SessionInv(w0, v, s.(phase := Done))
  {
    hide SectorOf, ValidImage, HasMarker, DecodeMeta, EncodeMeta;
    var h := WriteMeta(w.flash, Committed(w.meta));
    WriteMetaReadsBack(w.flash, Committed(w.meta));
    SlotsAboveMetadata(SlotOther(w0.meta.activeSlot));
    ValidImageFrame(w.flash, h, Target(w0));
  }

  /** Ending without a commit is safe from any uncommitted state. */
  lemma EndKeeps(w0: World, w: World, s: Session, reply: byte)
    requires Shape(w0, s) && Reassembled(w.flash, s) && Uncommitted(w0, w, s) && Live(s)
    ensures SessionInv(w0, Reply(w, reply), s.(phase := Aborted))
    ensures s.selfUpdate ==> SessionInv(w0, Reply(w, reply), s.(phase := Rebooted))
  {
    hide SectorOf;
  }

  lemma FinishKeeps(w0: World, w: World, s: Session)
    requires SessionInv(w0, w, s) && Live(s)
    ensures var r := OnFinish(w, s); SessionInv(w0, r.0, r.1)
  {
    hide ActualCrc, ValidImage, HasMarker, WriteMeta, Flushed, SectorOf;
    assert w.meta == w0.meta;
    FlushKeeps(w0, w, s);
    var v := w.(flash := Flushed(w, s));
    EndKeeps(w0, w, s, NACK);
    EndKeeps(w0, v, s, NACK);
    EndKeeps(w0, v, s, ACK);
    if !s.selfUpdate && ValidImage(v.flash, Target(w0)) && HasMarker(v.flash, Target(w0)) {
      CommitKeeps(w0, v, s);
      ReplyKeeps(w0, v.(meta := Committed(v.meta), flash := WriteMeta(v.flash, Committed(v.meta)), crcOk := true), s.(phase := Done), ACK);
    }
    hide SessionInv;
  }

  lemma ReplyKeeps(w0: World, w: World, s: Session, reply: byte)
    requires SessionInv(w0, w, s)
    ensures SessionInv(w0, Reply(w, reply), s)
  {
    hide SectorOf, ValidImage, HasMarker;
  }

  lemma PacketKeeps(w0: World, w: World, s: Session, p: Packet)
    requires SessionInv(w0, w, s) && Live(s) && WellFormed(p)
    ensures var r := OnPacket(w, s, p); SessionInv(w0, r.0, r.1)
  {
    assert w.meta == w0.meta;
    assert SessionInv(w0, Abort(w, s).0, Abort(w, s).1);
    hide SessionInv, OnData, OnStart, OnFinish;
    if p.cmd == CMD_START {
      StartKeeps(w0, w, s, p, Target(w0), false);
    } else if p.cmd == CMD_START_SELF_UPDATE {
      StartKeeps(w0, w, s, p, SECTOR_BOOTLOADER, true);
    } else if p.cmd == CMD_DATA {
      DataKeeps(w0, w, s, p);
    } else if p.cmd == CMD_FINISH {
      FinishKeeps(w0, w, s);
    }
  }

  lemma {:induction false} RunKeeps(w0: World, w: World, s: Session, input: seq<Rx>)
    requires SessionInv(w0, w, s)
    ensures var r := RunSession(w, s, input); SessionInv(w0, r.0, r.1)
    decreases |input|
  {
    hide SessionInv, OnPacket;
    if Live(s) && Parse(input).Received? {
      var p := Parse(input).packet;
      PacketKeeps(w0, w, s, p);
      RunKeeps(w0, OnPacket(w, s, p).0, OnPacket(w, s, p).1, Parse(input).rest);
    }
  }

  /** At every moment of every session, up to a store past the packet buffer if there is one. */
  lemma SessionKeeps(w0: World, s0: Session, input: seq<Rx>)
    requires Fresh(s0)
    ensures var r := Receive(w0, s0, input); SessionInv(w0, r.0, r.1)
  {
    assert SessionInv(w0, w0, s0) && SessionInv(w0, Reply(w0, ACK), s0);
    hide SessionInv;
    if AwaitTrigger(0, input).Some? {
      RunKeeps(w0, Reply(w0, ACK), s0, AwaitTrigger(0, input).value);
    }
  }

  /** Every session that does not store past its packet buffer: whatever arrives, either nothing
      outside the sectors being written has changed, or the metadata now names a slot that reads
      back valid and carries the marker. */
  lemma SessionSafe(w0: World, s0: Session, input: seq<Rx>)
    requires Fresh(s0) && Receive(w0, s0, input).2 != BufferOverrun
    ensures var r := Receive(w0, s0, input);
      if r.1.phase == Done then CommittedTo(w0, r.0, r.1) else Uncommitted(w0, r.0, r.1)
    ensures var r := Receive(w0, s0, input); Shape(w0, r.1) && Reassembled(r.0.flash, r.1)
    ensures var r := Receive(w0, s0, input); r.1.phase == Done ==> Complete(r.0.flash, r.1)
  {
    hide Receive, CommittedTo, Uncommitted, Shape, Reassembled, Complete;
    SessionKeeps(w0, s0, input);
  }

  function Active(w: World): nat { SlotToSector(w.meta.activeSlot) }
}
