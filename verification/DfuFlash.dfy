/** What flash holds after a session, sector by sector, read off the packets that arrive. */
module DfuFlash {
  import opened Bytes
  import opened Sequences
  import opened Crc
  import opened Storage
  import opened Packet
  import opened Dfu
  import opened DfuSafety
  import opened DfuBounds

  // ---------------------------------------------------------------- the session's view

  /** What sector `k` holds: a piece of the stream once it is complete, or once an accepted FINISH
      flushed it, and otherwise what it held before. */
  function SectorNow(f0: Flash, s: Session, flushed: bool, k: nat): Sector {
    if k > s.base && (k - s.base - 1 < FullSectors(s) || (flushed && s.unwritten && k - s.base - 1 == FullSectors(s)))
    then SectorOf(s.stream, k - s.base - 1) else Read(f0, k)
  }

  /** All sectors are like that, but for the header and, after a commit, the metadata. */
  ghost predicate Holding(f0: Flash, f: Flash, s: Session, flushed: bool) {
    forall k: nat | k != s.base && !(s.phase == Done && k == SECTOR_METADATA) :: Read(f, k) == SectorNow(f0, s, flushed, k)
  }

  lemma {:induction false} StartHolds(w: World, s: Session, p: Packet, base: nat, self: bool)
    requires Fresh(s) && WellFormed(p) && p.len == 12
    ensures var r := OnStart(w, s, p, base, self); Holding(w.flash, r.0.flash, r.1, false)
  {
    hide WordAt, HeaderSector, SectorOf;
  }

  lemma {:induction false} DataHolds(f0: Flash, w: World, s: Session, p: Packet)
    requires Holding(f0, w.flash, s, false) && s.base >= FIRMWARE_FLOOR
    requires WellFormed(p) && p.len % 4 == 0 && s.phase == Receiving
    ensures var r := OnData(w, s, p); Holding(f0, r.0.flash, r.1, false)
  {
    hide SectorOf;
    var r := OnData(w, s, p);
    var n := FullSectors(s);
    SectorStep(|s.stream|, p.len);
    forall k: nat | k != s.base ensures Read(r.0.flash, k) == SectorNow(f0, r.1, false, k) {
      if k > s.base && k - s.base - 1 < n { SectorOfPrefix(s.stream, p.data[..p.len], k - s.base - 1); }
    }
  }

  lemma {:induction false} FlushHolds(f0: Flash, w: World, s: Session)
    requires Holding(f0, w.flash, s, false) && s.base >= FIRMWARE_FLOOR && s.started && s.phase != Done
    ensures Holding(f0, Flushed(w, s), s, true)
  {
    hide SectorOf;
  }

  lemma {:induction false} PhaseHolds(f0: Flash, f: Flash, s: Session, flushed: bool, phase: Phase)
    requires Holding(f0, f, s, flushed) && s.phase != Done
    ensures Holding(f0, f, s.(phase := phase), flushed)
  {
    hide SectorOf;
  }

  lemma {:induction false} CommitHoldsToo(f0: Flash, f: Flash, s: Session, m: Meta)
    requires Holding(f0, f, s, true) && s.phase != Done
    ensures Holding(f0, WriteMeta(f, m), s.(phase := Done), true)
  {
    hide SectorOf, EncodeMeta;
  }

  lemma {:induction false} FinishHolds(f0: Flash, w: World, s: Session)
    requires Holding(f0, w.flash, s, false) && s.base >= FIRMWARE_FLOOR && s.started && Dfu.Live(s)
    ensures var r := OnFinish(w, s); Holding(f0, r.0.flash, r.1, ActualCrc(s) == s.expectedCrc)
  {
    hide Holding, ActualCrc, ValidImage, HasMarker, WriteMeta, Flushed;
    if ActualCrc(s) == s.expectedCrc {
      FlushHolds(f0, w, s);
      PhaseHolds(f0, Flushed(w, s), s, true, Rebooted);
      PhaseHolds(f0, Flushed(w, s), s, true, Aborted);
      CommitHoldsToo(f0, Flushed(w, s), s, Committed(w.meta));
    } else {
      PhaseHolds(f0, w.flash, s, false, Aborted);
    }
  }

  /** Whether an ending packet is a FINISH whose CRC agrees. */
  predicate Accepts(s: Session, p: Packet) { p.cmd == CMD_FINISH && ActualCrc(s) == s.expectedCrc }

  lemma {:induction false} PacketHolds(f0: Flash, w: World, s: Session, p: GoodPacket)
    requires Holding(f0, w.flash, s, false) && s.base >= FIRMWARE_FLOOR && s.started && s.phase == Receiving
    ensures var r := OnPacket(w, s, p); Holding(f0, r.0.flash, r.1, Accepts(s, p))
  {
    hide Holding, OnData, OnFinish, ActualCrc;
    PhaseHolds(f0, w.flash, s, false, Aborted);
    if p.cmd == CMD_DATA && p.len % 4 == 0 { DataHolds(f0, w, s, p); }
    if p.cmd == CMD_DATA && p.len % 4 != 0 { RaggedData(w, s, p); }
    if p.cmd == CMD_FINISH { FinishHolds(f0, w, s); }
  }

  lemma {:induction false} RaggedData(w: World, s: Session, p: GoodPacket)
    requires p.len % 4 != 0
    ensures OnData(w, s, p) == Abort(w, s)
  {
  }

  /** The packet that ends the transfer is a FINISH. */
  predicate ClosedByFinish(ps: seq<GoodPacket>) {
    ps != [] && if Ends(ps[0]) || IsStart(ps[0]) then ps[0].cmd == CMD_FINISH else ClosedByFinish(ps[1..])
  }

  lemma {:induction false} ClosedStep(p: GoodPacket, ps: seq<GoodPacket>)
    ensures ClosedByFinish([p] + ps) == if Ends(p) || IsStart(p) then p.cmd == CMD_FINISH else ClosedByFinish(ps)
    ensures !ClosedByFinish([])
  {
    assert ([p] + ps)[1..] == ps;
  }

  lemma {:induction false} RunHolds(f0: Flash, w: World, s: Session, input: seq<Rx>, was: bool)
    requires Holding(f0, w.flash, s, false) && s.base >= FIRMWARE_FLOOR && s.started && s.phase == Receiving && Pending(s, was)
    ensures var r := RunSession(w, s, input);
      Holding(f0, r.0.flash, r.1, ClosedByFinish(Packets(input)) && ActualCrc(r.1) == r.1.expectedCrc)
    decreases |input|
  {
    hide Holding, Parse, OnPacket, Pending, RunSession, Packets, Ends, ActualCrc, ClosedByFinish;
    if Parse(input).Received? {
      Turn(w, s, input);
      var p: GoodPacket, rest := Parse(input).packet, Parse(input).rest;
      var n := OnPacket(w, s, p);
      ClosedStep(p, Packets(rest));
      PacketHolds(f0, w, s, p);
      if IsStart(p) {
        SecondStart(w, s, p, was);
        NoTurn(n.0, n.1, rest);
      } else {
        PacketIs(w, s, p, was);
        if Ends(p) {
          NoTurn(n.0, n.1, rest);
          SameCrc(s, n.1);
        } else {
          NotAccepted(s, p);
          RunHolds(f0, n.0, n.1, rest, EmptyAfter(p, was));
        }
      }
    } else {
      NoTurn(w, s, input);
      NothingClosed();
    }
  }

  lemma {:induction false} NothingClosed()
    ensures !ClosedByFinish([])
  {
  }

  lemma {:induction false} NotAccepted(s: Session, p: GoodPacket)
    requires !Ends(p)
    ensures !Accepts(s, p)
  {
  }

  lemma {:induction false} SameCrc(s: Session, t: Session)
    requires t == s.(phase := t.phase)
    ensures ActualCrc(t) == ActualCrc(s)
  {
  }

  // ---------------------------------------------------------------- from the trigger key on

  /** Where a transfer's header goes. */
  function BaseOf(w: World, p: Packet): nat { if p.cmd == CMD_START_SELF_UPDATE then SECTOR_BOOTLOADER else Target(w) }

  lemma {:induction false} OpensAt(w: World, s: Session, p: GoodPacket)
    requires Fresh(s) && IsStart(p) && p.len == 12
    ensures var r := OnPacket(w, s, p);
      && Holding(w.flash, r.0.flash, r.1, false) && r.1.base == BaseOf(w, p) >= FIRMWARE_FLOOR
      && r.1.phase == Receiving && r.1.started && Pending(r.1, false)
  {
    hide Holding, WordAt;
    StartHolds(w, s, p, BaseOf(w, p), p.cmd == CMD_START_SELF_UPDATE);
  }

  /** Before a START nothing is written. */
  lemma {:induction false} IdlePacket(w: World, s: Session, p: GoodPacket)
    requires Fresh(s) && !IsStart(p) && !Ends(p)
    ensures OnPacket(w, s, p) == (w, s)
  {
  }

  lemma {:induction false} OpeningHolds(w: World, s: Session, input: seq<Rx>)
    requires Fresh(s) && Opening(Packets(input)).Some?
    ensures var r := RunSession(w, s, input); var (p, rest) := Opening(Packets(input)).value;
      && r.1.base == BaseOf(w, p)
      && Holding(w.flash, r.0.flash, r.1, ClosedByFinish(rest) && ActualCrc(r.1) == r.1.expectedCrc)
    decreases |input|
  {
    hide Holding, Parse, OnPacket, Pending, RunSession, Packets, Ends, IsStart, ActualCrc, ClosedByFinish, BaseOf;
    if Parse(input).Received? {
      Turn(w, s, input);
      var p: GoodPacket, rest := Parse(input).packet, Parse(input).rest;
      var n := OnPacket(w, s, p);
      OpeningStep(p, Packets(rest));
      hide Opening;
      if IsStart(p) {
        OpensAt(w, s, p);
        RunHolds(w.flash, n.0, n.1, rest, false);
        TransferIs(n.0, n.1, rest, false);
      } else {
        IdlePacket(w, s, p);
        OpeningHolds(n.0, n.1, rest);
      }
    } else {
      NoTurn(w, s, input);
    }
  }

  /** The CRC of the first bytes carried, as many as START declared, is the one it declared. */
  predicate CrcAgrees(p: GoodPacket, data: seq<byte>)
    requires |p.data| == 12
  {
    var n := WordAt(p.data, 4);
    Checksum(if |data| < n then data else data[..n]) == WordAt(p.data, 8)
  }

  /** The transfer is closed by a FINISH, and its CRC agrees. */
  predicate FinishAccepted(input: seq<Rx>) {
    match Opening(Sent(input))
    case None => false
    case Some((p, rest)) => ClosedByFinish(rest) && CrcAgrees(p, Carried(rest))
  }

  /** The image comes to be written to the `n`-th sector behind its header: it fills it, or it ends
      in it and is flushed. */
  predicate Reaches(input: seq<Rx>, n: nat) {
    |Image(input)| >= n * SECTOR_SIZE || (!Takes(input, n) && FinishAccepted(input))
  }

  lemma {:induction false} CrcIs(s: Session, p: GoodPacket, rest: seq<GoodPacket>)
    requires |p.data| == 12 && s.stream == Carried(rest)
    requires s.hash == CRC_INIT && s.length == WordAt(p.data, 4) && s.expectedCrc == WordAt(p.data, 8)
    ensures ActualCrc(s) == s.expectedCrc <==> CrcAgrees(p, Carried(rest))
  {
    hide WordAt, Absorb, Sum, Carried;
    assert s.stream[..|s.stream|] == s.stream;
  }

  /** Header and claimed sectors, counted in bytes. */
  lemma {:induction false} NowIs(f0: Flash, s: Session, flushed: bool, n: nat)
    requires n >= 1 && s.started
    ensures |s.stream| >= n * SECTOR_SIZE || (Extent(s) > n && flushed) ==>
      (n - 1) * SECTOR_SIZE <= |s.stream| && SectorNow(f0, s, flushed, s.base + n) == SectorOf(s.stream, n - 1)
    ensures !(|s.stream| >= n * SECTOR_SIZE || (Extent(s) > n && flushed)) ==> SectorNow(f0, s, flushed, s.base + n) == Read(f0, s.base + n)
  {
    hide SectorOf;
  }

  lemma {:induction false} TriggerFired(input: seq<Rx>)
    requires Opening(Sent(input)).Some?
    ensures AwaitTrigger(0, input).Some?
  {
    hide Packets;
  }

  lemma {:induction false} HoldingIs(w0: World, s0: Session, input: seq<Rx>)
    requires Fresh(s0) && Opening(Sent(input)).Some?
    ensures var r := Receive(w0, s0, input);
      && r.1.base == BaseOf(w0, Opening(Sent(input)).value.0) && r.1.started
      && Holding(w0.flash, r.0.flash, r.1, FinishAccepted(input))
  {
    hide RunSession, Packets, Opening, Holding, ActualCrc, CrcAgrees, ClosedByFinish, Carried, EndsEmpty, Pending, WordAt;
    TriggerFired(input);
    OpeningHolds(Reply(w0, ACK), s0, AwaitTrigger(0, input).value);
    SessionIs(w0, s0, input);
    var (p, rest) := Opening(Sent(input)).value;
    CrcIs(Receive(w0, s0, input).1, p, rest);
  }

  /** Any sector behind the header, whatever arrived: it holds its piece of the image if the image
      comes to be written there, and otherwise what it held before the session. */
  lemma {:induction false} SectorAfter(w0: World, s0: Session, input: seq<Rx>, n: nat)
    requires Fresh(s0) && Receive(w0, s0, input).2 != BufferOverrun && (AppSession(input) || SelfUpdate(input)) && n >= 1
    ensures Reaches(input, n) ==> (n - 1) * SECTOR_SIZE <= |Image(input)|
    ensures var k := BaseOf(w0, Opening(Sent(input)).value.0) + n;
      Read(Receive(w0, s0, input).0.flash, k) == if Reaches(input, n) then SectorOf(Image(input), n - 1) else Read(w0.flash, k)
  {
    hide Receive, Opening, Sent, SectorOf, FinishAccepted, Takes, Extent, SectorNow, CommittedTo, Uncommitted, Complete, Reassembled;
    HoldingIs(w0, s0, input);
    SessionExtent(w0, s0, input, n);
    SessionKeeps(w0, s0, input);
    var (v, s, ending) := Receive(w0, s0, input);
    NowIs(w0.flash, s, FinishAccepted(input), n);
  }

  // ---------------------------------------------------------------- the active slot

  /** A session for slot A reaches slot B, the active one. */
  predicate ReachesActive(w: World, input: seq<Rx>, k: nat) {
    w.meta.activeSlot == SLOT_B && k > SECTOR_APP_A && Reaches(input, k - SECTOR_APP_A)
  }

  /** Every sector of the active slot after any application session. */
  lemma {:induction false} ActiveSlotAfter(w0: World, s0: Session, input: seq<Rx>, k: nat)
    requires Fresh(s0) && Receive(w0, s0, input).2 != BufferOverrun && AppSession(input) && InActiveSlot(w0, k)
    ensures ReachesActive(w0, input, k) ==> (k - SECTOR_APP_A - 1) * SECTOR_SIZE <= |Image(input)|
    ensures Read(Receive(w0, s0, input).0.flash, k)
            == if ReachesActive(w0, input, k) then SectorOf(Image(input), k - SECTOR_APP_A - 1) else Read(w0.flash, k)
  {
    hide Receive, Opening, Sent, SectorOf, Reaches;
    if w0.meta.activeSlot == SLOT_B {
      SectorAfter(w0, s0, input, k - SECTOR_APP_A);
    } else {
      hide Extent, ValidImage, HasMarker, MetaOf, Reassembled, Complete;
      SessionSafe(w0, s0, input);
      SessionExtent(w0, s0, input, 0);
    }
  }

  /** Sectors are reached from the first one on. */
  lemma {:induction false} ReachesDown(input: seq<Rx>, n: nat, m: nat)
    requires Reaches(input, m) && n <= m
    ensures Reaches(input, n)
  {
    hide FinishAccepted, Carried, Opening, EndsEmpty, Sent;
    if |Image(input)| < n * SECTOR_SIZE { BytesUp(|Image(input)|, n, m); }
  }

  lemma {:induction false} BytesUp(bytes: nat, n: nat, m: nat)
    requires n <= m && bytes < n * SECTOR_SIZE
    ensures bytes < m * SECTOR_SIZE
  {
  }

  /** A session writes no sector of the active slot if and only if it does not write its header:
      slot A is active, or the image neither fills slot A nor ends, flushed, one sector beyond. */
  lemma {:induction false} ActiveSlotExactly(w0: World, input: seq<Rx>)
    ensures (exists k: nat :: InActiveSlot(w0, k) && ReachesActive(w0, input, k)) <==> ReachesActive(w0, input, SECTOR_APP_B)
  {
    hide Reaches;
    if k: nat :| InActiveSlot(w0, k) && ReachesActive(w0, input, k) {
      ReachesDown(input, SECTOR_APP_B - SECTOR_APP_A, k - SECTOR_APP_A);
    }
    if ReachesActive(w0, input, SECTOR_APP_B) { assert InActiveSlot(w0, SECTOR_APP_B); }
  }

  /** Otherwise the active slot is left alone, sector by sector. */
  lemma {:induction false} ActiveSlotUntouched(w0: World, s0: Session, input: seq<Rx>)
    requires Fresh(s0) && Receive(w0, s0, input).2 != BufferOverrun && AppSession(input)
    requires !ReachesActive(w0, input, SECTOR_APP_B)
    ensures var v := Receive(w0, s0, input).0; forall k: nat | InActiveSlot(w0, k) :: Read(v.flash, k) == Read(w0.flash, k)
  {
    hide Receive, AppSession, InActiveSlot, ReachesActive;
    ActiveSlotExactly(w0, input);
    var v := Receive(w0, s0, input).0;
    forall k: nat | InActiveSlot(w0, k) ensures Read(v.flash, k) == Read(w0.flash, k) {
      ActiveSlotAfter(w0, s0, input, k);
    }
  }

  // ---------------------------------------------------------------- the metadata

  /** A self-update that does not end before the metadata sector. */
  predicate ReachesMetadata(input: seq<Rx>) { SelfUpdate(input) && Reaches(input, METADATA_DISTANCE) }

  /** The metadata sector, its RAM copy and the CRC verdict after any session without a commit. */
  lemma {:induction false} MetadataAfter(w0: World, s0: Session, input: seq<Rx>)
    requires Fresh(s0) && Receive(w0, s0, input).2 != BufferOverrun && Receive(w0, s0, input).1.phase != Done
    ensures ReachesMetadata(input) ==> (METADATA_DISTANCE - 1) * SECTOR_SIZE <= |Image(input)|
    ensures var r := Receive(w0, s0, input);
      && r.0.meta == w0.meta && r.0.crcOk == w0.crcOk
      && Read(r.0.flash, SECTOR_METADATA)
         == if ReachesMetadata(input) then SectorOf(Image(input), METADATA_DISTANCE - 1) else Read(w0.flash, SECTOR_METADATA)
  {
    hide Receive, Opening, Sent, SectorOf, Reaches, Extent, Reassembled, Complete;
    SessionSafe(w0, s0, input);
    SessionExtent(w0, s0, input, 0);
    SlotsAboveMetadata(SlotOther(w0.meta.activeSlot));
    if SelfUpdate(input) { SectorAfter(w0, s0, input, METADATA_DISTANCE); }
  }

  /** Without a commit the metadata stays, unless a self-update reaches it. */
  lemma {:induction false} MetadataOnlyAtCommit(w0: World, s0: Session, input: seq<Rx>)
    requires Fresh(s0) && Receive(w0, s0, input).2 != BufferOverrun && Receive(w0, s0, input).1.phase != Done
    requires !ReachesMetadata(input)
    ensures var r := Receive(w0, s0, input);
      r.0.meta == w0.meta && r.0.crcOk == w0.crcOk && MetaOf(r.0.flash) == MetaOf(w0.flash)
  {
    hide Receive, ReachesMetadata, DecodeMeta, SectorOf;
    MetadataAfter(w0, s0, input);
  }
}
