/** The DFU receive session: an image streamed into the inactive A/B slot, read back, and
    committed by flipping the watchdog metadata. */
module Dfu {
  import opened Bytes
  import opened Sequences
  import opened Crc
  import opened Storage
  import opened Packet

  const ACK: byte := 0x06
  const NACK: byte := 0x15

  // ---------------------------------------------------------------- abstract session

  /** AwaitStart and Receiving keep the session loop going; the rest end it. */
  datatype Phase = AwaitStart | Receiving | Done | Aborted | Rebooted

  /** What a session can change outside itself.  `meta` is the RAM copy of the metadata. */
  datatype World = World(flash: Flash, meta: Meta, crcOk: bool, replies: seq<byte>)

  /** A session seen as the byte stream it has accepted so far. */
  datatype Session = Session(
    phase: Phase,
    started: bool,
    selfUpdate: bool,
    base: nat,                // header sector being written
    expectedCrc: u32,
    length: u32,
    hash: Register,             // CRC register before the first payload byte
    stream: seq<byte>,        // concatenated DATA payloads
    unwritten: bool,          // a sector is buffered and not yet in flash
    stale: Sector)            // content of the sector buffer before the header went in

  /** dfu_init plus dfu_receive's locals.  The CRC context and the expected CRC are not
      initialised by the source, so they may hold anything. */
  predicate Fresh(s: Session) {
    && s.phase == AwaitStart && !s.started && !s.selfUpdate && s.base == 0
    && s.length == 0 && s.stream == [] && !s.unwritten
  }

  function Unstarted(anyCrc: Register, anyExpected: u32, buffer: Sector): (s: Session)
    ensures Fresh(s)
  {
    Session(AwaitStart, false, false, 0, anyExpected, 0, anyCrc, [], false, buffer)
  }

  function FullSectors(s: Session): nat { |s.stream| / SECTOR_SIZE }

  /** Bytes of the stream beyond its complete sectors. */
  function Tail(s: Session): nat { |s.stream| % SECTOR_SIZE }

  /** Header sector plus complete data sectors. */
  function SectorsWritten(s: Session): nat { if s.started then 1 + FullSectors(s) else 0 }

  /** Sectors the session has written or will write when it finishes. */
  function Extent(s: Session): nat { SectorsWritten(s) + if s.unwritten then 1 else 0 }

  /** The k-th sector of `stream`, zero-padded. */
  function SectorOf(stream: seq<byte>, k: nat): Sector
    requires k * SECTOR_SIZE <= |stream|
  {
    var rest := stream[k * SECTOR_SIZE..];
    if |rest| >= SECTOR_SIZE then rest[..SECTOR_SIZE] else rest + Zeros(SECTOR_SIZE - |rest|)
  }

  function Hashed(s: Session): nat { if |s.stream| < s.length then |s.stream| else s.length }

  function ActualCrc(s: Session): u32 { Sum(Absorb(s.hash, s.stream[..Hashed(s)])) }

  function Reply(w: World, b: byte): World { w.(replies := w.replies + [b]) }

  function Acks(n: nat): seq<byte> { seq(n, _ => ACK) }

  function Abort(w: World, s: Session): (World, Session) { (Reply(w, NACK), s.(phase := Aborted)) }

  function HeaderSector(data: seq<byte>, stale: Sector): Sector
    requires |data| == 12
  {
    data + stale[12..]
  }

  function OnStart(w: World, s: Session, p: Packet, base: nat, selfUpdate: bool): (World, Session)
    requires WellFormed(p)
  {
    if s.started || p.len != 12 then Abort(w, s)
    else
      (Reply(w.(flash := Write(w.flash, base, HeaderSector(p.data, s.stale))), ACK),
       s.(phase := Receiving, started := true, selfUpdate := selfUpdate, base := base,
          length := WordAt(p.data, 4), expectedCrc := WordAt(p.data, 8), hash := CRC_INIT))
  }

  function OnData(w: World, s: Session, p: Packet): (World, Session)
    requires WellFormed(p)
  {
    if p.len % 4 != 0 then Abort(w, s)
    else if s.phase != Receiving then (w, s)
    else
      var t := s.(stream := s.stream + p.data[..p.len]);
      if Tail(s) + p.len >= SECTOR_SIZE then
        (Reply(w.(flash := Write(w.flash, s.base + 1 + FullSectors(s), SectorOf(t.stream, FullSectors(s)))), ACK),
         t.(unwritten := Tail(t) != 0))
      else (Reply(w, ACK), t.(unwritten := true))
  }

  function Flushed(w: World, s: Session): Flash {
    if s.unwritten then Write(w.flash, s.base + SectorsWritten(s), SectorOf(s.stream, FullSectors(s)))
    else w.flash
  }

  function OnFinish(w: World, s: Session): (World, Session) {
    if ActualCrc(s) != s.expectedCrc then Abort(w, s)
    else Conclude(w.(flash := Flushed(w, s)), s)
  }

  /** After the transfer checked out: reboot into a new bootloader, or commit a validated slot. */
  function Conclude(w: World, s: Session): (World, Session) {
    if s.selfUpdate then (Reply(w, ACK), s.(phase := Rebooted))
    else
      var target := SlotToSector(SlotOther(w.meta.activeSlot));
      if !ValidImage(w.flash, target) || !HasMarker(w.flash, target) then Abort(w, s)
      else
        var m := Committed(w.meta);
        (Reply(w.(meta := m, flash := WriteMeta(w.flash, m), crcOk := true), ACK), s.(phase := Done))
  }

  /** The other slot becomes active, on trial. */
  function Committed(m: Meta): Meta {
    m.(activeSlot := SlotOther(m.activeSlot), trial := 1, bootCount := 0)
  }

  function OnPacket(w: World, s: Session, p: Packet): (World, Session)
    requires WellFormed(p)
  {
    if p.cmd == CMD_START then OnStart(w, s, p, SlotToSector(SlotOther(w.meta.activeSlot)), false)
    else if p.cmd == CMD_START_SELF_UPDATE then OnStart(w, s, p, SECTOR_BOOTLOADER, true)
    else if p.cmd == CMD_DATA then OnData(w, s, p)
    else if p.cmd == CMD_FINISH then OnFinish(w, s)
    else if p.cmd == CMD_ABORT then Abort(w, s)
    else (w, s)
  }

  predicate Live(s: Session) { s.phase == AwaitStart || s.phase == Receiving }

  /** How dfu_receive ends: by phase, by a timeout between bytes, by waiting for ever, or by a
      packet too long for its buffer. */
  datatype Ending = Ended | SessionTimedOut | Stuck | BufferOverrun

  /** The packet loop. */
  function RunSession(w: World, s: Session, input: seq<Rx>): (r: (World, Session, Ending))
    decreases |input|
  {
    if !Live(s) then (w, s, Ended)
    else match Parse(input)
         case Starved => (w, s, Stuck)
         case Overrun => (w, s, BufferOverrun)
         case TimedOut(_) => (w, s, SessionTimedOut)
         case Received(p, rest) =>
           var next := OnPacket(w, s, p);
           RunSession(next.0, next.1, rest)
  }

  const TRIGGER_KEY: u32 := 0xDF00_DF00

  /** dfu_trigger_feed's shift register. */
  function Shift(reg: u32, b: byte): u32 { (reg % 0x100_0000) * 256 + b }

  /** Blocking reads until the last four bytes are the trigger key; what is left then. */
  function AwaitTrigger(reg: u32, input: seq<Rx>): (r: Option<seq<Rx>>)
    ensures r.Some? ==> |r.value| < |input|
    decreases |input|
  {
    if input == [] then None
    else if input[0].Silence? then AwaitTrigger(reg, input[1..])
    else
      var next := Shift(reg, input[0].b);
      if next == TRIGGER_KEY then Some(input[1..]) else AwaitTrigger(next, input[1..])
  }

  function Receive(w: World, s: Session, input: seq<Rx>): (World, Session, Ending) {
    match AwaitTrigger(0, input)
    case None => (w, s, Stuck)
    case Some(rest) => RunSession(Reply(w, ACK), s, rest)
  }
}
