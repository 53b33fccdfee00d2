/** The receiver as it runs: session variables, a 512-byte sector buffer filled in place, and
    a CRC that follows the packets.  Every handler is proved against the abstract session. */
module DfuReceiver {
  import opened Bytes
  import opened Sequences
  import opened Crc
  import opened Storage
  import opened Packet
  import opened Dfu

  /** The copy loops: `n` bytes of `data` from `from` on go to `buf` from `at` on. */
  method Copy(buf: array<byte>, at: nat, data: seq<byte>, from: nat, n: nat)
    requires at + n <= buf.Length && from + n <= |data|
    modifies buf
    ensures buf[..] == old(buf[..at]) + data[from..from + n] + old(buf[at + n..])
  {
    for i := 0 to n
      invariant buf[..at] == old(buf[..at]) && buf[at..at + i] == data[from..from + i]
      invariant buf[at + i..] == old(buf[at + i..])
    {
      buf[at + i] := data[from + i];
    }
    assert buf[..] == buf[..at] + buf[at..at + n] + buf[at + n..];
  }

  /** The session variables of the receiver: dfu_receive.c's statics and dfu_receive's locals. */
  datatype Vars = Vars(
    phase: Phase, started: bool, selfUpdate: bool, base: nat, expectedCrc: u32, length: u32,
    sectorsWritten: nat, counter: nat, unwritten: bool, bytesHashed: nat)

  /** `counter` buffered bytes are the end of the stream, after `n` complete sectors. */
  ghost predicate Buffered(buf: seq<byte>, counter: nat, stream: seq<byte>, n: nat) {
    && |buf| == SECTOR_SIZE && counter < SECTOR_SIZE
    && |stream| == SECTOR_SIZE * n + counter
    && buf[..counter] == stream[|stream| - counter..]
  }

  /** CMD_DATA that completes a sector: the full sector goes out, the rest opens the next one. */
  method Complete(buf: array<byte>, counter: nat, data: seq<byte>, len: nat, ghost stream: seq<byte>, ghost n: nat)
    returns (full: Sector)
    requires buf.Length == SECTOR_SIZE && Buffered(buf[..], counter, stream, n)
    requires len <= MAX_DATA && len <= |data| && counter + len >= SECTOR_SIZE
    modifies buf
    ensures n * SECTOR_SIZE <= |stream + data[..len]| && full == SectorOf(stream + data[..len], n)
    ensures Buffered(buf[..], counter + len - SECTOR_SIZE, stream + data[..len], n + 1)
  {
    ghost var more := data[..len];
    ghost var before := buf[..counter];
    var diff := counter + len - SECTOR_SIZE;
    Copy(buf, counter, data, 0, len - diff);
    FullBuffer(stream, more, n, counter, before);
    assert buf[..] == before + more[..SECTOR_SIZE - counter];
    full := buf[..];
    Copy(buf, 0, data, len - diff, diff);
    assert buf[..diff] == more[|more| - diff..];
  }

  /** CMD_DATA that fits the buffer. */
  method Append(buf: array<byte>, counter: nat, data: seq<byte>, len: nat, ghost stream: seq<byte>, ghost n: nat)
    requires buf.Length == SECTOR_SIZE && Buffered(buf[..], counter, stream, n)
    requires len <= |data| && counter + len < SECTOR_SIZE
    modifies buf
    ensures Buffered(buf[..], counter + len, stream + data[..len], n)
  {
    ghost var before := buf[..counter];
    Copy(buf, counter, data, 0, len);
    assert buf[..counter + len] == before + data[..len];
  }

  /** The padding loop of CMD_FINISH. */
  method Pad(buf: array<byte>, counter: nat, ghost stream: seq<byte>, ghost n: nat)
    requires buf.Length == SECTOR_SIZE && Buffered(buf[..], counter, stream, n)
    modifies buf
    ensures n * SECTOR_SIZE <= |stream| && buf[..] == SectorOf(stream, n)
    ensures Buffered(buf[..], counter, stream, n)
  {
    ghost var before := buf[..counter];
    Copy(buf, counter, Zeros(SECTOR_SIZE - counter), 0, SECTOR_SIZE - counter);
    PaddedBuffer(stream, n, counter, before);
    assert buf[..] == before + Zeros(SECTOR_SIZE - counter);
    assert buf[..counter] == before;
  }

  /** The variables, the buffer and the CRC register stand for session `s`. */
  ghost predicate Matches(v: Vars, buf: seq<byte>, reg: Register, s: Session) {
    && v.phase == s.phase && v.started == s.started && v.selfUpdate == s.selfUpdate && v.base == s.base
    && v.expectedCrc == s.expectedCrc && v.length == s.length && v.unwritten == s.unwritten
    && (v.started ==> v.sectorsWritten >= 1 && Buffered(buf, v.counter, s.stream, v.sectorsWritten - 1))
    && (!v.started ==> s.stream == [] && v.counter == 0 && v.sectorsWritten == 0 && !v.unwritten
                       && v.phase != Receiving && buf == s.stale)
    && (v.counter != 0 ==> v.unwritten)
    && v.bytesHashed == Hashed(s)
    && reg == Absorb(s.hash, s.stream[..v.bytesHashed])
  }

  /** Reboot into a new bootloader, or read back the slot just written, check the marker and
      commit. */
  method Judge(w: World, selfUpdate: bool, ghost s: Session) returns (r: World, b: byte, phase: Phase)
    requires selfUpdate == s.selfUpdate
    ensures Conclude(w, s) == (Reply(r, b), s.(phase := phase)) && !Live(s.(phase := phase))
  {
    hide ValidImage, WriteMeta, WordAt;
    if selfUpdate {
      return w, ACK, Rebooted;
    }
    var newSlot := SlotOther(w.meta.activeSlot);
    var valid := ValidateApp(w.flash, SlotToSector(newSlot));
    if !valid || WordAt(Read(w.flash, SlotToSector(newSlot) + 1), MARKER_OFFSET) != APP_MAGIC {
      return w, NACK, Aborted;
    }
    var m := w.meta.(activeSlot := newSlot, trial := 1, bootCount := 0);
    return w.(meta := m, flash := WriteMeta(w.flash, m), crcOk := true), ACK, Done;
  }

  /** How many bytes of a payload of `len` the CRC still has to cover. */
  function ToHash(v: Vars, len: nat): nat {
    if v.bytesHashed + len > v.length then (if v.length > v.bytesHashed then v.length - v.bytesHashed else 0)
    else len
  }

  /** The payload `more` completed a sector. */
  ghost predicate Completed(w0: World, v0: Vars, s: Session, more: seq<byte>, w1: World, v1: Vars, buf1: seq<byte>) {
    && v0.sectorsWritten >= 1
    && (v0.sectorsWritten - 1) * SECTOR_SIZE <= |s.stream + more|
    && w1 == w0.(flash := Write(w0.flash, v0.base + v0.sectorsWritten, SectorOf(s.stream + more, v0.sectorsWritten - 1)))
    && v1 == v0.(sectorsWritten := v0.sectorsWritten + 1, unwritten := v1.counter != 0, counter := v1.counter)
    && Buffered(buf1, v1.counter, s.stream + more, v0.sectorsWritten)
  }

  /** The payload `more` fitted into the buffer. */
  ghost predicate Appended(v0: Vars, s: Session, more: seq<byte>, v1: Vars, buf1: seq<byte>) {
    && v0.sectorsWritten >= 1
    && v1 == v0.(unwritten := true, counter := v0.counter + |more|)
    && Buffered(buf1, v1.counter, s.stream + more, v0.sectorsWritten - 1)
  }

  /** Either way the variables stand for the session with the payload appended. */
  lemma DataMatches(w0: World, v0: Vars, buf0: seq<byte>, reg0: Register, s: Session, p: Packet,
                    w1: World, v1: Vars, buf1: seq<byte>, reg1: Register)
    requires Matches(v0, buf0, reg0, s) && WellFormed(p) && p.len % 4 == 0 && v0.phase == Receiving
    requires if v0.counter + p.len >= SECTOR_SIZE then Completed(w0, v0, s, p.data[..p.len], w1, v1, buf1)
             else w1 == w0 && Appended(v0, s, p.data[..p.len], v1, buf1)
    requires reg1 == Absorb(reg0, p.data[..ToHash(v0, p.len)])
    ensures var r := OnData(w0, s, p);
      && r.0 == Reply(w1, ACK)
      && Matches(v1.(bytesHashed := v1.bytesHashed + ToHash(v0, p.len)), buf1, reg1, r.1)
  {
    hide Absorb, SectorOf, Write, FullSectors, Tail;
    var r := OnData(w0, s, p);
    PositionOf(s, v0.sectorsWritten - 1, v0.counter);
    PositionOf(s.(stream := s.stream + p.data[..p.len]), v1.sectorsWritten - 1, v1.counter);
    HashMore(s.hash, s.stream, p.data[..p.len], v0.bytesHashed, ToHash(v0, p.len));
    assert p.data[..p.len][..ToHash(v0, p.len)] == p.data[..ToHash(v0, p.len)];
    assert v0.bytesHashed + ToHash(v0, p.len) == Hashed(r.1);
    assert r.1.stream[..Hashed(r.1)] == (s.stream + p.data[..p.len])[..v0.bytesHashed + ToHash(v0, p.len)];
  }

  /** The payload goes into the buffer, and a full buffer into flash. */
  method Buffer(w: World, v: Vars, buf: array<byte>, p: Packet, ghost reg: Register, ghost s: Session) returns (w1: World, v1: Vars)
    requires buf.Length == SECTOR_SIZE && Matches(v, buf[..], reg, s) && WellFormed(p) && v.phase == Receiving
    modifies buf
    ensures if v.counter + p.len >= SECTOR_SIZE then Completed(w, v, s, p.data[..p.len], w1, v1, buf[..])
            else w1 == w && Appended(v, s, p.data[..p.len], v1, buf[..])
  {
    hide Absorb, Write, SectorOf, Hashed;
    w1, v1 := w, v;
    if v.counter + p.len >= SECTOR_SIZE {
      var full := Complete(buf, v.counter, p.data, p.len, s.stream, v.sectorsWritten - 1);
      var diff := v.counter + p.len - SECTOR_SIZE;
      w1 := w.(flash := Write(w.flash, v.base + v.sectorsWritten, full));
      v1 := v.(sectorsWritten := v.sectorsWritten + 1, unwritten := diff != 0, counter := diff);
    } else {
      Append(buf, v.counter, p.data, p.len, s.stream, v.sectorsWritten - 1);
      v1 := v.(unwritten := true, counter := v.counter + p.len);
    }
  }

  /** An accepted CMD_DATA payload: into the buffer, and into the CRC as far as the image goes. */
  method Store(w: World, v: Vars, buf: array<byte>, ctx: CRC32, p: Packet, ghost s: Session) returns (w1: World, v1: Vars)
    requires buf.Length == SECTOR_SIZE && Matches(v, buf[..], ctx.reg, s)
    requires WellFormed(p) && p.len % 4 == 0 && v.phase == Receiving
    modifies buf, ctx
    ensures var r := OnData(w, s, p); w1 == r.0 && Matches(v1, buf[..], ctx.reg, r.1)
  {
    hide OnData, Absorb, Write, SectorOf, Hashed, Matches, Completed, Appended;
    ghost var buf0, reg0 := buf[..], ctx.reg;
    w1, v1 := Buffer(w, v, buf, p, ctx.reg, s);
    var toHash := ToHash(v, p.len);
    ctx.Update(p.data[..toHash]);
    DataMatches(w, v, buf0, reg0, s, p, w1, v1, buf[..], ctx.reg);
    v1 := v1.(bytesHashed := v1.bytesHashed + toHash);
    w1 := Reply(w1, ACK);
  }

  class Receiver {
    var world: World             // flash, metadata, CRC verdict and the replies sent so far
    var v: Vars
    const sector: array<byte>    // current_sector
    const ctx: CRC32
    ghost var s: Session

    ghost predicate Valid()
      reads this, sector, ctx
    {
      sector.Length == SECTOR_SIZE && Matches(v, sector[..], ctx.reg, s)
    }

    /** A board about to receive; the sector buffer holds whatever it held before. */
    constructor (w: World, buffer: Sector, anyCrc: Register, anyExpected: u32)
      ensures Valid() && fresh(sector) && fresh(ctx) && world == w
      ensures s == Unstarted(anyCrc, anyExpected, buffer)
    {
      world := w;
      sector := new byte[SECTOR_SIZE](i requires 0 <= i < SECTOR_SIZE => buffer[i]);
      v := Vars(AwaitStart, false, false, 0, anyExpected, 0, 0, 0, false, 0);
      s := Unstarted(anyCrc, anyExpected, buffer);
      ctx := new CRC32();
      new;
      ctx.reg := anyCrc;
      assert sector[..] == buffer;
      AbsorbNothing(anyCrc);
    }

    /** dfu_init and the locals of a new dfu_receive. */
    method BeginSession(anyCrc: Register, anyExpected: u32)
      requires sector.Length == SECTOR_SIZE
      modifies this, ctx
      ensures Valid() && world == old(world)
      ensures s == Unstarted(anyCrc, anyExpected, old(sector[..]))
    {
      v := Vars(AwaitStart, false, false, 0, anyExpected, 0, 0, 0, false, 0);
      s := Unstarted(anyCrc, anyExpected, sector[..]);
      ctx.reg := anyCrc;
      AbsorbNothing(anyCrc);
    }

    method End(w: World, b: byte, phase: Phase)
      requires Valid() && !Live(s.(phase := phase))
      modifies this
      ensures Valid() && world == Reply(w, b) && s == old(s).(phase := phase)
    {
      world := Reply(w, b);
      v := v.(phase := phase);
      s := s.(phase := phase);
    }

    method Refuse()
      requires Valid()
      modifies this
      ensures Valid()
      ensures (world, s) == old(Abort(world, s))
    {
      End(world, NACK, Aborted);
    }

    /** CMD_START and CMD_START_SELF_UPDATE. */
    method HandleStart(p: Packet, base: nat, self: bool)
      requires Valid() && WellFormed(p)
      modifies this, sector, ctx
      ensures Valid()
      ensures (world, s) == old(OnStart(world, s, p, base, self))
    {
      hide WordAt, Write, Absorb;
      if v.started || p.len != 12 {
        Refuse();
        return;
      }
      ghost var goal := OnStart(world, s, p, base, self);
      Copy(sector, 0, p.data, 0, 12);
      assert sector[..] == HeaderSector(p.data, s.stale);
      ctx.Start();
      AbsorbNothing(CRC_INIT);
      v := v.(phase := Receiving, started := true, selfUpdate := self, base := base,
              expectedCrc := WordAt(p.data, 8), length := WordAt(p.data, 4), sectorsWritten := 1);
      world := Reply(world.(flash := Write(world.flash, base, sector[..])), ACK);
      s := goal.1;
    }

    method HandleData(p: Packet)
      requires Valid() && WellFormed(p)
      modifies this, sector, ctx
      ensures Valid()
      ensures (world, s) == old(OnData(world, s, p))
    {
      if p.len % 4 != 0 {
        Refuse();
        return;
      }
      if v.phase != Receiving { return; }
      AcceptData(p);
    }

    method AcceptData(p: Packet)
      requires Valid() && WellFormed(p) && p.len % 4 == 0 && v.phase == Receiving
      modifies this, sector, ctx
      ensures Valid()
      ensures (world, s) == old(OnData(world, s, p))
    {
      ghost var goal := OnData(world, s, p);
      world, v := Store(world, v, sector, ctx, p, s);
      s := goal.1;
    }

    /** The last, partly filled sector is padded with zeros and written. */
    method Flush()
      requires Valid() && v.unwritten
      modifies this`world, sector
      ensures Valid() && world == old(world).(flash := old(Flushed(world, s)))
    {
      PositionOf(s, v.sectorsWritten - 1, v.counter);
      Pad(sector, v.counter, s.stream, v.sectorsWritten - 1);
      world := world.(flash := Write(world.flash, v.base + v.sectorsWritten, sector[..]));
    }

    method HandleFinish()
      requires Valid()
      modifies this, sector, ctx
      ensures Valid()
      ensures (world, s) == old(OnFinish(world, s))
    {
      var actual := ctx.Finish();
      if actual != v.expectedCrc {
        Refuse();
        return;
      }
      if v.unwritten {
        Flush();
      }
      assert world == old(world).(flash := old(Flushed(world, s)));
      ConcludeSession();
    }

    method ConcludeSession()
      requires Valid()
      modifies this
      ensures Valid()
      ensures (world, s) == old(Conclude(world, s))
    {
      var w, b, phase := Judge(world, v.selfUpdate, s);
      End(w, b, phase);
    }

    /** One packet: the handlers together do what the abstract session does. */
    method Handle(p: Packet)
      requires Valid() && WellFormed(p)
      modifies this, sector, ctx
      ensures Valid()
      ensures (world, s) == old(OnPacket(world, s, p))
    {
      if p.cmd == CMD_START {
        HandleStart(p, SlotToSector(SlotOther(world.meta.activeSlot)), false);
      } else if p.cmd == CMD_START_SELF_UPDATE {
        HandleStart(p, SECTOR_BOOTLOADER, true);
      } else if p.cmd == CMD_DATA {
        HandleData(p);
      } else if p.cmd == CMD_FINISH {
        HandleFinish();
      } else if p.cmd == CMD_ABORT {
        Refuse();
      }
    }
  }

  lemma PositionOf(s: Session, n: nat, tail: nat)
    requires |s.stream| == SECTOR_SIZE * n + tail && tail < SECTOR_SIZE
    ensures FullSectors(s) == n && Tail(s) == tail
  {
  }

  /** A buffer that has just filled up is the next sector of the stream. */
  lemma FullBuffer(stream: seq<byte>, more: seq<byte>, n: nat, counter: nat, before: seq<byte>)
    requires |stream| == SECTOR_SIZE * n + counter && before == stream[|stream| - counter..]
    requires counter + |more| >= SECTOR_SIZE && counter < SECTOR_SIZE && |more| <= SECTOR_SIZE
    ensures before + more[..SECTOR_SIZE - counter] == SectorOf(stream + more, n)
  {
    assert (stream + more)[n * SECTOR_SIZE..] == before + more;
  }

  /** A part-filled buffer padded with zeros is the last sector of the stream. */
  lemma PaddedBuffer(stream: seq<byte>, n: nat, counter: nat, before: seq<byte>)
    requires |stream| == SECTOR_SIZE * n + counter && before == stream[|stream| - counter..]
    requires counter < SECTOR_SIZE
    ensures before + Zeros(SECTOR_SIZE - counter) == SectorOf(stream, n)
  {
    assert stream[n * SECTOR_SIZE..] == before;
  }

  /** The running CRC covers exactly the first min(total, length) bytes of the stream. */
  lemma HashMore(hash: Register, stream: seq<byte>, more: seq<byte>, hashed: nat, toHash: nat)
    requires hashed <= |stream| && toHash <= |more| && (toHash > 0 ==> hashed == |stream|)
    ensures Absorb(hash, (stream + more)[..hashed + toHash]) == Absorb(Absorb(hash, stream[..hashed]), more[..toHash])
  {
    hide Absorb;
    AbsorbConcat(hash, stream[..hashed], more[..toHash]);
    assert (stream + more)[..hashed + toHash] == stream[..hashed] + more[..toHash];
  }

  // ---------------------------------------------------------------- the session loop

  /** Waits for the trigger key with the same shift register as the running application. */
  method WaitForTrigger(line: Line) returns (ok: bool)
    modifies line
    ensures ok <==> AwaitTrigger(0, old(line.input)).Some?
    ensures ok ==> AwaitTrigger(0, old(line.input)) == Some(line.input)
  {
    var reg: u32 := 0;
    while true
      invariant AwaitTrigger(reg, line.input) == AwaitTrigger(0, old(line.input))
      decreases |line.input|
    {
      ghost var before := line.input;
      TriggerReads(reg, before);
      var b := line.Rx();
      if b.None? { return false; }
      reg := Shift(reg, b.value);
      if reg == TRIGGER_KEY { return true; }
    }
  }

  lemma {:induction false} TriggerReads(reg: u32, input: seq<Rx>)
    ensures Blocking(input).None? ==> AwaitTrigger(reg, input).None?
    ensures Blocking(input).Some? ==>
      var next := Shift(reg, Blocking(input).value.0);
      AwaitTrigger(reg, input) ==
      if next == TRIGGER_KEY then Some(Blocking(input).value.1) else AwaitTrigger(next, Blocking(input).value.1)
  {
    if input != [] && input[0].Silence? { TriggerReads(reg, input[1..]); }
  }

  /** dfu_receive, from the trigger key to the end of the session. */
  method ReceiveSession(r: Receiver, line: Line, anyCrc: Register, anyExpected: u32) returns (ending: Ending)
    requires r.Valid()
    modifies r, r.sector, r.ctx, line
    ensures r.Valid()
    ensures (r.world, r.s, ending) ==
            Receive(old(r.world), Unstarted(anyCrc, anyExpected, old(r.sector[..])), old(line.input))
  {
    r.BeginSession(anyCrc, anyExpected);
    var ok := WaitForTrigger(line);
    if !ok { return Stuck; }
    r.world := Reply(r.world, ACK);
    ghost var goal := RunSession(r.world, r.s, line.input);
    while r.v.phase == AwaitStart || r.v.phase == Receiving
      invariant r.Valid() && RunSession(r.world, r.s, line.input) == goal
      decreases |line.input|
    {
      var got := PacketReceive(line);
      match got {
        case Starved => return Stuck;
        case Overrun => return BufferOverrun;
        case TimedOut(_) => return SessionTimedOut;
        case Received(p, rest) => r.Handle(p);
      }
    }
    return Ended;
  }
}
