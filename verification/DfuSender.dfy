/** The host's flash loop, and the end-to-end theorem: what it sends ends up in flash. */
module DfuSender {
  import opened Bytes
  import opened Sequences
  import opened Crc
  import opened Storage
  import opened Packet
  import opened Dfu
  import opened DfuSafety

  const MAX_IMAGE: nat := 0xFFFF

  /** The image padded to the multiple of 4 the receiver insists on. */
  function Pad4(img: seq<byte>): (s: seq<byte>)
    ensures |s| % 4 == 0 && |img| <= |s| < |img| + 4
  {
    if |img| % 4 == 0 then img else img + Zeros(4 - |img| % 4)
  }

  /** The packed StartPacket: version 1, length and CRC of the unpadded image. */
  function StartPayload(img: seq<byte>): (s: seq<byte>)
    requires |img| <= MAX_IMAGE
    ensures |s| == 12
  {
    Le32(1) + Le32(|img|) + Le32(Checksum(img))
  }

  function ChunkAt(data: seq<byte>, offset: nat): (c: seq<byte>)
    requires offset < |data|
    ensures 1 <= |c| <= MAX_DATA
  {
    if |data| - offset > MAX_DATA then data[offset..offset + MAX_DATA] else data[offset..]
  }

  /** The DATA packets for everything from `offset` on, as bytes on the wire. */
  function DataBytes(data: seq<byte>, offset: nat): seq<byte>
    requires offset <= |data|
    decreases |data| - offset
  {
    if offset == |data| then []
    else
      var c := ChunkAt(data, offset);
      BuildPacket(CMD_DATA, c) + DataBytes(data, offset + |c|)
  }

  /** Everything the host writes after the trigger handshake. */
  function Transmission(img: seq<byte>): seq<byte>
    requires |img| <= MAX_IMAGE
  {
    BuildPacket(CMD_START, StartPayload(img)) + DataBytes(Pad4(img), 0) + BuildPacket(CMD_FINISH, [0])
  }

  /** The DATA packets from `offset` on, one by one. */
  function DataFrames(data: seq<byte>, offset: nat): (fs: seq<Frame>)
    requires offset <= |data|
    ensures forall i | 0 <= i < |fs| :: Sendable(fs[i])
    decreases |data| - offset
  {
    if offset == |data| then []
    else
      var c := ChunkAt(data, offset);
      [Frame([], CMD_DATA, c)] + DataFrames(data, offset + |c|)
  }

  /** The packets of a whole transmission. */
  function Script(img: seq<byte>): (fs: seq<Frame>)
    requires |img| <= MAX_IMAGE
    ensures forall i | 0 <= i < |fs| :: Sendable(fs[i])
  {
    [Frame([], CMD_START, StartPayload(img))] + DataFrames(Pad4(img), 0) + [Frame([], CMD_FINISH, [0])]
  }

  /** What is on the line carries the packets `sent`, with any noise before each. */
  ghost predicate Carries(line: seq<Frame>, sent: seq<Frame>) {
    && |line| == |sent|
    && forall i | 0 <= i < |line| :: Sendable(line[i]) && line[i].cmd == sent[i].cmd && line[i].data == sent[i].data
  }

  /** flash(): refuses empty and oversized images, otherwise sends the packets in turn. */
  method FlashImage(image: seq<byte>) returns (ok: bool, sent: seq<byte>)
    ensures ok <==> 1 <= |image| <= MAX_IMAGE
    ensures ok ==> sent == Transmission(image)
    ensures !ok ==> sent == []
  {
    hide BuildPacket, Checksum, Le32;
    if |image| == 0 || |image| > 0xFFFF {
      return false, [];
    }
    var img := image;
    var appCrc := Checksum(img);
    if |img| % 4 != 0 {
      img := img + Zeros(4 - |img| % 4);
    }
    var start := BuildPacket(CMD_START, Le32(1) + Le32(|image|) + Le32(appCrc));
    var data := SendChunks(img);
    return true, start + data + BuildPacket(CMD_FINISH, [0]);
  }

  /** The chunk loop of flash(). */
  method SendChunks(img: seq<byte>) returns (sent: seq<byte>)
    requires |img| % 4 == 0
    ensures sent == DataBytes(img, 0)
  {
    hide BuildPacket, Pad4;
    var offset: nat := 0;
    sent := [];
    while offset < |img|
      invariant offset % 4 == 0
      invariant sent + DataBytes(img, if offset < |img| then offset else |img|) == DataBytes(img, 0)
    {
      var chunk := if offset + MAX_DATA <= |img| then img[offset..offset + MAX_DATA] else img[offset..];
      assert chunk == ChunkAt(img, offset);
      ChunkWhole(img, offset);
      chunk := Pad4(chunk);
      SendStep(sent, img, offset);
      hide DataBytes;
      sent := sent + BuildPacket(CMD_DATA, chunk);
      offset := offset + MAX_DATA;
    }
    assert sent + [] == sent;
  }

  /** Every chunk of a padded image is whole words already. */
  lemma ChunkWhole(img: seq<byte>, offset: nat)
    requires |img| % 4 == 0 && offset % 4 == 0 && offset < |img|
    ensures Pad4(ChunkAt(img, offset)) == ChunkAt(img, offset)
  {
  }

  lemma SendStep(sent: seq<byte>, img: seq<byte>, offset: nat)
    requires offset < |img|
    ensures var c := ChunkAt(img, offset);
      (sent + BuildPacket(CMD_DATA, c)) + DataBytes(img, offset + |c|) == sent + DataBytes(img, offset)
  {
    hide BuildPacket;
  }

  // ---------------------------------------------------------------- one packet at a time

  /** The session consumes one well-formed packet and goes on with the rest. */
  lemma {:induction false} RunPacket(w: World, s: Session, noise: seq<Rx>, cmd: byte, data: seq<byte>, rest: seq<Rx>)
    requires Live(s) && Noise(noise) && CMD_REQ <= cmd < NUM_CMDS && 1 <= |data| <= MAX_DATA
    ensures var next := OnPacket(w, s, Packet(cmd, |data|, data));
      RunSession(w, s, noise + OnLine(BuildPacket(cmd, data)) + rest) == RunSession(next.0, next.1, rest)
  {
    hide Parse, OnPacket, BuildPacket;
    FrameRoundTrip(noise, cmd, data, rest);
  }

  /** The state of a healthy transfer after `offset` bytes of `data`. */
  ghost predicate Transferring(w0: World, w: World, s: Session, data: seq<byte>, offset: nat) {
    && SessionInv(w0, w, s) && s.phase == Receiving && s.started && !s.selfUpdate
    && offset <= |data| && s.stream == data[..offset]
  }

  /** The packets after the first. */
  lemma CarriesRest(line: seq<Frame>, first: Frame, rest: seq<Frame>)
    requires Carries(line, [first] + rest)
    ensures line[0].cmd == first.cmd && line[0].data == first.data && Sendable(line[0]) && Carries(line[1..], rest)
  {
    assert ([first] + rest)[1..] == rest;
  }

  lemma {:induction false} TransmitStep(line: seq<Frame>, rest: seq<Rx>)
    requires line != [] && forall i | 0 <= i < |line| :: Sendable(line[i])
    ensures Sendable(line[0]) && forall i | 0 <= i < |line[1..]| :: Sendable(line[1..][i])
    ensures Transmit(line) + rest == line[0].noise + OnLine(BuildPacket(line[0].cmd, line[0].data)) + (Transmit(line[1..]) + rest)
  {
  }

  /** Every DATA packet of the image is accepted and acknowledged, whatever noise is between. */
  lemma {:induction false} SendData(w0: World, w: World, s: Session, data: seq<byte>, offset: nat, line: seq<Frame>, rest: seq<Rx>)
    returns (v: World, t: Session)
    requires Transferring(w0, w, s, data, offset) && |data| % 4 == 0 && offset % 4 == 0
    requires Carries(line, DataFrames(data, offset))
    ensures Transferring(w0, v, t, data, |data|)
    ensures t == s.(stream := t.stream, unwritten := t.unwritten)
    ensures Read(v.flash, s.base) == Read(w.flash, s.base)
    ensures exists n: nat :: v.replies == w.replies + Acks(n)
    ensures RunSession(w, s, Transmit(line) + rest) == RunSession(v, t, rest)
    decreases |data| - offset
  {
    hide SessionInv, OnPacket, BuildPacket, RunSession, Read, Transmit, Carries;
    if offset == |data| {
      v, t := w, s;
      assert w.replies + Acks(0) == w.replies;
      NothingSent(line, rest);
      assert v.replies == w.replies + Acks(0);
    } else {
      var c := ChunkAt(data, offset);
      var p := Packet(CMD_DATA, |c|, c);
      var next := OnPacket(w, s, p);
      CarriesRest(line, Frame([], CMD_DATA, c), DataFrames(data, offset + |c|));
      CarriesSendable(line, DataFrames(data, offset));
      TransmitStep(line, rest);
      RunPacket(w, s, line[0].noise, CMD_DATA, c, Transmit(line[1..]) + rest);
      PacketKeeps(w0, w, s, p);
      DataStep(w0, w, s, data, offset);
      v, t := SendData(w0, next.0, next.1, data, offset + |c|, line[1..], rest);
      var n: nat :| v.replies == next.0.replies + Acks(n);
      assert v.replies == w.replies + Acks(n + 1) by { assert [ACK] + Acks(n) == Acks(n + 1); }
    }
  }

  lemma {:induction false} NothingSent(line: seq<Frame>, rest: seq<Rx>)
    requires Carries(line, [])
    ensures line == [] && Transmit(line) + rest == rest
  {
  }

  lemma CarriesSendable(line: seq<Frame>, sent: seq<Frame>)
    requires Carries(line, sent)
    ensures |line| == |sent| && forall i | 0 <= i < |line| :: Sendable(line[i])
  {
  }

  /** A whole DATA packet in the middle of a transfer. */
  lemma {:induction false} DataTaken(w: World, s: Session, c: seq<byte>)
    requires s.phase == Receiving && s.started && 1 <= |c| <= MAX_DATA && |c| % 4 == 0
    ensures var next := OnPacket(w, s, Packet(CMD_DATA, |c|, c));
      && next.1 == s.(stream := s.stream + c, unwritten := next.1.unwritten)
      && Read(next.0.flash, s.base) == Read(w.flash, s.base)
      && next.0.replies == w.replies + [ACK]
  {
    hide SectorOf, OnStart, OnFinish;
    assert c[..|c|] == c;
  }

  lemma DataStep(w0: World, w: World, s: Session, data: seq<byte>, offset: nat)
    requires Transferring(w0, w, s, data, offset) && offset < |data| && |data| % 4 == 0 && offset % 4 == 0
    ensures var c := ChunkAt(data, offset);
      var next := OnPacket(w, s, Packet(CMD_DATA, |c|, c));
      && next.1 == s.(stream := data[..offset + |c|], unwritten := next.1.unwritten)
      && Read(next.0.flash, s.base) == Read(w.flash, s.base)
      && next.0.replies == w.replies + [ACK]
      && |c| % 4 == 0
  {
    hide SectorOf, SessionInv, OnPacket, Read;
    var c := ChunkAt(data, offset);
    DataTaken(w, s, c);
    assert s.stream + c == data[..offset + |c|];
  }

  // ---------------------------------------------------------------- trigger handshake

  const TRIGGER_BYTES: seq<byte> := [0xDF, 0x00, 0xDF, 0x00]

  /** The quotient and remainder are what they look like. */
  lemma LowBytes(q: nat, r: nat)
    ensures r < 256 ==> (q * 256 + r) % 256 == r
    ensures r < 65536 ==> (q * 65536 + r) % 65536 == r
    ensures r < 0x100_0000 ==> (q * 0x100_0000 + r) % 0x100_0000 == r
  {
  }

  /** The newest byte, the newest two and the newest three of the shift register. */
  lemma ShiftTail(reg: u32, b: byte)
    ensures Shift(reg, b) % 256 == b
    ensures Shift(reg, b) % 65536 == (reg % 256) * 256 + b
    ensures Shift(reg, b) % 0x100_0000 == (reg % 65536) * 256 + b
  {
    var p, q, r, top := reg % 256, reg / 256 % 256, reg / 256 / 256 % 256, reg / 256 / 256 / 256;
    LowBytes(top, (r * 256 + q) * 256 + p);
    LowBytes((top * 256) + r, q * 256 + p);
    assert reg == top * 0x100_0000 + ((r * 256 + q) * 256 + p);
    assert Shift(reg, b) == ((r * 256 + q) * 256 + p) * 256 + b;
    LowBytes((r * 256 + q) * 256 + p, b);
    LowBytes(r * 256 + q, p * 256 + b);
    LowBytes(r, (q * 256 + p) * 256 + b);
  }

  lemma KeyMatches(reg: u32)
    ensures Shift(Shift(Shift(Shift(reg, 0xDF), 0x00), 0xDF), 0x00) == TRIGGER_KEY
  {
    var r1 := Shift(reg, 0xDF);
    var r2 := Shift(r1, 0x00);
    var r3 := Shift(r2, 0xDF);
    ShiftTail(reg, 0xDF);
    ShiftTail(r1, 0x00);
    ShiftTail(r2, 0xDF);
    assert r3 % 0x100_0000 == ((0xDF * 256) * 256 + 0xDF);
  }

  lemma {:induction false} TriggerStep(reg: u32, b: byte, rest: seq<Rx>)
    ensures AwaitTrigger(reg, [Byte(b)] + rest) ==
            if Shift(reg, b) == TRIGGER_KEY then Some(rest) else AwaitTrigger(Shift(reg, b), rest)
  {
    assert ([Byte(b)] + rest)[1..] == rest;
  }

  /** The key at the head of the line is recognised at the latest when its last byte arrives. */
  lemma KeyAtHead(reg: u32, tail: seq<Rx>) returns (j: nat)
    ensures j <= 4
    ensures AwaitTrigger(reg, OnLine(TRIGGER_BYTES) + tail) == Some(OnLine(TRIGGER_BYTES)[j..] + tail)
  {
    KeyMatches(reg);
    hide Shift, AwaitTrigger;
    var key := OnLine(TRIGGER_BYTES);
    var r1 := Shift(reg, 0xDF);
    var r2 := Shift(r1, 0x00);
    var r3 := Shift(r2, 0xDF);
    assert key + tail == [Byte(0xDF)] + (key[1..] + tail);
    assert key[1..] + tail == [Byte(0x00)] + (key[2..] + tail);
    assert key[2..] + tail == [Byte(0xDF)] + (key[3..] + tail);
    assert key[3..] + tail == [Byte(0x00)] + (key[4..] + tail);
    TriggerStep(reg, 0xDF, key[1..] + tail);
    TriggerStep(r1, 0x00, key[2..] + tail);
    TriggerStep(r2, 0xDF, key[3..] + tail);
    TriggerStep(r3, 0x00, key[4..] + tail);
    j := if r1 == TRIGGER_KEY then 1 else if r2 == TRIGGER_KEY then 2 else if r3 == TRIGGER_KEY then 3 else 4;
  }

  /** Whatever surrounds it, a trigger key on the line starts the session; what the receiver
      has not consumed by then is a suffix of the lead-in. */
  lemma {:induction false} TriggerFires(reg: u32, before: seq<Rx>, after: seq<Rx>, tail: seq<Rx>) returns (left: seq<Rx>)
    requires Noise(before) && Noise(after)
    ensures Noise(left)
    ensures AwaitTrigger(reg, before + OnLine(TRIGGER_BYTES) + after + tail) == Some(left + tail)
    decreases |before|
  {
    hide Shift;
    var s := before + OnLine(TRIGGER_BYTES) + after + tail;
    if before == [] {
      var j := KeyAtHead(reg, after + tail);
      left := OnLine(TRIGGER_BYTES)[j..] + after;
      assert s == OnLine(TRIGGER_BYTES) + (after + tail);
      assert left + tail == OnLine(TRIGGER_BYTES)[j..] + (after + tail);
      assert Noise(OnLine(TRIGGER_BYTES));
    } else {
      assert s[1..] == before[1..] + OnLine(TRIGGER_BYTES) + after + tail;
      if before[0].Silence? {
        left := TriggerFires(reg, before[1..], after, tail);
      } else if Shift(reg, before[0].b) == TRIGGER_KEY {
        left := before[1..] + OnLine(TRIGGER_BYTES) + after;
      } else {
        left := TriggerFires(Shift(reg, before[0].b), before[1..], after, tail);
      }
    }
  }

  // ---------------------------------------------------------------- end to end

  ghost predicate HeaderFor(header: Sector, img: seq<byte>) {
    && |img| <= MAX_IMAGE
    && WordAt(header, 0) == 1 && WordAt(header, 4) == |img| && WordAt(header, 8) == Checksum(img)
  }

  lemma HeaderWords(img: seq<byte>, stale: Sector)
    requires |img| <= MAX_IMAGE
    ensures HeaderFor(HeaderSector(StartPayload(img), stale), img)
    ensures WordAt(StartPayload(img), 4) == |img| && WordAt(StartPayload(img), 8) == Checksum(img)
  {
    hide Checksum, Le32, WordAt;
    var p := StartPayload(img);
    var h := HeaderSector(p, stale);
    assert p[0..4] == Le32(1) && p[4..8] == Le32(|img|) && p[8..12] == Le32(Checksum(img));
    assert h[0..4] == p[0..4] && h[4..8] == p[4..8] && h[8..12] == p[8..12];
    FieldAt(h, 0, 1);
    FieldAt(h, 4, |img|);
    FieldAt(h, 8, Checksum(img));
    FieldAt(p, 4, |img|);
    FieldAt(p, 8, Checksum(img));
  }

  /** CMD_START of a fresh session opens the transfer with the image's header in flash. */
  lemma StartStep(w0: World, w: World, s: Session, img: seq<byte>)
    requires Fresh(s) && SessionInv(w0, w, s) && |img| <= MAX_IMAGE
    ensures var next := OnPacket(w, s, Packet(CMD_START, 12, StartPayload(img)));
      && Transferring(w0, next.0, next.1, Pad4(img), 0)
      && next.1.base == Target(w0) && next.1.hash == CRC_INIT
      && next.1.length == |img| && next.1.expectedCrc == Checksum(img)
      && HeaderFor(Read(next.0.flash, Target(w0)), img)
      && next.0.replies == w.replies + [ACK]
  {
    var p := Packet(CMD_START, 12, StartPayload(img));
    HeaderWords(img, s.stale);
    assert w.meta == w0.meta;
    PacketKeeps(w0, w, s, p);
    hide SessionInv, WordAt, Checksum, HeaderSector, HeaderFor, StartPayload;
    assert Write(w.flash, Target(w0), HeaderSector(StartPayload(img), s.stale)) == OnPacket(w, s, p).0.flash;
  }

  /** Sectors that hold a stream read back as that stream. */
  lemma {:induction false} ReadBack(f: Flash, start: nat, stream: seq<byte>, k: nat, n: nat)
    requires k * SECTOR_SIZE + n <= |stream|
    requires forall i: nat | i * SECTOR_SIZE < |stream| :: Read(f, start + i) == SectorOf(stream, i)
    ensures ReadBytes(f, start + k, n) == stream[k * SECTOR_SIZE..k * SECTOR_SIZE + n]
    decreases n
  {
    if n > 0 {
      assert Read(f, start + k) == SectorOf(stream, k);
      if n >= SECTOR_SIZE {
        ReadBack(f, start, stream, k + 1, n - SECTOR_SIZE);
        assert stream[k * SECTOR_SIZE..k * SECTOR_SIZE + n]
            == stream[k * SECTOR_SIZE..(k + 1) * SECTOR_SIZE] + stream[(k + 1) * SECTOR_SIZE..k * SECTOR_SIZE + n];
      }
    }
  }

  /** Padding to a multiple of 4 never shows in the zero-padded sectors. */
  lemma PadInvisible(img: seq<byte>, k: nat)
    requires k * SECTOR_SIZE < |img|
    ensures SectorOf(Pad4(img), k) == SectorOf(img, k)
  {
    var a := img[k * SECTOR_SIZE..];
    var b := Pad4(img)[k * SECTOR_SIZE..];
    var pad := |Pad4(img)| - |img|;
    assert b == a + Zeros(pad);
    if |a| < SECTOR_SIZE {
      assert |a| + pad <= SECTOR_SIZE by { PadFits(|img|, k, pad); }
      assert a + Zeros(SECTOR_SIZE - |a|) == b + Zeros(SECTOR_SIZE - |b|);
    } else {
      assert b[..SECTOR_SIZE] == a[..SECTOR_SIZE];
    }
  }

  lemma PadFits(n: nat, k: nat, pad: nat)
    requires k * SECTOR_SIZE <= n < (k + 1) * SECTOR_SIZE && pad < 4 && (n + pad) % 4 == 0
    ensures n + pad <= (k + 1) * SECTOR_SIZE
  {
    var m := (n + pad) / 4;
    assert n + pad == 4 * m;
    assert m <= 128 * (k + 1);
  }

  lemma MarkerInFirstSector(img: seq<byte>)
    requires |img| >= MARKER_OFFSET + 4
    ensures WordAt(SectorOf(img, 0), MARKER_OFFSET) == WordAt(img, MARKER_OFFSET)
  {
    var sec := SectorOf(img, 0);
    assert img[0..] == img;
    assert sec[MARKER_OFFSET..MARKER_OFFSET + 4] == img[MARKER_OFFSET..MARKER_OFFSET + 4];
    SameWord(sec, img, MARKER_OFFSET);
  }

  lemma SameWord(a: seq<byte>, b: seq<byte>, p: nat)
    requires p + 4 <= |a| && p + 4 <= |b| && a[p..p + 4] == b[p..p + 4]
    ensures WordAt(a, p) == WordAt(b, p)
  {
    hide LeValue;
    var x, y := a[p..p + 4], b[p..p + 4];
    assert a[p] == x[0] && a[p + 1] == x[1] && a[p + 2] == x[2] && a[p + 3] == x[3];
    assert b[p] == y[0] && b[p + 1] == y[1] && b[p + 2] == y[2] && b[p + 3] == y[3];
  }

  /** The sectors of the slot at `base` hold the header of `img` and then `img`, zero-padded. */
  ghost predicate Holds(f: Flash, base: nat, img: seq<byte>) {
    && HeaderFor(Read(f, base), img)
    && (forall k: nat | k * SECTOR_SIZE < |img| :: Read(f, base + 1 + k) == SectorOf(img, k))
  }

  /** Such a slot validates, and it carries the marker exactly when the image does. */
  lemma HeldImageIsValid(f: Flash, base: nat, img: seq<byte>)
    requires Holds(f, base, img) && 1 <= |img|
    ensures ValidImage(f, base)
    ensures |img| >= MARKER_OFFSET + 4 ==> (HasMarker(f, base) <==> WordAt(img, MARKER_OFFSET) == APP_MAGIC)
  {
    hide Checksum, WordAt, SectorOf;
    ReadBack(f, base + 1, img, 0, |img|);
    assert img[0..|img|] == img;
    if |img| >= MARKER_OFFSET + 4 {
      assert Read(f, base + 1 + 0) == SectorOf(img, 0);
      MarkerInFirstSector(img);
    }
  }

  lemma TransferredCrc(s: Session, img: seq<byte>)
    requires s.stream == Pad4(img) && s.hash == CRC_INIT && s.length == |img|
    ensures ActualCrc(s) == Checksum(img)
  {
    hide Absorb, Sum;
    assert Pad4(img)[..|img|] == img;
  }

  /** A finished transfer whose target reads back valid and marked is committed. */
  lemma FinishJudged(w: World, s: Session, target: nat)
    requires ActualCrc(s) == s.expectedCrc && !s.selfUpdate && target == SlotToSector(SlotOther(w.meta.activeSlot))
    requires ValidImage(Flushed(w, s), target) && HasMarker(Flushed(w, s), target)
    ensures var r := OnFinish(w, s);
      && r.1 == s.(phase := Done)
      && r.0.flash == WriteMeta(Flushed(w, s), Committed(w.meta))
      && r.0.replies == w.replies + [ACK]
  {
    hide ActualCrc, ValidImage, HasMarker, Flushed, WriteMeta;
  }

  lemma WholeStream(w0: World, w: World, s: Session, img: seq<byte>)
    requires Transferring(w0, w, s, Pad4(img), |Pad4(img)|)
    ensures s.stream == Pad4(img) && w.meta == w0.meta
  {
  }

  lemma FinishCommits(w0: World, w: World, s: Session, img: seq<byte>)
    requires MARKER_OFFSET + 4 <= |img| <= MAX_IMAGE && WordAt(img, MARKER_OFFSET) == APP_MAGIC
    requires Transferring(w0, w, s, Pad4(img), |Pad4(img)|)
    requires s.base == Target(w0) && s.hash == CRC_INIT && s.length == |img| && s.expectedCrc == Checksum(img)
    requires HeaderFor(Read(w.flash, Target(w0)), img)
    ensures var r := OnFinish(w, s);
      r.1 == s.(phase := Done) && Holds(r.0.flash, Target(w0), img) && r.0.replies == w.replies + [ACK]
  {
    hide Pad4, SessionInv, ActualCrc, Flushed, ValidImage, HasMarker, WordAt, Checksum, WriteMeta, SectorOf, HeaderFor, OnFinish, Holds;
    WholeStream(w0, w, s, img);
    TransferredCrc(s, img);
    FlushedHolds(w0, w, s, img);
    HeldImageIsValid(Flushed(w, s), Target(w0), img);
    FinishJudged(w, s, Target(w0));
    CommitHolds(Flushed(w, s), Committed(w.meta), SlotOther(w0.meta.activeSlot), img);
  }

  lemma FlushedHolds(w0: World, w: World, s: Session, img: seq<byte>)
    requires 1 <= |img| <= MAX_IMAGE
    requires Transferring(w0, w, s, Pad4(img), |Pad4(img)|) && s.base == Target(w0)
    requires HeaderFor(Read(w.flash, Target(w0)), img)
    ensures Holds(Flushed(w, s), Target(w0), img)
  {
    assert s.stream == Pad4(img);
    FlushKeeps(w0, w, s);
    assert Read(Flushed(w, s), s.base) == Read(w.flash, s.base) by { FlushLeavesHeader(w, s); }
    hide SectorOf, HeaderFor, SessionInv, Flushed, Pad4;
    forall k: nat | k * SECTOR_SIZE < |img| ensures Read(Flushed(w, s), s.base + 1 + k) == SectorOf(img, k) {
      PadInvisible(img, k);
    }
  }

  lemma FlushLeavesHeader(w: World, s: Session)
    requires s.started
    ensures Read(Flushed(w, s), s.base) == Read(w.flash, s.base)
  {
    hide SectorOf;
  }

  lemma CommitHolds(f: Flash, m: Meta, slot: u32, img: seq<byte>)
    requires Holds(f, SlotToSector(slot), img)
    ensures Holds(WriteMeta(f, m), SlotToSector(slot), img)
  {
    hide WordAt, Checksum, SectorOf, EncodeMeta;
    SlotsAboveMetadata(slot);
  }

  lemma {:induction false} TransmitConcat(a: seq<Frame>, b: seq<Frame>)
    requires (forall i | 0 <= i < |a| :: Sendable(a[i])) && (forall i | 0 <= i < |b| :: Sendable(b[i]))
    ensures forall i | 0 <= i < |a + b| :: Sendable((a + b)[i])
    ensures Transmit(a + b) == Transmit(a) + Transmit(b)
    decreases |a|
  {
    hide BuildPacket, OnLine, Sendable;
    if a == [] {
      assert a + b == b;
    } else {
      assert (a + b)[1..] == a[1..] + b;
      TransmitConcat(a[1..], b);
    }
  }

  /** The three parts of what stands on the line: START, the DATA packets, FINISH. */
  lemma ScriptParts(img: seq<byte>, line: seq<Frame>)
    requires |img| <= MAX_IMAGE && Carries(line, Script(img))
    ensures |line| >= 2 && forall i | 0 <= i < |line| :: Sendable(line[i])
    ensures line[0].cmd == CMD_START && line[0].data == StartPayload(img)
    ensures Carries(line[1..|line| - 1], DataFrames(Pad4(img), 0))
    ensures line[|line| - 1].cmd == CMD_FINISH && line[|line| - 1].data == [0]
  {
    hide DataFrames, StartPayload, Pad4, Sendable;
    var script := Script(img);
    var data := DataFrames(Pad4(img), 0);
    assert script[1..|script| - 1] == data;
    assert script[|script| - 1] == Frame([], CMD_FINISH, [0]);
    assert forall i | 0 <= i < |data| :: data[i] == script[i + 1];
  }

  lemma LineParts(line: seq<Frame>)
    requires |line| >= 2 && forall i | 0 <= i < |line| :: Sendable(line[i])
    ensures var n := |line| - 1; var mid := line[1..n];
      && Sendable(line[0]) && Sendable(line[n]) && (forall i | 0 <= i < |mid| :: Sendable(mid[i]))
      && Transmit(line) == line[0].noise + OnLine(BuildPacket(line[0].cmd, line[0].data))
           + (Transmit(mid) + (line[n].noise + OnLine(BuildPacket(line[n].cmd, line[n].data)) + []))
  {
    hide BuildPacket, OnLine, Sendable;
    var n := |line| - 1;
    var mid, last := line[1..n], [line[n]];
    assert line[1..] == mid + last;
    TransmitConcat(mid, last);
    assert last[1..] == [];
  }

  /** Noise before and after the key, and in front of the first packet. */
  lemma {:induction false} LeadIn(before: seq<Rx>, after: seq<Rx>, left: seq<Rx>, noise: seq<Rx>, start: seq<Rx>, body: seq<Rx>)
    requires Noise(left) && Noise(noise)
    requires AwaitTrigger(0, before + OnLine(TRIGGER_BYTES) + after + (noise + start + body)) == Some(left + (noise + start + body))
    ensures Noise(left + noise)
    ensures AwaitTrigger(0, before + OnLine(TRIGGER_BYTES) + after + (noise + start + body)) == Some((left + noise) + start + body)
  {
    assert left + (noise + start + body) == (left + noise) + start + body;
  }

  /** From the trigger key through START. */
  lemma {:induction false} Opens(w0: World, s0: Session, before: seq<Rx>, after: seq<Rx>, noise: seq<Rx>, img: seq<byte>, body: seq<Rx>)
    requires |img| <= MAX_IMAGE && Fresh(s0) && Noise(before) && Noise(after) && Noise(noise)
    ensures var n := OnPacket(Reply(w0, ACK), s0, Packet(CMD_START, 12, StartPayload(img)));
      && Receive(w0, s0, before + OnLine(TRIGGER_BYTES) + after + (noise + OnLine(BuildPacket(CMD_START, StartPayload(img))) + body))
         == RunSession(n.0, n.1, body)
      && Transferring(w0, n.0, n.1, Pad4(img), 0)
      && n.1.base == Target(w0) && n.1.hash == CRC_INIT
      && n.1.length == |img| && n.1.expectedCrc == Checksum(img)
      && HeaderFor(Read(n.0.flash, Target(w0)), img)
      && n.0.replies == w0.replies + [ACK] + [ACK]
  {
    hide Parse, OnPacket, BuildPacket, SessionInv, Transferring, HeaderFor, WordAt, Checksum, AwaitTrigger, Fresh, Target,
         Noise, OnLine, StartPayload, RunSession;
    var start := OnLine(BuildPacket(CMD_START, StartPayload(img)));
    var left := TriggerFires(0, before, after, noise + start + body);
    LeadIn(before, after, left, noise, start, body);
    FreshIsSafe(w0, s0);
    RunPacket(Reply(w0, ACK), s0, left + noise, CMD_START, StartPayload(img), body);
    StartStep(w0, Reply(w0, ACK), s0, img);
  }

  /** FINISH, after all of the image. */
  lemma {:induction false} Finishes(w0: World, v: World, t: Session, noise: seq<Rx>, img: seq<byte>)
    requires MARKER_OFFSET + 4 <= |img| <= MAX_IMAGE && WordAt(img, MARKER_OFFSET) == APP_MAGIC && Noise(noise)
    requires Transferring(w0, v, t, Pad4(img), |Pad4(img)|)
    requires t.base == Target(w0) && t.hash == CRC_INIT && t.length == |img| && t.expectedCrc == Checksum(img)
    requires HeaderFor(Read(v.flash, Target(w0)), img)
    ensures var r := RunSession(v, t, noise + OnLine(BuildPacket(CMD_FINISH, [0])) + []);
      && r.2 == Ended && r.1 == t.(phase := Done) && t.stream == Pad4(img)
      && Holds(r.0.flash, Target(w0), img) && CommittedTo(w0, r.0, r.1) && r.0.replies == v.replies + [ACK]
  {
    hide Parse, OnPacket, BuildPacket, SessionInv, Holds, HeaderFor, WordAt, Checksum, Target, Noise, OnLine, CommittedTo;
    RunPacket(v, t, noise, CMD_FINISH, [0], []);
    FinishCommits(w0, v, t, img);
    FinishIsFinish(v, t);
    PacketKeeps(w0, v, t, Packet(CMD_FINISH, 1, [0]));
    DoneIsCommitted(w0, OnFinish(v, t).0, OnFinish(v, t).1);
  }

  /** End to end.  For every image of 36 to 65535 bytes that carries the marker, every slot
      state, and any noise without a start-of-frame byte around the trigger key and between the
      packets, the host's packets drive the receiver to Done: the other slot holds the header and
      the image zero-padded to whole sectors, and the metadata names that slot, on trial. */
  lemma {:induction false} EndToEnd(w0: World, s0: Session, before: seq<Rx>, after: seq<Rx>, line: seq<Frame>, img: seq<byte>)
    requires MARKER_OFFSET + 4 <= |img| <= MAX_IMAGE && WordAt(img, MARKER_OFFSET) == APP_MAGIC
    requires Fresh(s0) && Noise(before) && Noise(after) && Carries(line, Script(img))
    ensures var r := Receive(w0, s0, before + OnLine(TRIGGER_BYTES) + after + Transmit(line));
      && r.2 == Ended && r.1.phase == Done
      && r.1.stream == Pad4(img) && r.1.length == |img|
      && Holds(r.0.flash, Target(w0), img)
      && CommittedTo(w0, r.0, r.1)
      && exists n: nat :: r.0.replies == w0.replies + Acks(n)
  {
    hide OnPacket, BuildPacket, Transferring, Holds, HeaderFor, WordAt, Checksum, Fresh, Target, Receive, RunSession, Read,
         Script, Transmit, Sendable, Noise, OnLine, CommittedTo, Carries, StartPayload, Pad4;
    ScriptParts(img, line);
    LineParts(line);
    var n := |line| - 1;
    var mid, last := line[1..n], line[n];
    FrameNoise(line[0]);
    FrameNoise(last);
    var finish := last.noise + OnLine(BuildPacket(CMD_FINISH, [0])) + [];
    Opens(w0, s0, before, after, line[0].noise, img, Transmit(mid) + finish);
    var n2 := OnPacket(Reply(w0, ACK), s0, Packet(CMD_START, 12, StartPayload(img)));
    var v, t := SendData(w0, n2.0, n2.1, Pad4(img), 0, mid, finish);
    Finishes(w0, v, t, last.noise, img);
    var k: nat :| v.replies == n2.0.replies + Acks(k);
    CountAcks(w0.replies, k);
  }

  lemma FrameNoise(f: Frame)
    requires Sendable(f)
    ensures Noise(f.noise)
  {
  }

  /** Without noise, what is on the line is what the host wrote. */
  lemma TransmissionQuiet(img: seq<byte>)
    requires |img| <= MAX_IMAGE
    ensures Carries(Script(img), Script(img)) && OnLine(Transmission(img)) == Transmit(Script(img))
  {
    hide BuildPacket, OnLine, StartPayload, DataFrames, DataBytes, Sendable, Pad4;
    var head, data, tail := [Frame([], CMD_START, StartPayload(img))], DataFrames(Pad4(img), 0), [Frame([], CMD_FINISH, [0])];
    var a, b, c := BuildPacket(CMD_START, StartPayload(img)), DataBytes(Pad4(img), 0), BuildPacket(CMD_FINISH, [0]);
    DataQuiet(Pad4(img), 0);
    OnLineConcat(a + b, c);
    OnLineConcat(a, b);
    assert Script(img)[0] == head[0] && Script(img)[|Script(img)| - 1] == tail[0];
    assert forall i | 0 <= i < |data| :: data[i] == Script(img)[i + 1];
    TransmitConcat(head, data);
    TransmitConcat(head + data, tail);
    assert head[1..] == [] && tail[1..] == [];
    assert [] + OnLine(a) + [] == OnLine(a) && [] + OnLine(c) + [] == OnLine(c);
  }

  lemma {:induction false} DataQuiet(data: seq<byte>, offset: nat)
    requires offset <= |data|
    ensures OnLine(DataBytes(data, offset)) == Transmit(DataFrames(data, offset))
    decreases |data| - offset
  {
    hide BuildPacket, Sendable;
    if offset < |data| {
      var c := ChunkAt(data, offset);
      DataQuiet(data, offset + |c|);
      OnLineConcat(BuildPacket(CMD_DATA, c), DataBytes(data, offset + |c|));
      hide OnLine;
      assert DataFrames(data, offset)[1..] == DataFrames(data, offset + |c|);
      assert [] + OnLine(BuildPacket(CMD_DATA, c)) == OnLine(BuildPacket(CMD_DATA, c));
    }
  }

  lemma FreshIsSafe(w0: World, s0: Session)
    requires Fresh(s0)
    ensures SessionInv(w0, Reply(w0, ACK), s0) && Live(s0)
  {
  }

  lemma FinishIsFinish(w: World, s: Session)
    ensures OnPacket(w, s, Packet(CMD_FINISH, 1, [0])) == OnFinish(w, s)
  {
    hide OnFinish;
  }

  lemma DoneIsCommitted(w0: World, w: World, s: Session)
    requires SessionInv(w0, w, s) && s.phase == Done
    ensures CommittedTo(w0, w, s)
  {
    hide CommittedTo;
  }

  lemma CountAcks(replies: seq<byte>, n: nat)
    ensures replies + [ACK] + [ACK] + Acks(n) + [ACK] == replies + Acks(n + 3)
  {
  }
}
