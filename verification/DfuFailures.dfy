/** Inputs on which the receiver does not keep what its documentation promises. */
module DfuFailures {
  import opened Bytes
  import opened Sequences
  import opened Crc
  import opened Storage
  import opened Packet
  import opened Dfu
  import opened DfuSafety
  import opened DfuBounds
  import opened DfuSender

  // ---------------------------------------------------------------- a packet of 257 bytes

  /** Trigger key, start byte, CMD_DATA, length 257, and that many bytes. */
  function LongPacket(data: seq<byte>): seq<Rx> {
    OnLine(TRIGGER_BYTES) + OnLine([SOF, CMD_DATA, 1, 1] + data)
  }

  lemma LongIsOverlong(data: seq<byte>)
    requires |data| == MAX_DATA + 1
    ensures OnLine([SOF, CMD_DATA, 1, 1] + data) == [Byte(SOF)] + ([Byte(CMD_DATA)] + OnLine([1, 1] + data))
    ensures OverlongFrame(OnLine([1, 1] + data))
  {
    var s := OnLine([1, 1] + data);
    assert s == Quiet(0) + ([Byte(1)] + ([Byte(1)] + (Quiet(0) + (OnLine(data) + []))));
    assert Overlong(s, 0, 1, 1, 0, data, []);
  }

  /** Whatever the board's state, these 265 bytes make the receiver store past its packet buffer. */
  lemma LongPacketOverruns(w: World, s0: Session, data: seq<byte>)
    requires Fresh(s0) && |data| == MAX_DATA + 1
    ensures |LongPacket(data)| == 265 && Receive(w, s0, LongPacket(data)).2 == BufferOverrun
  {
    hide Parse, AwaitTrigger, OverlongFrame, OnLine;
    var frame := OnLine([1, 1] + data);
    var tail := OnLine([SOF, CMD_DATA, 1, 1] + data);
    LongIsOverlong(data);
    var left := TriggerFires(0, [], [], tail);
    assert [] + OnLine(TRIGGER_BYTES) + [] + tail == LongPacket(data);
    assert left + tail == left + [Byte(SOF)] + ([Byte(CMD_DATA)] + frame);
    OverrunExactly(left, CMD_DATA, frame);
  }

  // ---------------------------------------------------------------- an image too long for slot A

  /** START for some small image, and then `data` in DATA packets, however long it is. */
  function Oversized(data: seq<byte>): seq<Rx> {
    OnLine(TRIGGER_BYTES) + (OnLine(BuildPacket(CMD_START, StartPayload([0]))) + Transmit(DataFrames(data, 0)))
  }

  /** With slot B active, any sector content can be put in place of its header: `x` behind enough
      data to fill slot A.  The session is still waiting for more. */
  lemma ActiveHeaderOverwritten(w0: World, s0: Session, x: Sector)
    requires Fresh(s0) && w0.meta.activeSlot == SLOT_B
    ensures var r := Receive(w0, s0, Oversized(Zeros(MAX_APP_BYTES) + x));
      r.0.meta == w0.meta && r.1.phase == Receiving && r.2 == Stuck && Read(r.0.flash, SECTOR_APP_B) == x
  {
    hide Receive, RunSession, OnPacket, BuildPacket, Transferring, HeaderFor, WordAt, Checksum, Fresh, OnLine, Transmit, StartPayload;
    var data := Zeros(MAX_APP_BYTES) + x;
    var start := OnLine(BuildPacket(CMD_START, StartPayload([0])));
    var body := Transmit(DataFrames(data, 0));
    Opens(w0, s0, [], [], [], [0], body);
    assert [] + OnLine(TRIGGER_BYTES) + [] + ([] + start + body) == Oversized(data);
    var n := OnPacket(Reply(w0, ACK), s0, Packet(CMD_START, 12, StartPayload([0])));
    OtherImage(w0, n.0, n.1, Pad4([0]), data);
    SelfCarried(DataFrames(data, 0));
    var v, t := SendData(w0, n.0, n.1, data, 0, DataFrames(data, 0), []);
    assert body + [] == body;
    LastSector(w0, v, t, x);
    NothingMore(v, t);
  }

  lemma OtherImage(w0: World, w: World, s: Session, a: seq<byte>, b: seq<byte>)
    requires Transferring(w0, w, s, a, 0)
    ensures Transferring(w0, w, s, b, 0)
  {
    hide SessionInv;
  }

  lemma SelfCarried(fs: seq<Frame>)
    requires forall i | 0 <= i < |fs| :: Sendable(fs[i])
    ensures Carries(fs, fs)
  {
  }

  lemma {:induction false} NothingMore(w: World, s: Session)
    requires Dfu.Live(s)
    ensures RunSession(w, s, []) == (w, s, Stuck)
  {
  }

  lemma LastSector(w0: World, w: World, s: Session, x: Sector)
    requires var data := Zeros(MAX_APP_BYTES) + x; Transferring(w0, w, s, data, |data|)
    requires w0.meta.activeSlot == SLOT_B && s.base == Target(w0)
    ensures w.meta == w0.meta && s.phase == Receiving && Read(w.flash, SECTOR_APP_B) == x
  {
    var data := Zeros(MAX_APP_BYTES) + x;
    assert s.stream == data;
    assert FullSectors(s) == SIZE_APP;
    assert Read(w.flash, s.base + 1 + (SIZE_APP - 1)) == SectorOf(s.stream, SIZE_APP - 1);
    assert data[MAX_APP_BYTES..] == x;
    assert SectorOf(data, SIZE_APP - 1) == x;
  }
}
