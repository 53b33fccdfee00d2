/** The DFU wire format: the host's packet builder and the target's byte-driven parser. */
module Packet {
  import opened Bytes
  import opened Sequences

  /** What the receiver sees next on the line: a byte, or a silence long enough to time out. */
  datatype Rx = Byte(b: byte) | Silence

  /** A received packet.  `data` holds the bytes actually taken from the line, which is one
      byte even when the length field says 0. */
  datatype Packet = Packet(cmd: byte, len: nat, data: seq<byte>)

  predicate WellFormed(p: Packet) {
    CMD_REQ <= p.cmd < NUM_CMDS && p.len <= MAX_DATA && |p.data| == if p.len == 0 then 1 else p.len
  }

  datatype ParseResult =
    | Received(packet: Packet, rest: seq<Rx>)
    | TimedOut(rest: seq<Rx>)
    | Starved                       // blocked for ever on a byte that never comes
    | Overrun                       // the length field exceeds the 256-byte buffer

  const SOF: byte := 0xAA
  const EOF: byte := 0xBB
  const MAX_DATA: nat := 256

  const CMD_REQ: byte := 1
  const CMD_START: byte := 2
  const CMD_START_SELF_UPDATE: byte := 3
  const CMD_DATA: byte := 4
  const CMD_FINISH: byte := 5
  const CMD_ABORT: byte := 6
  const NUM_CMDS: byte := 9

  // ---------------------------------------------------------------- the line

  /** uart_rx: waits through silences for a byte. */
  function Blocking(s: seq<Rx>): (r: Option<(byte, seq<Rx>)>)
    ensures r.Some? ==> |r.value.1| < |s|
  {
    if s == [] then None
    else if s[0].Byte? then Some((s[0].b, s[1..]))
    else Blocking(s[1..])
  }

  /** uart_rx_timed, `n` times: None when the line falls silent first. */
  function Timed(s: seq<Rx>, n: nat): (r: Option<(seq<byte>, seq<Rx>)>)
    ensures r.Some? ==> |r.value.0| == n && |r.value.1| == |s| - n
    decreases n
  {
    if n == 0 then Some(([], s))
    else if s == [] || s[0].Silence? then None
    else match Timed(s[1..], n - 1)
         case None => None
         case Some((bs, rest)) => Some(([s[0].b] + bs, rest))
  }

  /** Blocking reads until the byte `mark` has been consumed. */
  function Await(s: seq<Rx>, mark: byte): (r: Option<seq<Rx>>)
    ensures r.Some? ==> |r.value| < |s|
  {
    if s == [] then None
    else if s[0] == Byte(mark) then Some(s[1..])
    else Await(s[1..], mark)
  }

  // ---------------------------------------------------------------- grammar

  /** The packet at the head of `s`, read as: SOF, command, length, payload, CRC, EOF. */
  function Parse(s: seq<Rx>): (r: ParseResult)
    ensures r.Received? ==> WellFormed(r.packet)
    ensures r.Received? || r.TimedOut? ==> |r.rest| < |s|
    decreases |s|
  {
    match Await(s, SOF)
    case None => Starved
    case Some(r0) =>
      match Blocking(r0)
      case None => Starved
      case Some((cmd, r1)) =>
        if CMD_REQ <= cmd < NUM_CMDS then Header(cmd, r1)
        else
          // a bad command also swallows the byte after it
          match Blocking(r1)
          case None => Starved
          case Some((_, r2)) => Parse(r2)
  }

  function Header(cmd: byte, s: seq<Rx>): (r: ParseResult)
    requires CMD_REQ <= cmd < NUM_CMDS
    ensures r.Received? ==> WellFormed(r.packet)
    ensures r.Received? || r.TimedOut? ==> |r.rest| < |s|
  {
    match Blocking(s)
    case None => Starved
    case Some((msb, r0)) =>
      match Timed(r0, 1)
      case None => TimedOut(Unread(r0, 1))
      case Some((lsb, r1)) => Payload(cmd, 256 * msb + lsb[0], r1)
  }

  function Payload(cmd: byte, len: nat, s: seq<Rx>): (r: ParseResult)
    requires CMD_REQ <= cmd < NUM_CMDS
    ensures r.Received? ==> WellFormed(r.packet)
    ensures r.Received? || r.TimedOut? ==> |r.rest| < |s|
  {
    match Blocking(s)
    case None => Starved
    case Some((first, r0)) =>
      match Timed(r0, Fits(len))
      case None => TimedOut(Unread(r0, Fits(len)))
      case Some((more, r1)) =>
        if len <= MAX_DATA then Trailer(Packet(cmd, len, [first] + more), r1)
        else if r1 != [] && r1[0].Byte? then Overrun
        else TimedOut(Unread(r1, 1))
  }

  function Trailer(p: Packet, s: seq<Rx>): (r: ParseResult)
    requires WellFormed(p)
    ensures r.Received? ==> WellFormed(r.packet)
    ensures r.Received? || r.TimedOut? ==> |r.rest| < |s|
  {
    match Blocking(s)
    case None => Starved
    case Some((_, r0)) =>
      match Timed(r0, 3)
      case None => TimedOut(Unread(r0, 3))
      case Some((_, r1)) =>
        match Await(r1, EOF)
        case None => Starved
        case Some(rest) => Received(p, rest)
  }

  /** What is left after up to `n` timed reads stopped at the silence that ended them. */
  function Unread(s: seq<Rx>, n: nat): (r: seq<Rx>)
    ensures |r| <= |s|
    decreases n
  {
    if n == 0 || s == [] then s
    else if s[0].Silence? then s[1..]
    else Unread(s[1..], n - 1)
  }

  // ---------------------------------------------------------------- the parser

  datatype PacketState = Start | Cmd | Length | PayloadState | Crc | End | Success | Error

  /** The receive side of the UART. */
  class Line {
    var input: seq<Rx>

    constructor (s: seq<Rx>)
      ensures input == s
    {
      input := s;
    }

    /** uart_rx; None stands for blocking for ever. */
    method Rx() returns (r: Option<byte>)
      modifies this
      ensures r.None? <==> Blocking(old(input)).None?
      ensures r.Some? ==> Blocking(old(input)) == Some((r.value, input))
    {
      while input != [] && input[0].Silence?
        invariant Blocking(input) == Blocking(old(input))
        decreases |input|
      {
        input := input[1..];
      }
      if input == [] { return None; }
      r := Some(input[0].b);
      input := input[1..];
    }

    /** uart_rx_timed; None stands for E_TIMED_OUT. */
    method RxTimed() returns (r: Option<byte>)
      modifies this
      ensures r.None? <==> Timed(old(input), 1).None?
      ensures r.None? ==> input == Unread(old(input), 1)
      ensures r.Some? ==> Timed(old(input), 1) == Some(([r.value], input))
      ensures r.Some? ==> old(input) == [Byte(r.value)] + input
    {
      if input == [] { return None; }
      if input[0].Silence? {
        input := input[1..];
        return None;
      }
      assert [input[0].b] + [] == [input[0].b];
      r := Some(input[0].b);
      input := input[1..];
    }
  }

  /** `taken` of the `n` timed bytes wanted from `s` have been read and `now` is left. */
  ghost predicate PartWay(s: seq<Rx>, n: nat, taken: seq<byte>, now: seq<Rx>) {
    && |taken| <= n
    && |now| <= |s|
    && Unread(s, n) == Unread(now, n - |taken|)
    && Timed(s, n) == Prefixed(taken, Timed(now, n - |taken|))
  }

  function Prefixed(taken: seq<byte>, r: Option<(seq<byte>, seq<Rx>)>): Option<(seq<byte>, seq<Rx>)> {
    match r
    case None => None
    case Some((more, rest)) => Some((taken + more, rest))
  }

  lemma PartWayStart(s: seq<Rx>, n: nat)
    ensures PartWay(s, n, [], s)
  {
    if Timed(s, n).Some? {
      assert [] + Timed(s, n).value.0 == Timed(s, n).value.0;
    }
  }

  lemma PartWayStep(s: seq<Rx>, n: nat, taken: seq<byte>, now: seq<Rx>)
    requires PartWay(s, n, taken, now) && |taken| < n && now != [] && now[0].Byte?
    ensures PartWay(s, n, taken + [now[0].b], now[1..])
  {
    var k := n - |taken|;
    if Timed(now, k).Some? {
      assert taken + Timed(now, k).value.0 == taken + [now[0].b] + Timed(now[1..], k - 1).value.0;
    }
  }

  predicate InProgress(state: PacketState, p: Packet) {
    && (state == Length || state == PayloadState ==> CMD_REQ <= p.cmd < NUM_CMDS)
    && (state == Crc || state == End || state == Success ==> WellFormed(p))
  }

  /** What one more state of the parser has to deliver: the result of the rest of the grammar. */
  ghost function Remaining(state: PacketState, p: Packet, s: seq<Rx>): ParseResult
    requires InProgress(state, p)
  {
    match state
    case Start => Parse(s)
    case Cmd =>
      (match Blocking(s)
       case None => Starved
       case Some((cmd, r1)) =>
         if CMD_REQ <= cmd < NUM_CMDS then Header(cmd, r1)
         else match Blocking(r1) case None => Starved case Some((_, r2)) => Parse(r2))
    case Length => Header(p.cmd, s)
    case PayloadState => Payload(p.cmd, p.len, s)
    case Crc => Trailer(p, s)
    case End => (match Await(s, EOF) case None => Starved case Some(rest) => Received(p, rest))
    case Success => Received(p, s)
    case Error => (match Blocking(s) case None => Starved case Some((_, r)) => Parse(r))
  }

  lemma {:induction false} AwaitBlocking(s: seq<Rx>, mark: byte)
    ensures Blocking(s).None? ==> Await(s, mark).None?
    ensures Blocking(s).Some? ==>
      Await(s, mark) ==
      if Blocking(s).value.0 == mark then Some(Blocking(s).value.1) else Await(Blocking(s).value.1, mark)
  {
    if s != [] && s[0].Silence? { AwaitBlocking(s[1..], mark); }
  }

  /** How many payload bytes after the first one fit the buffer. */
  function Fits(len: nat): nat {
    if len > MAX_DATA then MAX_DATA - 1 else if len == 0 then 0 else len - 1
  }

  /** The inner payload loop: DATA[0] is already there, the rest is read against the timeout. */
  method PayloadBytes(line: Line, len: nat, first: byte) returns (r: Option<seq<byte>>)
    modifies line
    ensures |line.input| <= |old(line.input)|
    ensures r.None? ==> Timed(old(line.input), Fits(len)).None? && line.input == Unread(old(line.input), Fits(len))
    ensures r.Some? ==> |r.value| == Fits(len) + 1 && r.value[0] == first
    ensures r.Some? ==> Timed(old(line.input), Fits(len)) == Some((r.value[1..], line.input))
  {
    var data := [first];
    var remaining := 1;
    ghost var r0 := line.input;
    PartWayStart(r0, Fits(len));
    while remaining < len && remaining < MAX_DATA
      invariant 1 <= remaining == |data| <= Fits(len) + 1
      invariant data[0] == first
      invariant PartWay(r0, Fits(len), data[1..], line.input)
    {
      ghost var was := line.input;
      var c := line.RxTimed();
      if c.None? { return None; }
      PartWayStep(r0, Fits(len), data[1..], was);
      assert (data + [c.value])[1..] == data[1..] + [c.value];
      data := data + [c.value];
      remaining := remaining + 1;
    }
    assert data[1..] + [] == data[1..];
    r := Some(data);
  }

  /** The three CRC bytes after the first; their value is not verified. */
  method TrailerBytes(line: Line) returns (ok: bool)
    modifies line
    ensures |line.input| <= |old(line.input)|
    ensures !ok ==> Timed(old(line.input), 3).None? && line.input == Unread(old(line.input), 3)
    ensures ok ==> Timed(old(line.input), 3).Some? && Timed(old(line.input), 3).value.1 == line.input
  {
    var b2 := line.RxTimed();
    if b2.None? { return false; }
    var b3 := line.RxTimed();
    if b3.None? { return false; }
    var b4 := line.RxTimed();
    return b4.Some?;
  }

  /** The states that read timed bytes: from the byte `b` just received, deliver the next
      state and packet, or give up. */
  method TimedState(line: Line, state: PacketState, p: Packet, b: byte, ghost before: seq<Rx>)
    returns (failed: Option<ParseResult>, state': PacketState, p': Packet)
    requires state == Length || state == PayloadState || state == Crc
    requires Blocking(before) == Some((b, line.input)) && InProgress(state, p)
    modifies line
    ensures |line.input| <= |old(line.input)|
    ensures failed.Some? ==> failed.value == Remaining(state, p, before)
    ensures failed.Some? && failed.value.TimedOut? ==> line.input == failed.value.rest
    ensures failed.Some? ==> !failed.value.Received?
    ensures failed.None? ==> InProgress(state', p') && Remaining(state', p', line.input) == Remaining(state, p, before)
  {
    hide Parse, Await;
    failed, state', p' := None, state, p;
    if state == Length {
      var lsb := line.RxTimed();
      if lsb.None? { failed := Some(TimedOut(line.input)); return; }
      p' := p.(len := 256 * b + lsb.value);
      state' := PayloadState;
    } else if state == PayloadState {
      var bytes := PayloadBytes(line, p.len, b);
      if bytes.None? { failed := Some(TimedOut(line.input)); return; }
      p' := p.(data := bytes.value);
      assert [b] + bytes.value[1..] == bytes.value;
      if p.len > MAX_DATA {
        var c := line.RxTimed();
        failed := Some(if c.None? then TimedOut(line.input) else Overrun);
        return;
      }
      state' := Crc;
    } else {
      var crc := TrailerBytes(line);
      if !crc { failed := Some(TimedOut(line.input)); return; }
      state' := End;
    }
  }

  /** dfu_packet_receive: the state machine delivers exactly what the grammar describes. */
  method PacketReceive(line: Line) returns (r: ParseResult)
    modifies line
    ensures r == Parse(old(line.input))
    ensures r.Received? || r.TimedOut? ==> line.input == r.rest
  {
    var state := Start;
    var packet := Packet(0, 0, []);
    ghost var all := Parse(line.input);
    while state != Success
      invariant InProgress(state, packet) && Remaining(state, packet, line.input) == all
      decreases |line.input|, if state == Success then 0 else 1
    {
      ghost var before := line.input;
      AwaitBlocking(before, SOF);
      AwaitBlocking(before, EOF);
      var next := line.Rx();
      if next.None? { return Starved; }
      var b := next.value;
      match state {
        case Start =>
          if b == SOF { state := Cmd; }
        case Cmd =>
          if CMD_REQ <= b < NUM_CMDS {
            packet := packet.(cmd := b);
            state := Length;
          } else {
            state := Error;
          }
        case End =>
          if b == EOF { state := Success; }
        case Error =>
          packet := Packet(0, 0, []);
          state := Start;
        case Success =>
        case Length | PayloadState | Crc =>
          var failed;
          failed, state, packet := TimedState(line, state, packet, b, before);
          if failed.Some? { return failed.value; }
      }
    }
    r := Received(packet, line.input);
  }

  // ---------------------------------------------------------------- the host's side

  function OnLine(bs: seq<byte>): (s: seq<Rx>)
    ensures |s| == |bs|
  {
    seq(|bs|, i requires 0 <= i < |bs| => Byte(bs[i]))
  }

  /** build_packet: the CRC field is always 0. */
  function BuildPacket(cmd: byte, data: seq<byte>): seq<byte>
    requires 1 <= |data| < 65536
  {
    [SOF, cmd, |data| / 256, |data| % 256] + data + [0, 0, 0, 0] + [EOF]
  }

  /** The frame byte by byte: start byte, command, length with the high byte first, payload, four
      CRC bytes of 0, end byte. */
  lemma {:induction false} FrameBytes(cmd: byte, data: seq<byte>)
    requires 1 <= |data| < 65536
    ensures var f := BuildPacket(cmd, data); var n := |data|;
      && |f| == n + 9 && f[0] == 0xAA && f[1] == cmd && n == 256 * (f[2] as nat) + (f[3] as nat) && f[4..4 + n] == data
      && f[n + 4] == f[n + 5] == f[n + 6] == f[n + 7] == 0 && f[n + 8] == 0xBB
  {
    assert 256 * (|data| / 256) + |data| % 256 == |data|;
  }

  /** Anything on the line that cannot start a packet: silences and bytes other than SOF. */
  predicate Noise(s: seq<Rx>) { Byte(SOF) !in s }

  lemma {:induction false} AwaitNoise(noise: seq<Rx>, rest: seq<Rx>)
    requires Noise(noise)
    ensures Await(noise + [Byte(SOF)] + rest, SOF) == Some(rest)
    decreases |noise|
  {
    var s := noise + [Byte(SOF)] + rest;
    if noise == [] {
      assert s[1..] == rest;
    } else {
      assert s[1..] == noise[1..] + [Byte(SOF)] + rest;
      AwaitNoise(noise[1..], rest);
    }
  }

  lemma {:induction false} TimedBytes(bs: seq<byte>, rest: seq<Rx>)
    ensures Timed(OnLine(bs) + rest, |bs|) == Some((bs, rest))
    decreases |bs|
  {
    var s := OnLine(bs) + rest;
    if bs == [] {
      assert s == rest;
    } else {
      assert s[1..] == OnLine(bs[1..]) + rest;
      TimedBytes(bs[1..], rest);
      assert [bs[0]] + bs[1..] == bs;
    }
  }

  lemma {:induction false} FirstByte(b: byte, rest: seq<Rx>)
    ensures Blocking([Byte(b)] + rest) == Some((b, rest))
  {
    assert ([Byte(b)] + rest)[1..] == rest;
  }

  lemma TrailerRoundTrip(p: Packet, rest: seq<Rx>)
    requires WellFormed(p)
    ensures Trailer(p, OnLine([0, 0, 0, 0, EOF]) + rest) == Received(p, rest)
  {
    var tail := [Byte(EOF)] + rest;
    assert OnLine([0, 0, 0, 0, EOF]) + rest == [Byte(0)] + (OnLine([0, 0, 0]) + tail);
    FirstByte(0, OnLine([0, 0, 0]) + tail);
    TimedBytes([0, 0, 0], tail);
    assert tail[1..] == rest;
  }

  lemma PayloadRoundTrip(cmd: byte, data: seq<byte>, rest: seq<Rx>)
    requires CMD_REQ <= cmd < NUM_CMDS && 1 <= |data| <= MAX_DATA
    ensures Payload(cmd, |data|, OnLine(data) + (OnLine([0, 0, 0, 0, EOF]) + rest))
            == Received(Packet(cmd, |data|, data), rest)
  {
    var tail := OnLine([0, 0, 0, 0, EOF]) + rest;
    assert OnLine(data) + tail == [Byte(data[0])] + (OnLine(data[1..]) + tail);
    FirstByte(data[0], OnLine(data[1..]) + tail);
    TimedBytes(data[1..], tail);
    assert [data[0]] + data[1..] == data;
    TrailerRoundTrip(Packet(cmd, |data|, data), rest);
  }

  lemma FrameLayout(cmd: byte, data: seq<byte>, rest: seq<Rx>)
    requires 1 <= |data| < 65536
    ensures OnLine(BuildPacket(cmd, data)) + rest
            == [Byte(SOF)] + ([Byte(cmd)] + ([Byte(|data| / 256)] + (OnLine([|data| % 256])
               + (OnLine(data) + (OnLine([0, 0, 0, 0, EOF]) + rest)))))
  {
    assert BuildPacket(cmd, data) == [SOF, cmd, |data| / 256, |data| % 256] + data + [0, 0, 0, 0, EOF];
  }

  lemma HeaderRoundTrip(cmd: byte, data: seq<byte>, rest: seq<Rx>)
    requires CMD_REQ <= cmd < NUM_CMDS && 1 <= |data| <= MAX_DATA
    ensures Header(cmd, [Byte(|data| / 256)] + (OnLine([|data| % 256])
                        + (OnLine(data) + (OnLine([0, 0, 0, 0, EOF]) + rest))))
            == Received(Packet(cmd, |data|, data), rest)
  {
    hide Payload, OnLine, Blocking, Timed;
    var n := |data|;
    var body := OnLine(data) + (OnLine([0, 0, 0, 0, EOF]) + rest);
    FirstByte(n / 256, OnLine([n % 256]) + body);
    TimedBytes([n % 256], body);
    assert 256 * (n / 256) + n % 256 == n;
    PayloadRoundTrip(cmd, data, rest);
  }

  /** One frame, whatever noise precedes it and whatever follows, is received as sent and
      consumed exactly. */
  lemma {:induction false} FrameRoundTrip(noise: seq<Rx>, cmd: byte, data: seq<byte>, rest: seq<Rx>)
    requires Noise(noise) && CMD_REQ <= cmd < NUM_CMDS && 1 <= |data| <= MAX_DATA
    ensures Parse(noise + OnLine(BuildPacket(cmd, data)) + rest) == Received(Packet(cmd, |data|, data), rest)
  {
    hide Header, OnLine, Blocking, Await, BuildPacket;
    FrameLayout(cmd, data, rest);
    var behind := (OnLine(BuildPacket(cmd, data)) + rest)[1..];
    assert noise + OnLine(BuildPacket(cmd, data)) + rest == noise + [Byte(SOF)] + behind;
    AwaitNoise(noise, behind);
    FirstByte(cmd, behind[1..]);
    HeaderRoundTrip(cmd, data, rest);
  }

  datatype Frame = Frame(noise: seq<Rx>, cmd: byte, data: seq<byte>)

  predicate Sendable(f: Frame) {
    Noise(f.noise) && CMD_REQ <= f.cmd < NUM_CMDS && 1 <= |f.data| <= MAX_DATA
  }

  function Transmit(frames: seq<Frame>): seq<Rx>
    requires forall i | 0 <= i < |frames| :: Sendable(frames[i])
  {
    if frames == [] then []
    else
      assert Sendable(frames[0]);
      frames[0].noise + OnLine(BuildPacket(frames[0].cmd, frames[0].data)) + Transmit(frames[1..])
  }

  /** The next `n` packets of the line and what is left after them, unless a receive fails. */
  function ReceiveMany(s: seq<Rx>, n: nat): Option<(seq<Packet>, seq<Rx>)>
    decreases n
  {
    if n == 0 then Some(([], s))
    else
      var r := Parse(s);
      if !r.Received? then None
      else match ReceiveMany(r.rest, n - 1)
           case None => None
           case Some((ps, rest)) => Some(([r.packet] + ps, rest))
  }

  function Contents(frames: seq<Frame>): (ps: seq<Packet>)
    ensures |ps| == |frames|
  {
    seq(|frames|, i requires 0 <= i < |frames| =>
      Packet(frames[i].cmd, |frames[i].data|, frames[i].data))
  }

  /** Every list of frames comes back as exactly that list, and nothing beyond it is touched. */
  lemma {:induction false} StreamRoundTrip(frames: seq<Frame>, tail: seq<Rx>)
    requires forall i | 0 <= i < |frames| :: Sendable(frames[i])
    ensures ReceiveMany(Transmit(frames) + tail, |frames|) == Some((Contents(frames), tail))
    decreases |frames|
  {
    hide Parse, OnLine, BuildPacket;
    if frames == [] {
      assert Transmit(frames) + tail == tail;
    } else {
      var f := frames[0];
      var later := Transmit(frames[1..]) + tail;
      assert Transmit(frames) + tail == f.noise + OnLine(BuildPacket(f.cmd, f.data)) + later;
      FrameRoundTrip(f.noise, f.cmd, f.data, later);
      StreamRoundTrip(frames[1..], tail);
      assert [Packet(f.cmd, |f.data|, f.data)] + Contents(frames[1..]) == Contents(frames);
    }
  }

  // ---------------------------------------------------------------- packets too long for the buffer

  function Quiet(n: nat): (s: seq<Rx>)
    ensures |s| == n
  {
    seq(n, _ => Silence)
  }

  /** What stands behind a command byte: two length bytes that name more than 256 bytes, and 257
      payload bytes.  Where the receiver blocks (before the first length byte and before the
      first payload byte) the line may be silent, elsewhere not. */
  ghost predicate Overlong(s: seq<Rx>, a: nat, msb: byte, lsb: byte, b: nat, payload: seq<byte>, rest: seq<Rx>) {
    && 256 * msb + lsb > MAX_DATA && |payload| == MAX_DATA + 1
    && s == Quiet(a) + ([Byte(msb)] + ([Byte(lsb)] + (Quiet(b) + (OnLine(payload) + rest))))
  }

  ghost predicate OverlongFrame(s: seq<Rx>) {
    exists a: nat, msb: byte, lsb: byte, b: nat, payload: seq<byte>, rest: seq<Rx> :: Overlong(s, a, msb, lsb, b, payload, rest)
  }

  lemma {:induction false} BlockingQuiet(n: nat, b: byte, rest: seq<Rx>)
    ensures Blocking(Quiet(n) + ([Byte(b)] + rest)) == Some((b, rest))
    decreases n
  {
    var s := Quiet(n) + ([Byte(b)] + rest);
    if n == 0 {
      assert s == [Byte(b)] + rest;
      FirstByte(b, rest);
    } else {
      assert s[1..] == Quiet(n - 1) + ([Byte(b)] + rest);
      BlockingQuiet(n - 1, b, rest);
    }
  }

  lemma {:induction false} BlockingSplit(s: seq<Rx>) returns (n: nat)
    requires Blocking(s).Some?
    ensures s == Quiet(n) + ([Byte(Blocking(s).value.0)] + Blocking(s).value.1)
    decreases |s|
  {
    if s[0].Byte? {
      n := 0;
    } else {
      n := BlockingSplit(s[1..]);
      n := n + 1;
    }
  }

  lemma {:induction false} TimedSplit(s: seq<Rx>, n: nat)
    requires Timed(s, n).Some?
    ensures s == OnLine(Timed(s, n).value.0) + Timed(s, n).value.1
    decreases n
  {
    if n > 0 {
      TimedSplit(s[1..], n - 1);
      var bs := Timed(s[1..], n - 1).value.0;
      assert OnLine([s[0].b] + bs) == [s[0]] + OnLine(bs);
    }
  }

  /** Behind a valid command the receiver stores past its buffer exactly when such a frame stands
      on the line. */
  lemma HeaderOverruns(cmd: byte, s: seq<Rx>)
    requires CMD_REQ <= cmd < NUM_CMDS
    ensures Header(cmd, s) == Overrun <==> OverlongFrame(s)
  {
    if Header(cmd, s) == Overrun { OverrunIsOverlong(cmd, s); }
    if OverlongFrame(s) {
      var a: nat, msb: byte, lsb: byte, b: nat, payload: seq<byte>, rest: seq<Rx> :|
        Overlong(s, a, msb, lsb, b, payload, rest);
      OverlongOverruns(cmd, s, a, msb, lsb, b, payload, rest);
    }
  }

  lemma OverlongOverruns(cmd: byte, s: seq<Rx>, a: nat, msb: byte, lsb: byte, b: nat, payload: seq<byte>, rest: seq<Rx>)
    requires CMD_REQ <= cmd < NUM_CMDS && Overlong(s, a, msb, lsb, b, payload, rest)
    ensures Header(cmd, s) == Overrun
  {
    hide Blocking, Timed, Quiet, OnLine;
    var tail := Quiet(b) + (OnLine(payload) + rest);
    BlockingQuiet(a, msb, [Byte(lsb)] + tail);
    assert [Byte(lsb)] + tail == OnLine([lsb]) + tail by { OneOnLine(lsb); }
    TimedBytes([lsb], tail);
    assert payload == [payload[0]] + (payload[1..MAX_DATA] + [payload[MAX_DATA]]);
    OnLineConcat([payload[0]], payload[1..MAX_DATA] + [payload[MAX_DATA]]);
    OnLineConcat(payload[1..MAX_DATA], [payload[MAX_DATA]]);
    OneOnLine(payload[0]);
    OneOnLine(payload[MAX_DATA]);
    var last := [Byte(payload[MAX_DATA])] + rest;
    var more := OnLine(payload[1..MAX_DATA]) + last;
    assert OnLine(payload) + rest == [Byte(payload[0])] + more;
    BlockingQuiet(b, payload[0], more);
    TimedBytes(payload[1..MAX_DATA], last);
  }

  lemma OneOnLine(b: byte)
    ensures OnLine([b]) == [Byte(b)]
  {
  }

  lemma OnLineConcat(a: seq<byte>, b: seq<byte>)
    ensures OnLine(a + b) == OnLine(a) + OnLine(b)
  {
  }

  lemma OverrunIsOverlong(cmd: byte, s: seq<Rx>)
    requires CMD_REQ <= cmd < NUM_CMDS && Header(cmd, s) == Overrun
    ensures OverlongFrame(s)
  {
    hide Blocking, Timed, Quiet, OnLine, Await;
    var a := BlockingSplit(s);
    var (msb, r0) := Blocking(s).value;
    TimedSplit(r0, 1);
    var (lsbs, r1) := Timed(r0, 1).value;
    assert lsbs == [lsbs[0]];
    OneOnLine(lsbs[0]);
    var b := BlockingSplit(r1);
    var (first, r2) := Blocking(r1).value;
    TimedSplit(r2, MAX_DATA - 1);
    var (more, r3) := Timed(r2, MAX_DATA - 1).value;
    var payload := [first] + (more + [r3[0].b]);
    OnLineConcat([first], more + [r3[0].b]);
    OnLineConcat(more, [r3[0].b]);
    OneOnLine(first);
    OneOnLine(r3[0].b);
    assert r3 == [r3[0]] + r3[1..];
    assert OnLine(payload) + r3[1..] == [Byte(first)] + r2;
    assert Overlong(s, a, msb, lsbs[0], b, payload, r3[1..]);
  }

  /** From a start byte and a valid command on: the store past the buffer happens exactly when
      the length bytes exceed 256 and 257 payload bytes arrive without a timeout. */
  lemma {:induction false} OverrunExactly(noise: seq<Rx>, cmd: byte, s: seq<Rx>)
    requires Noise(noise) && CMD_REQ <= cmd < NUM_CMDS
    ensures Parse(noise + [Byte(SOF)] + ([Byte(cmd)] + s)) == Overrun <==> OverlongFrame(s)
  {
    hide Blocking, Await, Header, OverlongFrame;
    AwaitNoise(noise, [Byte(cmd)] + s);
    FirstByte(cmd, s);
    HeaderOverruns(cmd, s);
  }

  /** The first valid command the receiver gets to, and what stands behind it. */
  function CommandAt(s: seq<Rx>): (r: Option<(byte, seq<Rx>)>)
    ensures r.Some? ==> CMD_REQ <= r.value.0 < NUM_CMDS && |r.value.1| < |s|
    decreases |s|
  {
    match Await(s, SOF)
    case None => None
    case Some(r0) =>
      match Blocking(r0)
      case None => None
      case Some((cmd, r1)) =>
        if CMD_REQ <= cmd < NUM_CMDS then Some((cmd, r1))
        else
          match Blocking(r1)
          case None => None
          case Some((_, r2)) => CommandAt(r2)
  }

  /** Any line at all: the same, counted from the first valid command. */
  lemma {:induction false} ParseOverruns(s: seq<Rx>)
    ensures Parse(s) == Overrun <==> CommandAt(s).Some? && OverlongFrame(CommandAt(s).value.1)
    decreases |s|
  {
    hide Header, OverlongFrame, Blocking, Await;
    if Await(s, SOF).Some? && Blocking(Await(s, SOF).value).Some? {
      var (cmd, r1) := Blocking(Await(s, SOF).value).value;
      if CMD_REQ <= cmd < NUM_CMDS {
        HeaderOverruns(cmd, r1);
      } else if Blocking(r1).Some? {
        ParseOverruns(Blocking(r1).value.1);
      }
    }
  }
}
