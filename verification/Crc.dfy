module Bytes {
  type byte = x: int | 0 <= x < 256

  type u32 = x: int | 0 <= x < 0x1_0000_0000

  const SECTOR_SIZE: nat := 512
}

/** The CRC-32 driver: ARMv8 crc32w/crc32h/crc32b over 4-, 2- and 1-byte chunks, checked
    against the byte-serial definition in section 8 of RFC 1952. */
module Crc {
  import opened Bytes

  // Word operations, named so that proofs can treat them as symbols.
  function Xor(a: bv32, b: bv32): bv32 { a ^ b }
  function Up(v: bv32): bv32 { v << 8 }
  function Down(v: bv32): bv32 { v >> 8 }
  function Low(v: bv32): bv32 { v & 0xFF }
  function Word(b: byte): bv32 { (b as bv8) as bv32 }

  // ---------------------------------------------------------------- RFC 1952, section 8

  function Bit(c: bv32): bv32 {
    if c & 1 == 1 then 0xEDB8_8320 ^ (c >> 1) else c >> 1
  }

  function Bits(c: bv32, n: nat): bv32
    decreases n
  {
    if n == 0 then c else Bits(Bit(c), n - 1)
  }

  /** Entry `n` of the table of CRCs of all 8-bit messages. */
  function TableEntry(n: bv32): bv32 { Bits(n, 8) }

  function RfcByte(c: bv32, b: byte): bv32 {
    Xor(TableEntry(Low(Xor(c, Word(b)))), Down(c))
  }

  /** The running CRC after `data`, one byte at a time. */
  function Rfc(c: bv32, data: seq<byte>): bv32
    decreases |data|
  {
    if data == [] then c else Rfc(RfcByte(c, data[0]), data[1..])
  }

  // ---------------------------------------------------------------- checksums

  /** The running register of a CRC context. */
  datatype Register = Register(word: bv32)

  const CRC_INIT := Register(0xFFFF_FFFF)

  function Absorb(r: Register, data: seq<byte>): Register { Register(Rfc(r.word, data)) }

  /** crc32_finish. */
  function Sum(r: Register): u32 { (r.word ^ 0xFFFF_FFFF) as int }

  /** The checksum of a whole message. */
  function Checksum(data: seq<byte>): u32 { Sum(Absorb(CRC_INIT, data)) }

  // ---------------------------------------------------------------- the instructions

  /** crc32b, crc32h and crc32w divide the accumulator xor the operand by the polynomial. */
  function Crc32b(c: bv32, v: bv32): bv32 { Bits(Xor(c, v), 8) }
  function Crc32h(c: bv32, v: bv32): bv32 { Bits(Xor(c, v), 16) }
  function Crc32w(c: bv32, v: bv32): bv32 { Bits(Xor(c, v), 32) }

  /** The operands the driver assembles: little-endian, first byte lowest. */
  function Half(b0: byte, b1: byte): bv32 { Word(b0) | (Word(b1) << 8) }

  function Quad(b0: byte, b1: byte, b2: byte, b3: byte): bv32 {
    Word(b0) | (Word(b1) << 8) | (Word(b2) << 16) | (Word(b3) << 24)
  }

  // ---------------------------------------------------------------- linearity

  lemma XorShift(a: bv32, b: bv32)
    ensures (a ^ b) >> 1 == (a >> 1) ^ (b >> 1)
    ensures (a ^ b) & 1 == 1 <==> (a & 1 == 1) != (b & 1 == 1)
  {
  }

  lemma XorAlgebra(p: bv32, x: bv32, y: bv32)
    ensures p ^ (x ^ y) == (p ^ x) ^ y
    ensures p ^ (x ^ y) == x ^ (p ^ y)
    ensures x ^ y == (p ^ x) ^ (p ^ y)
  {
  }

  lemma BitLinear(a: bv32, b: bv32)
    ensures Bit(Xor(a, b)) == Xor(Bit(a), Bit(b))
  {
    XorShift(a, b);
    XorAlgebra(0xEDB8_8320, a >> 1, b >> 1);
  }

  lemma {:induction false} BitsLinear(a: bv32, b: bv32, n: nat)
    ensures Bits(Xor(a, b), n) == Xor(Bits(a, n), Bits(b, n))
    decreases n
  {
    hide Bit, Xor;
    if n > 0 {
      BitLinear(a, b);
      BitsLinear(Bit(a), Bit(b), n - 1);
    }
  }

  lemma {:induction false} BitsAdd(c: bv32, m: nat, n: nat)
    ensures Bits(c, m + n) == Bits(Bits(c, m), n)
    decreases m
  {
    hide Bit;
    if m > 0 {
      BitsAdd(Bit(c), m - 1, n);
    }
  }

  predicate LowClear(w: bv32, n: nat)
    decreases n
  {
    n == 0 || (w & 1 != 1 && LowClear(w >> 1, n - 1))
  }

  function Shr(w: bv32, n: nat): bv32
    decreases n
  {
    if n == 0 then w else Shr(w >> 1, n - 1)
  }

  /** A word whose low `n` bits are clear is only shifted by `n` steps. */
  lemma {:induction false} BitsShift(w: bv32, n: nat)
    requires LowClear(w, n)
    ensures Bits(w, n) == Shr(w, n)
    decreases n
  {
    if n > 0 {
      BitsShift(w >> 1, n - 1);
    }
  }

  lemma ShiftSteps(w: bv32)
    ensures (w >> 1) >> 1 == w >> 2 && (w >> 2) >> 1 == w >> 3 && (w >> 3) >> 1 == w >> 4
    ensures (w >> 4) >> 1 == w >> 5 && (w >> 5) >> 1 == w >> 6 && (w >> 6) >> 1 == w >> 7
    ensures (w >> 7) >> 1 == w >> 8
  {
  }

  lemma LowBits(v: bv32)
    ensures var w := v << 8;
      && w & 1 != 1 && (w >> 1) & 1 != 1 && (w >> 2) & 1 != 1 && (w >> 3) & 1 != 1
      && (w >> 4) & 1 != 1 && (w >> 5) & 1 != 1 && (w >> 6) & 1 != 1 && (w >> 7) & 1 != 1
  {
  }

  lemma UpIsClear(v: bv32)
    ensures LowClear(Up(v), 8)
    ensures Shr(Up(v), 8) == Down(Up(v))
  {
    LowBits(v);
    ShiftSteps(v << 8);
  }

  /** Eight steps undo a shift by one byte. */
  lemma BitsUp(v: bv32)
    ensures Bits(Up(v), 8) == Down(Up(v))
  {
    hide Bits, Up, Down;
    UpIsClear(v);
    BitsShift(Up(v), 8);
  }

  lemma SplitWord(c: bv32, w: bv32, rest: bv32)
    requires w <= 0xFF && rest <= 0x00FF_FFFF
    ensures c ^ (w | (rest << 8)) == ((c ^ w) & 0xFF) ^ (((c >> 8) ^ rest) << 8)
    ensures (((c >> 8) ^ rest) << 8) >> 8 == (c >> 8) ^ rest
  {
  }

  lemma SplitOperand(c: bv32, w: bv32, rest: bv32)
    requires w <= 0xFF && rest <= 0x00FF_FFFF
    ensures Xor(c, w | Up(rest)) == Xor(Low(Xor(c, w)), Up(Xor(Down(c), rest)))
  {
    SplitWord(c, w, rest);
  }

  lemma DownUp(c: bv32, rest: bv32)
    requires rest <= 0x00FF_FFFF
    ensures Down(Up(Xor(Down(c), rest))) == Xor(Down(c), rest)
  {
    SplitWord(c, 0, rest);
  }

  lemma WordIsOctet(b: byte)
    ensures Word(b) <= 0xFF
  {
  }

  lemma XorAssoc(p: bv32, x: bv32, y: bv32)
    ensures Xor(p, Xor(x, y)) == Xor(Xor(p, x), y)
  {
    XorAlgebra(p, x, y);
  }

  /** Consuming the low byte of an operand is one byte of the serial CRC; the rest moves down. */
  lemma LowByte(c: bv32, b: byte, rest: bv32, v: bv32)
    requires rest <= 0x00FF_FFFF && v == Word(b) | Up(rest)
    ensures Bits(Xor(c, v), 8) == Xor(RfcByte(c, b), rest)
  {
    hide Bits, Xor, Up, Down, Low, Word;
    WordIsOctet(b);
    SplitOperand(c, Word(b), rest);
    DownUp(c, rest);
    BitsLinear(Low(Xor(c, Word(b))), Up(Xor(Down(c), rest)), 8);
    BitsUp(Xor(Down(c), rest));
    XorAssoc(TableEntry(Low(Xor(c, Word(b)))), Down(c), rest);
  }

  lemma ByteOperand(c: bv32, b: byte)
    ensures Word(b) == Word(b) | Up(0)
    ensures Xor(c, 0) == c
  {
  }

  lemma HalfOperand(b0: byte, b1: byte)
    ensures Half(b0, b1) == Word(b0) | Up(Word(b1)) && Word(b1) <= 0x00FF_FFFF
  {
  }

  lemma QuadOperand(b0: byte, b1: byte, b2: byte, b3: byte)
    ensures var upper := Word(b1) | Up(Half(b2, b3));
      Quad(b0, b1, b2, b3) == Word(b0) | Up(upper) && upper <= 0x00FF_FFFF && Half(b2, b3) <= 0x00FF_FFFF
  {
  }

  lemma ByteInstruction(c: bv32, b: byte)
    ensures Crc32b(c, Word(b)) == RfcByte(c, b)
  {
    hide Bits, Xor, Up, Word, RfcByte;
    ByteOperand(RfcByte(c, b), b);
    LowByte(c, b, 0, Word(b));
  }

  lemma HalfInstruction(c: bv32, b0: byte, b1: byte)
    ensures Crc32h(c, Half(b0, b1)) == RfcByte(RfcByte(c, b0), b1)
  {
    hide Bits, Xor, Up, Word, RfcByte, Half;
    HalfOperand(b0, b1);
    LowByte(c, b0, Word(b1), Half(b0, b1));
    BitsAdd(Xor(c, Half(b0, b1)), 8, 8);
    ByteInstruction(RfcByte(c, b0), b1);
  }

  lemma QuadInstruction(c: bv32, b0: byte, b1: byte, b2: byte, b3: byte)
    ensures Crc32w(c, Quad(b0, b1, b2, b3)) ==
            RfcByte(RfcByte(RfcByte(RfcByte(c, b0), b1), b2), b3)
  {
    hide Bits, Xor, Up, Word, RfcByte, Half, Quad;
    QuadOperand(b0, b1, b2, b3);
    var upper := Word(b1) | Up(Half(b2, b3));
    var c1 := RfcByte(c, b0);
    LowByte(c, b0, upper, Quad(b0, b1, b2, b3));
    BitsAdd(Xor(c, Quad(b0, b1, b2, b3)), 8, 24);
    LowByte(c1, b1, Half(b2, b3), upper);
    BitsAdd(Xor(c1, upper), 8, 16);
    HalfInstruction(RfcByte(c1, b1), b2, b3);
  }

  lemma {:induction false} RfcConcat(c: bv32, a: seq<byte>, b: seq<byte>)
    ensures Rfc(c, a + b) == Rfc(Rfc(c, a), b)
    decreases |a|
  {
    hide RfcByte;
    if a == [] {
      assert a + b == b;
    } else {
      assert (a + b)[1..] == a[1..] + b;
      RfcConcat(RfcByte(c, a[0]), a[1..], b);
    }
  }

  /** Streaming over any split equals one pass. */
  lemma AbsorbConcat(r: Register, a: seq<byte>, b: seq<byte>)
    ensures Absorb(r, a + b) == Absorb(Absorb(r, a), b)
  {
    hide Rfc;
    RfcConcat(r.word, a, b);
  }

  lemma AbsorbNothing(r: Register)
    ensures Absorb(r, []) == r
  {
  }

  // ---------------------------------------------------------------- the driver

  class CRC32 {
    var reg: Register

    constructor ()
      ensures reg == CRC_INIT
    {
      reg := CRC_INIT;
    }

    /** crc32_start. */
    method Start()
      modifies this
      ensures reg == CRC_INIT
    {
      reg := CRC_INIT;
    }

    /** crc32_update: chunking never changes the result. */
    method Update(data: seq<byte>)
      modifies this
      ensures reg == Absorb(old(reg), data)
    {
      hide Rfc;
      var word := HwUpdate(reg.word, data);
      reg := Register(word);
    }

    /** crc32_finish. */
    method Finish() returns (r: u32)
      ensures r == Sum(reg)
    {
      r := Sum(reg);
    }
  }

  /** Word-, half- and byte-sized chunks agree with the byte-serial CRC for every length. */
  method HwUpdate(crc: bv32, data: seq<byte>) returns (r: bv32)
    ensures r == Rfc(crc, data)
  {
    hide RfcByte, Crc32w, Crc32h, Crc32b, Quad, Half, Word;
    r := crc;
    var p := 0;
    while |data| - p >= 4
      invariant 0 <= p <= |data|
      invariant Rfc(r, data[p..]) == Rfc(crc, data)
    {
      QuadInstruction(r, data[p], data[p + 1], data[p + 2], data[p + 3]);
      FourBytes(r, data, p);
      r := Crc32w(r, Quad(data[p], data[p + 1], data[p + 2], data[p + 3]));
      p := p + 4;
    }
    if |data| - p >= 2 {
      HalfInstruction(r, data[p], data[p + 1]);
      OneByte(r, data, p);
      OneByte(RfcByte(r, data[p]), data, p + 1);
      r := Crc32h(r, Half(data[p], data[p + 1]));
      p := p + 2;
    }
    if |data| - p >= 1 {
      ByteInstruction(r, data[p]);
      OneByte(r, data, p);
      r := Crc32b(r, Word(data[p]));
      p := p + 1;
    }
    assert data[p..] == [];
  }

  lemma {:induction false} OneByte(c: bv32, data: seq<byte>, p: nat)
    requires p < |data|
    ensures Rfc(c, data[p..]) == Rfc(RfcByte(c, data[p]), data[p + 1..])
  {
    hide RfcByte;
    assert data[p..][1..] == data[p + 1..];
  }

  lemma {:induction false} FourBytes(c: bv32, data: seq<byte>, p: nat)
    requires p + 4 <= |data|
    ensures Rfc(c, data[p..]) ==
            Rfc(RfcByte(RfcByte(RfcByte(RfcByte(c, data[p]), data[p + 1]), data[p + 2]), data[p + 3]), data[p + 4..])
  {
    hide RfcByte;
    var c1 := RfcByte(c, data[p]);
    var c2 := RfcByte(c1, data[p + 1]);
    OneByte(c, data, p);
    OneByte(c1, data, p + 1);
    OneByte(c2, data, p + 2);
    OneByte(RfcByte(c2, data[p + 2]), data, p + 3);
  }
}
