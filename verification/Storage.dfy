/** The eMMC as a reliable map from sector number to 512 bytes, the layout of the A/B slots,
    and the watchdog metadata record kept in one sector. */
module Storage {
  import opened Bytes
  import opened Crc

  type Sector = s: seq<byte> | |s| == SECTOR_SIZE witness Zeros(SECTOR_SIZE)

  /** Any finite device content; a sector outside the domain reads as zeros. */
  type Flash = map<nat, Sector>

  function Zeros(n: nat): (s: seq<byte>)
    ensures |s| == n
  {
    seq(n, _ => 0)
  }

  // ---------------------------------------------------------------- layout

  const FW_BASE: nat := 1064960
  const SECTOR_BOOTLOADER: nat := FW_BASE
  const SECTOR_METADATA: nat := FW_BASE + 1024
  const SECTOR_APP_A: nat := FW_BASE + 2048
  const SECTOR_APP_B: nat := FW_BASE + 18432
  const SIZE_BOOTLOADER: nat := 512
  const SIZE_APP: nat := 16384
  const FIRMWARE_FLOOR: nat := SECTOR_BOOTLOADER

  const SLOT_A: u32 := 0xAAAA_AAAA
  const SLOT_B: u32 := 0xBBBB_BBBB

  function SlotToSector(slot: u32): nat { if slot == SLOT_B then SECTOR_APP_B else SECTOR_APP_A }

  function SlotOther(slot: u32): u32 { if slot == SLOT_B then SLOT_A else SLOT_B }

  function Read(f: Flash, n: nat): Sector { if n in f then f[n] else Zeros(SECTOR_SIZE) }

  /** emmc_write_blocks for one sector: refuses everything below the firmware floor. */
  function Write(f: Flash, n: nat, data: Sector): (g: Flash)
    ensures forall k: nat :: k != n ==> Read(g, k) == Read(f, k)
    ensures n >= FIRMWARE_FLOOR ==> Read(g, n) == data
    ensures n < FIRMWARE_FLOOR ==> g == f
  {
    if n < FIRMWARE_FLOOR then f else f[n := data]
  }

  /** `g` differs from `f` only in sectors lo..hi-1. */
  ghost predicate SameOutside(f: Flash, g: Flash, lo: nat, hi: nat) {
    forall k: nat :: !(lo <= k < hi) ==> Read(g, k) == Read(f, k)
  }

  // ---------------------------------------------------------------- little-endian words

  function Le32(x: u32): (s: seq<byte>)
    ensures |s| == 4
  {
    [x % 256, (x / 256) % 256, (x / 65536) % 256, x / 16777216]
  }

  function LeValue(b0: byte, b1: byte, b2: byte, b3: byte): u32 {
    b0 + 256 * b1 + 65536 * b2 + 16777216 * b3
  }

  function WordAt(s: seq<byte>, p: nat): u32
    requires p + 4 <= |s|
  {
    LeValue(s[p], s[p + 1], s[p + 2], s[p + 3])
  }

  lemma Le32RoundTrip(x: u32)
    ensures WordAt(Le32(x), 0) == x
  {
    var a, b, c := x / 256, x / 65536, x / 16777216;
    assert b == a / 256 && c == b / 256;
  }

  // ---------------------------------------------------------------- image validation

  /** The first `n` bytes stored from sector `start` on. */
  function ReadBytes(f: Flash, start: nat, n: nat): (s: seq<byte>)
    ensures |s| == n
    decreases n
  {
    if n == 0 then []
    else if n < SECTOR_SIZE then Read(f, start)[..n]
    else Read(f, start) + ReadBytes(f, start + 1, n - SECTOR_SIZE)
  }

  /** A header of version 1 and non-zero length whose CRC matches the bytes that follow it. */
  predicate ValidImage(f: Flash, base: nat) {
    var header := Read(f, base);
    && WordAt(header, 0) == 1
    && WordAt(header, 4) != 0
    && Checksum(ReadBytes(f, base + 1, WordAt(header, 4))) == WordAt(header, 8)
  }

  const APP_MAGIC: u32 := 0x4446_5521
  const MARKER_OFFSET: nat := 0x20

  predicate HasMarker(f: Flash, base: nat) {
    WordAt(Read(f, base + 1), MARKER_OFFSET) == APP_MAGIC
  }

  lemma ChunkStep(c: Register, f: Flash, sector: nat, remaining: nat)
    requires remaining > 0
    ensures var chunk := if remaining < SECTOR_SIZE then remaining else SECTOR_SIZE;
      Absorb(Absorb(c, Read(f, sector)[..chunk]), ReadBytes(f, sector + 1, remaining - chunk))
      == Absorb(c, ReadBytes(f, sector, remaining))
  {
    hide Absorb;
    var chunk := if remaining < SECTOR_SIZE then remaining else SECTOR_SIZE;
    var buf := Read(f, sector);
    AbsorbConcat(c, buf[..chunk], ReadBytes(f, sector + 1, remaining - chunk));
    assert buf[..chunk] + ReadBytes(f, sector + 1, remaining - chunk) == ReadBytes(f, sector, remaining);
  }

  lemma {:induction false} NoBytes(c: Register, f: Flash, sector: nat)
    ensures Absorb(c, ReadBytes(f, sector, 0)) == c
  {
    hide Absorb;
    AbsorbNothing(c);
  }

  /** boot_validate_app: reads the image back sector by sector through the streaming CRC. */
  method ValidateApp(f: Flash, app: nat) returns (ok: bool)
    ensures ok <==> ValidImage(f, app)
  {
    hide LeValue, Absorb, Sum, ReadBytes;
    var header := Read(f, app);
    if WordAt(header, 0) != 1 || WordAt(header, 4) == 0 {
      return false;
    }
    var remaining: nat := WordAt(header, 4);
    var sector: nat := app + 1;
    var ctx := new CRC32();
    ghost var all := ReadBytes(f, app + 1, remaining);
    while remaining > 0
      invariant fresh(ctx)
      invariant Absorb(ctx.reg, ReadBytes(f, sector, remaining)) == Absorb(CRC_INIT, all)
    {
      var buf := Read(f, sector);
      var chunk := if remaining < SECTOR_SIZE then remaining else SECTOR_SIZE;
      ChunkStep(ctx.reg, f, sector, remaining);
      ctx.Update(buf[..chunk]);
      remaining := remaining - chunk;
      sector := sector + 1;
    }
    NoBytes(ctx.reg, f, sector);
    var actual := ctx.Finish();
    ok := actual == WordAt(header, 8);
  }

  /** Validation only looks at the header and the sectors the image occupies. */
  lemma {:induction false} ReadBytesFrame(f: Flash, g: Flash, start: nat, n: nat)
    requires forall k: nat :: start <= k && (k - start) * SECTOR_SIZE < n ==> Read(g, k) == Read(f, k)
    ensures ReadBytes(g, start, n) == ReadBytes(f, start, n)
    decreases n
  {
    if n > 0 {
      assert Read(g, start) == Read(f, start);
      if n >= SECTOR_SIZE {
        ReadBytesFrame(f, g, start + 1, n - SECTOR_SIZE);
      }
    }
  }

  // ---------------------------------------------------------------- metadata

  datatype Meta = Meta(
    resetCount: u32, tolerance: u32, policy: u32, reason: u32,
    activeSlot: u32, trial: u32, bootCount: u32)

  const META_MAGIC: u32 := 0xB007_DA7A
  const TOLERANCE_INFINITE: u32 := 0xFFFF_FFFF  // -1

  const DefaultMeta := Meta(0, TOLERANCE_INFINITE, 0, 0, SLOT_A, 0, 0)

  function MetaFields(m: Meta): (s: seq<byte>)
    ensures |s| == 32
  {
    Le32(META_MAGIC) + Le32(m.resetCount) + Le32(m.tolerance) + Le32(m.policy)
    + Le32(m.reason) + Le32(m.activeSlot) + Le32(m.trial) + Le32(m.bootCount)
  }

  function FillSector(fields: seq<byte>, crc: u32): (s: Sector)
    requires |fields| == 32
    ensures s[..32] == fields && s[32..36] == Le32(crc)
  {
    fields + Le32(crc) + Zeros(SECTOR_SIZE - 36)
  }

  /** wdt_meta_write: magic, fields and CRC, zero-filled to a sector. */
  function EncodeMeta(m: Meta): Sector {
    FillSector(MetaFields(m), Checksum(MetaFields(m)))
  }

  /** wdt_meta_read: defaults unless both the magic and the CRC hold. */
  function DecodeMeta(s: Sector): Meta {
    if WordAt(s, 0) != META_MAGIC || WordAt(s, 32) != Checksum(s[..32]) then DefaultMeta
    else Meta(WordAt(s, 4), WordAt(s, 8), WordAt(s, 12), WordAt(s, 16), WordAt(s, 20), WordAt(s, 24), WordAt(s, 28))
  }

  /** What was written is what is read back. */
  lemma MetaRoundTrip(m: Meta)
    ensures DecodeMeta(EncodeMeta(m)) == m
  {
    hide Checksum;
    var s := EncodeMeta(m);
    var c := Checksum(MetaFields(m));
    assert s[..32] == MetaFields(m);
    FieldAt(s, 0, META_MAGIC);
    FieldAt(s, 4, m.resetCount);
    FieldAt(s, 8, m.tolerance);
    FieldAt(s, 12, m.policy);
    FieldAt(s, 16, m.reason);
    FieldAt(s, 20, m.activeSlot);
    FieldAt(s, 24, m.trial);
    FieldAt(s, 28, m.bootCount);
    FieldAt(s, 32, c);
  }

  lemma FieldAt(s: seq<byte>, p: nat, x: u32)
    requires p + 4 <= |s| && s[p..p + 4] == Le32(x)
    ensures WordAt(s, p) == x
  {
    Le32RoundTrip(x);
    var t := s[p..p + 4];
    assert s[p] == t[0] && s[p + 1] == t[1] && s[p + 2] == t[2] && s[p + 3] == t[3];
  }

  /** The record as it lies in its sector: nine words, the magic first and the CRC of the other
      eight last, and zeros behind them. */
  lemma {:induction false} MetaLayout(m: Meta)
    ensures var s := EncodeMeta(m);
      && WordAt(s, 0) == META_MAGIC && WordAt(s, 4) == m.resetCount && WordAt(s, 8) == m.tolerance && WordAt(s, 12) == m.policy
      && WordAt(s, 16) == m.reason && WordAt(s, 20) == m.activeSlot && WordAt(s, 24) == m.trial && WordAt(s, 28) == m.bootCount
      && WordAt(s, 32) == Checksum(s[..32])
      && (forall i | 36 <= i < SECTOR_SIZE :: s[i] == 0)
  {
    hide Checksum, WordAt, LeValue, Le32;
    var s := EncodeMeta(m);
    var c := Checksum(MetaFields(m));
    assert s[..32] == MetaFields(m);
    FieldAt(s, 0, META_MAGIC);
    FieldAt(s, 4, m.resetCount);
    FieldAt(s, 8, m.tolerance);
    FieldAt(s, 12, m.policy);
    FieldAt(s, 16, m.reason);
    FieldAt(s, 20, m.activeSlot);
    FieldAt(s, 24, m.trial);
    FieldAt(s, 28, m.bootCount);
    FieldAt(s, 32, c);
  }

  lemma {:induction false} WordBytes(s: seq<byte>, p: nat)
    requires p + 4 <= |s|
    ensures Le32(WordAt(s, p)) == s[p..p + 4]
  {
    var x := WordAt(s, p);
    var a: nat, b: nat, c: nat, d: nat := s[p], s[p + 1], s[p + 2], s[p + 3];
    assert x / 256 == b + 256 * c + 65536 * d && x / 65536 == c + 256 * d && x / 16777216 == d;
  }

  /** Any sector with the magic and the right CRC is read for what it says, bit for bit; every other
      one, torn, blank or foreign, gives the defaults. */
  lemma {:induction false} MetaTrustedExactly(s: Sector)
    ensures if WordAt(s, 0) == META_MAGIC && WordAt(s, 32) == Checksum(s[..32])
            then EncodeMeta(DecodeMeta(s))[..36] == s[..36] else DecodeMeta(s) == DefaultMeta
  {
    hide Checksum, WordAt, LeValue, Le32;
    if WordAt(s, 0) == META_MAGIC && WordAt(s, 32) == Checksum(s[..32]) {
      WordBytes(s, 0);
      WordBytes(s, 4);
      WordBytes(s, 8);
      WordBytes(s, 12);
      WordBytes(s, 16);
      WordBytes(s, 20);
      WordBytes(s, 24);
      WordBytes(s, 28);
      WordBytes(s, 32);
      var t := MetaFields(DecodeMeta(s));
      assert s[..32] == s[0..4] + s[4..8] + s[8..12] + s[12..16] + s[16..20] + s[20..24] + s[24..28] + s[28..32];
      assert t == s[..32];
      var e := EncodeMeta(DecodeMeta(s));
      assert e[..36] == e[..32] + e[32..36];
      assert s[..36] == s[..32] + s[32..36];
    }
  }

  function MetaOf(f: Flash): Meta { DecodeMeta(Read(f, SECTOR_METADATA)) }

  function WriteMeta(f: Flash, m: Meta): Flash { Write(f, SECTOR_METADATA, EncodeMeta(m)) }

  /** Writing the metadata is read back as written and touches no other sector. */
  lemma WriteMetaReadsBack(f: Flash, m: Meta)
    ensures MetaOf(WriteMeta(f, m)) == m
    ensures SameOutside(f, WriteMeta(f, m), SECTOR_METADATA, SECTOR_METADATA + 1)
  {
    hide EncodeMeta, DecodeMeta;
    MetaRoundTrip(m);
  }
}
