/** The A/B boot state machine: trial and tolerance resolution, launches, confirmations, resets
    and DFU sessions, over any run. */
module Boot {
  import opened Bytes
  import opened Crc
  import opened Storage
  import opened Packet
  import opened Dfu
  import opened DfuSafety
  import opened DfuReceiver

  const TRIAL_MAX: nat := 3                 // APP_SLOT_TRIAL_MAX_ATTEMPTS
  const POLICY_FORCE_UPDATE: u32 := 0
  const POLICY_ROLLBACK: u32 := 2
  const NUM_RETRIES: nat := 10

  datatype ResetReason = Cold | Watchdog | Software

  /** The boot flags in RAM, other than the CRC verdict; they survive a warm reset only. */
  datatype Flags = Flags(magic: bool, reason: ResetReason, dfuRequested: bool)

  /** A uint32 read as an int32. */
  function Signed(x: u32): int { if x < 0x8000_0000 then x else x - 0x1_0000_0000 }

  function Increment(x: u32): u32 { if x == 0xFFFF_FFFF then 0 else x + 1 }

  function RolledBack(m: Meta): Meta { m.(activeSlot := SlotOther(m.activeSlot), trial := 0, bootCount := 0) }

  /** The slot the previous boot left on trial is out of attempts. */
  predicate TrialExpires(m: Meta) { m.trial != 0 && Increment(m.bootCount) >= TRIAL_MAX }

  function ResolveTrial(m: Meta): Meta {
    if m.trial == 0 then m
    else if TrialExpires(m) then RolledBack(m)
    else m.(bootCount := Increment(m.bootCount))
  }

  /** The reset-tolerance policy applies on this boot. */
  predicate PolicyFires(m: Meta) {
    Signed(m.tolerance) >= 0 && Signed(Increment(m.resetCount)) > Signed(m.tolerance)
  }

  predicate RollbackFires(m: Meta) { PolicyFires(m) && m.policy == POLICY_ROLLBACK }

  function ApplyPolicy(m: Meta): Meta {
    var n := m.(resetCount := Increment(m.resetCount));
    if !PolicyFires(m) then n
    else if m.policy == POLICY_FORCE_UPDATE then n.(resetCount := 0)
    else if m.policy == POLICY_ROLLBACK then RolledBack(n).(resetCount := 0)
    else n
  }

  /** The metadata bootloader_init leaves behind. */
  function Judge(m: Meta): Meta { ApplyPolicy(ResolveTrial(m)) }

  predicate Forced(m: Meta) { PolicyFires(m) && m.policy == POLICY_FORCE_UPDATE }

  predicate Revalidates(m: Meta, f: Flags) { f.reason == Cold || TrialExpires(m) || RollbackFires(m) }

  /** boot_flags_init. */
  function Checked(f: Flags): Flags { if f.magic then f else Flags(true, Cold, false) }

  function InitFlags(m: Meta, f: Flags): Flags {
    if Forced(m) then f.(dfuRequested := true, reason := Software) else f
  }

  /** bootloader_init, from whatever metadata and flags the reset left. */
  function BootInit(w: World, f: Flags): (World, Flags) {
    var g := Checked(f);
    var m := MetaOf(w.flash);
    var n := Judge(m);
    var before := if f.magic then w.crcOk else false;
    var ok := if Revalidates(m, g) then ValidImage(w.flash, SlotToSector(n.activeSlot)) else before;
    (w.(meta := n, crcOk := ok, flash := WriteMeta(w.flash, n)), InitFlags(m, g))
  }

  // ---------------------------------------------------------------- when a trial reverts

  /** A trial out of attempts reverts to the other slot exactly when the rollback policy does not
      fire in the same boot; when it does, the two flips cancel out. */
  lemma TrialRevertsExactly(m: Meta)
    requires TrialExpires(m) && (m.activeSlot == SLOT_A || m.activeSlot == SLOT_B)
    ensures Judge(m).activeSlot == SlotOther(m.activeSlot) <==> !RollbackFires(m)
    ensures Judge(m).activeSlot == m.activeSlot <==> RollbackFires(m)
    ensures Judge(m).trial == 0 && Judge(m).bootCount == 0
  {
  }

  /** Such a boot, the third after a commit: slot B, its attempts used up, tolerance 2, policy
      ROLLBACK.  B stays active and is no longer even on trial. */
  lemma DoubleFlip() returns (m: Meta)
    ensures TrialExpires(m) && m.activeSlot == SLOT_B && m.trial == 1
    ensures Judge(m).activeSlot == SLOT_B && Judge(m).trial == 0
  {
    m := Meta(2, 2, POLICY_ROLLBACK, 0, SLOT_B, 1, 2);
  }

  /** Committing over a slot still on trial forgets that trial: the metadata comes out the same
      whatever was pending, and three boots later it names that slot again, off trial. */
  lemma TrialForgotten(m: Meta, pending: u32, boots: u32)
    requires (m.activeSlot == SLOT_A || m.activeSlot == SLOT_B) && Signed(m.tolerance) < 0
    ensures Committed(m.(trial := pending, bootCount := boots)) == Committed(m)
    ensures var n := Judge(Judge(Committed(m)));
      && n.activeSlot == SlotOther(m.activeSlot) && n.trial == 1 && n.bootCount == 2
      && Judge(n).activeSlot == m.activeSlot && Judge(n).trial == 0
  {
    var one := Judge(Committed(m));
    assert one.activeSlot == SlotOther(m.activeSlot) && one.trial == 1 && one.bootCount == 1 && one.tolerance == m.tolerance;
    var two := Judge(one);
    assert two.activeSlot == one.activeSlot && two.trial == 1 && two.bootCount == 2 && two.tolerance == m.tolerance;
  }

  // ---------------------------------------------------------------- the bootloader

  /** How one pass of bootloader_execute ends. */
  datatype Attempt = Launched | Failed | Restarted | Waiting | Overran

  /** One pass of bootloader_execute. */
  function Execute(w: World, f: Flags, s0: Session, input: seq<Rx>): (World, Attempt) {
    if !f.dfuRequested && w.crcOk then (w, Launched)
    else
      var (v, s, ending) := Receive(w, s0, input);
      (if s.phase == Done && ending == Ended then AfterDfu(v) else v, AttemptOf(s.phase, ending))
  }

  function AttemptOf(phase: Phase, ending: Ending): Attempt {
    match ending
    case SessionTimedOut => Failed
    case Stuck => Waiting
    case BufferOverrun => Overran
    case Ended => if phase == Done then Launched else if phase == Rebooted then Restarted else Failed
  }

  /** A successful update clears the reset count. */
  function AfterDfu(w: World): World {
    var m := w.meta.(resetCount := 0);
    w.(meta := m, flash := WriteMeta(w.flash, m))
  }

  class Bootloader {
    var flags: Flags
    const receiver: Receiver

    constructor (flags: Flags, receiver: Receiver)
      ensures this.flags == flags && this.receiver == receiver
    {
      this.flags, this.receiver := flags, receiver;
    }

    /** bootloader_init. */
    method Init()
      modifies this, receiver`world
      ensures (receiver.world, flags) == BootInit(old(receiver.world), old(flags))
    {
      hide ValidImage, DecodeMeta, EncodeMeta;
      var w := receiver.world;
      if !flags.magic {
        flags := Flags(true, Cold, false);
        w := w.(crcOk := false);
      }
      var meta := MetaOf(w.flash);
      var revalidate := flags.reason == Cold;
      if meta.trial != 0 {
        meta := meta.(bootCount := Increment(meta.bootCount));
        if meta.bootCount >= TRIAL_MAX {
          meta := meta.(activeSlot := SlotOther(meta.activeSlot), trial := 0, bootCount := 0);
          revalidate := true;
        }
      }
      meta := meta.(resetCount := Increment(meta.resetCount));
      if Signed(meta.tolerance) >= 0 && Signed(meta.resetCount) > Signed(meta.tolerance) {
        if meta.policy == POLICY_FORCE_UPDATE {
          meta := meta.(resetCount := 0);
          flags := flags.(dfuRequested := true, reason := Software);
        } else if meta.policy == POLICY_ROLLBACK {
          meta := meta.(activeSlot := SlotOther(meta.activeSlot), trial := 0, bootCount := 0, resetCount := 0);
          revalidate := true;
        }
      }
      if revalidate {
        var ok := ValidateApp(w.flash, SlotToSector(meta.activeSlot));
        w := w.(crcOk := ok);
      }
      receiver.world := w.(meta := meta, flash := WriteMeta(w.flash, meta));
    }

    /** bootloader_execute, up to the jump. */
    method Attempt(line: Line, anyCrc: Register, anyExpected: u32) returns (out: Attempt)
      requires receiver.Valid()
      modifies receiver, receiver.sector, receiver.ctx, line
      ensures receiver.Valid()
      ensures (receiver.world, out) ==
        Execute(old(receiver.world), flags, Unstarted(anyCrc, anyExpected, old(receiver.sector[..])), old(line.input))
    {
      hide Receive, DecodeMeta, EncodeMeta;
      if !flags.dfuRequested && receiver.world.crcOk {
        return Launched;
      }
      var ending := ReceiveSession(receiver, line, anyCrc, anyExpected);
      out := AttemptOf(receiver.v.phase, ending);
      if out == Launched {
        var m := receiver.world.meta.(resetCount := 0);
        receiver.world := receiver.world.(meta := m, flash := WriteMeta(receiver.world.flash, m));
      }
    }
  }
}
