/** Every run of boots, resets, DFU sessions and confirmations: what is launched, and how often. */
module BootSafety {
  import opened Bytes
  import opened Crc
  import opened Storage
  import opened Packet
  import opened Dfu
  import opened DfuSafety
  import opened DfuBounds
  import opened Boot

  // ---------------------------------------------------------------- runs

  /** Off until bootloader_init; Deciding while attempts are made (none left: the recovery loop);
      Stalled inside a receiver that waits for ever; Running once an application was entered. */
  datatype Stage = Off | Deciding(retries: nat) | Stalled | Running

  /** What became of the image last committed to a slot: nothing is pending; on trial; reverted
      from; or abandoned, when another image was committed while it was on trial.  An image that
      was never confirmed carries the number of its launches. */
  datatype History = Settled | OnTrial(launches: nat) | Reverted(launches: nat) | Abandoned(launches: nat)

  datatype System = System(w: World, f: Flags, stage: Stage, a: History, b: History)

  datatype Act =
    | PowerCycle                                   // RAM, and with it the boot flags, is lost
    | WarmReset                                    // watchdog or software reset, flags kept
    | Init                                         // bootloader_init
    | Try(s0: Session, input: seq<Rx>)             // one bootloader_execute, or one recovery dfu_receive
    | Confirm                                      // wdt_meta_confirm_slot
    | Configure(tolerance: u32, policy: u32)       // watchdog_init
    | RequestDfu                                   // dfu_reboot_task

  function HistoryOf(s: System, slot: u32): History { if slot == SLOT_B then s.b else s.a }

  function SetHistory(s: System, slot: u32, h: History): System { if slot == SLOT_B then s.(b := h) else s.(a := h) }

  function Stored(s: System): Meta { MetaOf(s.w.flash) }

  /** Which image the metadata names. */
  function ActiveOf(s: System): u32 { Stored(s).activeSlot }

  function DoInit(s: System): System {
    var (w, f) := BootInit(s.w, s.f);
    var h := HistoryOf(s, ActiveOf(s));
    var t := s.(w := w, f := f, stage := Deciding(NUM_RETRIES));
    if Judge(Stored(s)).activeSlot != ActiveOf(s) && h.OnTrial? then SetHistory(t, ActiveOf(s), Reverted(h.launches)) else t
  }

  function Launched(h: History): History {
    match h
    case OnTrial(n) => OnTrial(n + 1)
    case Abandoned(n) => Abandoned(n + 1)
    case _ => h
  }

  /** The jump to the application. */
  function Launch(s: System): System {
    SetHistory(s, ActiveOf(s), Launched(HistoryOf(s, ActiveOf(s)))).(stage := Running)
  }

  /** The other slot was just committed. */
  function NoteCommit(s: System, was: u32): System {
    var h := HistoryOf(s, was);
    SetHistory(SetHistory(s, was, if h.OnTrial? then Abandoned(h.launches) else h), SlotOther(was), OnTrial(0))
  }

  /** One attempt; with no retries left every attempt is a DFU session. */
  function DoTry(s: System, retries: nat, s0: Session, input: seq<Rx>): System {
    if retries > 0 && !s.f.dfuRequested && s.w.crcOk then Launch(s)
    else
      var (v, d, ending) := Receive(s.w, s0, input);
      match AttemptOf(d.phase, ending)
      case Launched => Launch(NoteCommit(s.(w := AfterDfu(v)), ActiveOf(s)))
      case Failed => s.(w := v, stage := Deciding(if retries > 0 then retries - 1 else 0))
      case Restarted => s.(w := v, stage := Off)
      case Waiting | Overran => s.(w := v, stage := Stalled)
  }

  function DoConfirm(s: System): System {
    SetHistory(s.(w := s.w.(flash := WriteMeta(s.w.flash, Stored(s).(trial := 0, bootCount := 0, resetCount := 0)))), ActiveOf(s), Settled)
  }

  function DoConfigure(s: System, tolerance: u32, policy: u32): System {
    s.(w := s.w.(flash := WriteMeta(s.w.flash, Stored(s).(tolerance := tolerance, policy := policy))))
  }

  /** No rollback policy with a tolerance that can be exceeded. */
  predicate NoRollback(m: Meta) { m.policy == POLICY_ROLLBACK ==> Signed(m.tolerance) < 0 }

  /** When each act can happen. */
  predicate Possible(s: System, a: Act) {
    match a
    case PowerCycle | WarmReset => true
    case Init => s.stage == Off
    case Try(s0, input) => s.stage.Deciding? && Fresh(s0)
    case Confirm | RequestDfu | Configure(_, _) => s.stage == Running
  }

  /** What is asked of the outside world besides: images that fit, no packet too long for the
      receiver, no rollback policy. */
  predicate Allowed(s: System, a: Act) {
    && Possible(s, a)
    && match a
       case Try(s0, input) => Sized(input) && Receive(s.w, s0, input).2 != BufferOverrun
       case Configure(tolerance, policy) => NoRollback(Stored(s).(tolerance := tolerance, policy := policy))
       case _ => true
  }

  function Step(s: System, a: Act): System
    requires Possible(s, a)
  {
    match a
    case PowerCycle => s.(f := s.f.(magic := false), stage := Off)
    case WarmReset => s.(stage := Off)
    case Init => DoInit(s)
    case Try(s0, input) => DoTry(s, s.stage.retries, s0, input)
    case Confirm => DoConfirm(s)
    case Configure(tolerance, policy) => DoConfigure(s, tolerance, policy)
    case RequestDfu => s.(f := Flags(true, Software, true), stage := Off)
  }

  // ---------------------------------------------------------------- invariant

  /** A slot's header names no more bytes than the slot has. */
  predicate HeaderFits(f: Flash, base: nat) { WordAt(Read(f, base), 4) <= MAX_APP_BYTES }

  /** A CRC verdict that will be trusted is true of the active slot. */
  ghost predicate Trustworthy(s: System) {
    s.f.magic && s.w.crcOk ==> ValidImage(s.w.flash, SlotToSector(ActiveOf(s)))
  }

  /** The active slot's image is on trial exactly when the metadata says so, and has not been
      launched more often than boots were counted.  Metadata from before the run (`idle`: not
      booted since) may hold any count. */
  predicate TrialOk(h: History, other: History, m: Meta, extra: nat, idle: bool) {
    && !h.Reverted? && !other.OnTrial?
    && (h.OnTrial? <==> m.trial != 0)
    && (h.OnTrial? ==> (idle && h.launches == 0) || (m.bootCount < TRIAL_MAX && h.launches <= m.bootCount + extra))
    && (m.trial != 0 ==> !other.Reverted?)
    && (other.Reverted? ==> other.launches <= TRIAL_MAX)
  }

  /** In this boot the active slot may still be launched once more. */
  function Extra(stage: Stage): nat { if stage == Off || stage == Running then 1 else 0 }

  /** `checked`: an image on trial when the run began was valid. */
  ghost predicate BootInv(s: System, checked: bool) {
    && (s.stage.Deciding? || s.stage == Stalled ==> s.w.meta == Stored(s) && s.f.magic)
    && (s.stage == Running ==> s.f.magic)
    && HeaderFits(s.w.flash, SECTOR_APP_A) && HeaderFits(s.w.flash, SECTOR_APP_B)
    && Trustworthy(s)
    && NoRollback(Stored(s))
    && TrialOk(HistoryOf(s, ActiveOf(s)), HistoryOf(s, SlotOther(ActiveOf(s))), Stored(s), Extra(s.stage), s.stage == Off)
    && (checked && Stored(s).trial != 0 ==> ValidImage(s.w.flash, SlotToSector(ActiveOf(s))))
  }

  // ---------------------------------------------------------------- storage frames

  /** Only metadata changed: the slots validate as before. */
  lemma MetaWriteFrame(f: Flash, m: Meta)
    ensures MetaOf(WriteMeta(f, m)) == m
    ensures forall slot: u32 :: ValidImage(WriteMeta(f, m), SlotToSector(slot)) == ValidImage(f, SlotToSector(slot))
    ensures HeaderFits(WriteMeta(f, m), SECTOR_APP_A) == HeaderFits(f, SECTOR_APP_A)
    ensures HeaderFits(WriteMeta(f, m), SECTOR_APP_B) == HeaderFits(f, SECTOR_APP_B)
  {
    hide EncodeMeta, DecodeMeta, ValidImage, WordAt;
    WriteMetaReadsBack(f, m);
    hide MetaOf;
    forall slot: u32 ensures ValidImage(WriteMeta(f, m), SlotToSector(slot)) == ValidImage(f, SlotToSector(slot))
    {
      SlotsAboveMetadata(slot);
      ValidImageFrame(f, WriteMeta(f, m), SlotToSector(slot));
    }
  }

  /** An image that fits its slot is judged by the slot's own sectors. */
  lemma SlotFrame(f: Flash, g: Flash, base: nat)
    requires HeaderFits(f, base) && forall k: nat | base <= k < base + SIZE_APP :: Read(g, k) == Read(f, k)
    ensures ValidImage(g, base) == ValidImage(f, base) && HeaderFits(g, base)
  {
    hide Checksum, LeValue;
    assert Read(g, base) == Read(f, base);
    ReadBytesFrame(f, g, base + 1, WordAt(Read(f, base), 4));
  }

  // ---------------------------------------------------------------- what a session does to the slots

  /** The header sector carries the declared length for as long as the session runs. */
  ghost predicate HeaderKept(w: World, s: Session) {
    s.started && !s.selfUpdate ==> s.base >= SECTOR_APP_A && WordAt(Read(w.flash, s.base), 4) == s.length
  }

  lemma HeaderWord(data: seq<byte>, stale: Sector)
    requires |data| == 12
    ensures WordAt(HeaderSector(data, stale), 4) == WordAt(data, 4)
  {
  }

  lemma PacketKeepsHeader(w: World, s: Session, p: Packet)
    requires HeaderKept(w, s) && Dfu.Live(s) && WellFormed(p) && (!s.started ==> s.phase != Receiving && !s.unwritten)
    ensures var r := OnPacket(w, s, p); HeaderKept(r.0, r.1) && (!r.1.started ==> r.1.phase != Receiving && !r.1.unwritten)
  {
    hide SectorOf, ValidImage, HasMarker, ActualCrc, EncodeMeta, LeValue, WordAt;
    if p.cmd == CMD_START && p.len == 12 { HeaderWord(p.data, s.stale); }
  }

  lemma {:induction false} RunKeepsHeader(w: World, s: Session, input: seq<Rx>)
    requires HeaderKept(w, s) && (!s.started ==> s.phase != Receiving && !s.unwritten)
    ensures var r := RunSession(w, s, input); HeaderKept(r.0, r.1)
    decreases |input|
  {
    hide OnPacket, HeaderKept;
    if Dfu.Live(s) && Parse(input).Received? {
      var p := Parse(input).packet;
      PacketKeepsHeader(w, s, p);
      RunKeepsHeader(OnPacket(w, s, p).0, OnPacket(w, s, p).1, Parse(input).rest);
    }
  }

  /** A session that fits its slot and does not commit leaves the metadata and both slots' verdict
      on the active image alone. */
  lemma SessionUncommitted(w: World, s0: Session, input: seq<Rx>)
    requires Fresh(s0) && MetaOf(w.flash) == w.meta && Sized(input)
    requires var r := Receive(w, s0, input); r.1.phase != Done && r.2 != BufferOverrun
    requires HeaderFits(w.flash, SECTOR_APP_A) && HeaderFits(w.flash, SECTOR_APP_B)
    ensures var v := Receive(w, s0, input).0;
      && v.meta == w.meta && v.crcOk == w.crcOk && MetaOf(v.flash) == w.meta
      && ValidImage(v.flash, Active(w)) == ValidImage(w.flash, Active(w))
      && HeaderFits(v.flash, SECTOR_APP_A) && HeaderFits(v.flash, SECTOR_APP_B)
  {
    hide Receive, DecodeMeta, ValidImage, WordAt, SectorOf, HasMarker, Reassembled;
    var (v, s, ending) := Receive(w, s0, input);
    SessionSafe(w, s0, input);
    StaysInsideExactly(w, s0, input);
    hide Sized;
    SessionHeader(w, s0, input);
    hide MetaOf;
    SlotFrame(w.flash, v.flash, Active(w));
    TargetFits(w, v, s);
  }

  /** After any session that fits, the written slot's header fits, too. */
  lemma TargetFits(w: World, v: World, s: Session)
    requires Shape(w, s) && Uncommitted(w, v, s) && HeaderKept(v, s) && StaysInside(s)
    requires HeaderFits(w.flash, SECTOR_APP_A) && HeaderFits(w.flash, SECTOR_APP_B)
    ensures HeaderFits(v.flash, SECTOR_APP_A) && HeaderFits(v.flash, SECTOR_APP_B)
  {
    hide WordAt;
  }

  lemma SessionHeader(w: World, s0: Session, input: seq<Rx>)
    requires Fresh(s0)
    ensures var r := Receive(w, s0, input); HeaderKept(r.0, r.1)
  {
    hide RunSession;
    if AwaitTrigger(0, input).Some? { RunKeepsHeader(Reply(w, ACK), s0, AwaitTrigger(0, input).value); }
  }

  /** A session that commits leaves a valid image in the other slot, named by the metadata. */
  lemma SessionCommitted(w: World, s0: Session, input: seq<Rx>)
    requires Fresh(s0) && MetaOf(w.flash) == w.meta && Sized(input)
    requires var r := Receive(w, s0, input); r.1.phase == Done && r.2 != BufferOverrun
    requires HeaderFits(w.flash, SECTOR_APP_A) && HeaderFits(w.flash, SECTOR_APP_B)
    ensures var v := Receive(w, s0, input).0;
      && v.meta == Committed(w.meta) == MetaOf(v.flash) && v.crcOk
      && ValidImage(v.flash, SlotToSector(SlotOther(w.meta.activeSlot)))
      && ValidImage(v.flash, Active(w)) == ValidImage(w.flash, Active(w))
      && HeaderFits(v.flash, SECTOR_APP_A) && HeaderFits(v.flash, SECTOR_APP_B)
  {
    hide Receive, DecodeMeta, ValidImage, WordAt, SectorOf, HasMarker, Reassembled, Complete;
    var (v, s, ending) := Receive(w, s0, input);
    SessionSafe(w, s0, input);
    StaysInsideExactly(w, s0, input);
    hide Sized;
    SessionHeader(w, s0, input);
    hide MetaOf;
    SlotsAboveMetadata(w.meta.activeSlot);
    SlotsAboveMetadata(SlotOther(w.meta.activeSlot));
    SlotFrame(w.flash, v.flash, Active(w));
  }

  // ---------------------------------------------------------------- preservation

  lemma InitKeeps(s: System, checked: bool)
    requires BootInv(s, checked) && s.stage == Off
    ensures BootInv(DoInit(s), checked)
  {
    hide ValidImage, HeaderFits, DecodeMeta, EncodeMeta;
    var m := Stored(s);
    MetaWriteFrame(s.w.flash, Judge(m));
    hide MetaOf, WriteMeta;
    JudgeKeeps(m);
    TrialAfterJudge(HistoryOf(s, m.activeSlot), HistoryOf(s, SlotOther(m.activeSlot)), m);
  }

  lemma JudgeKeeps(m: Meta)
    requires NoRollback(m)
    ensures NoRollback(Judge(m)) && !RollbackFires(m)
    ensures Judge(m).activeSlot == if TrialExpires(m) then SlotOther(m.activeSlot) else m.activeSlot
  {
  }

  lemma TrialAfterJudge(h: History, other: History, m: Meta)
    requires NoRollback(m) && TrialOk(h, other, m, 1, true)
    ensures var n := Judge(m);
      if TrialExpires(m) then TrialOk(other, if h.OnTrial? then Reverted(h.launches) else h, n, 0, false)
      else TrialOk(h, other, n, 0, false)
  {
    JudgeKeeps(m);
  }

  lemma LaunchKeeps(s: System, checked: bool)
    requires BootInv(s, checked) && s.stage.Deciding? && s.w.crcOk
    ensures BootInv(Launch(s), checked)
    ensures ValidImage(Launch(s).w.flash, SlotToSector(ActiveOf(Launch(s))))
  {
    hide ValidImage, HeaderFits, MetaOf;
  }

  lemma TryKeeps(s: System, s0: Session, input: seq<Rx>, checked: bool)
    requires BootInv(s, checked) && Allowed(s, Try(s0, input))
    ensures BootInv(DoTry(s, s.stage.retries, s0, input), checked)
  {
    hide ValidImage, HeaderFits, MetaOf, Receive, Sized, Fresh, Committed, WriteMeta;
    if s.stage.retries > 0 && !s.f.dfuRequested && s.w.crcOk {
      LaunchKeeps(s, checked);
    } else {
      var (v, d, ending) := Receive(s.w, s0, input);
      EndingIs(s.w, s0, input);
      if d.phase == Done {
        CommitStep(s, s0, input, checked);
      } else {
        SessionUncommitted(s.w, s0, input);
      }
    }
  }

  /** Only a session whose phase is Done ends as a launch, and it ends as one. */
  lemma {:induction false} RunEnding(w: World, s: Session, input: seq<Rx>)
    ensures var r := RunSession(w, s, input); !Dfu.Live(r.1) ==> r.2 == Ended
    ensures var r := RunSession(w, s, input); r.2 == Ended ==> !Dfu.Live(r.1)
    decreases |input|
  {
    if Dfu.Live(s) && Parse(input).Received? {
      var n := OnPacket(w, s, Parse(input).packet);
      RunEnding(n.0, n.1, Parse(input).rest);
    }
  }

  lemma EndingIs(w: World, s0: Session, input: seq<Rx>)
    requires Fresh(s0)
    ensures var r := Receive(w, s0, input); r.1.phase == Done ==> r.2 == Ended
  {
    hide RunSession;
    if AwaitTrigger(0, input).Some? { RunEnding(Reply(w, ACK), s0, AwaitTrigger(0, input).value); }
  }

  lemma CommitStep(s: System, s0: Session, input: seq<Rx>, checked: bool)
    requires BootInv(s, checked) && s.stage.Deciding? && Fresh(s0) && Sized(input)
    requires var r := Receive(s.w, s0, input); r.1.phase == Done && r.2 != BufferOverrun
    ensures BootInv(Launch(NoteCommit(s.(w := AfterDfu(Receive(s.w, s0, input).0)), ActiveOf(s))), checked)
  {
    hide ValidImage, HeaderFits, Receive, Sized, Fresh, EncodeMeta, DecodeMeta;
    var v := Receive(s.w, s0, input).0;
    SessionCommitted(s.w, s0, input);
    MetaWriteFrame(v.flash, v.meta.(resetCount := 0));
    hide MetaOf, WriteMeta;
    var t := NoteCommit(s.(w := AfterDfu(v)), ActiveOf(s));
    CommittedHistory(s, t, v, checked);
    LaunchKeeps(t, checked);
  }

  lemma CommittedHistory(s: System, t: System, v: World, checked: bool)
    requires BootInv(s, checked) && s.stage.Deciding? && v.meta == Committed(Stored(s)) && v.crcOk
    requires t == NoteCommit(s.(w := AfterDfu(v)), ActiveOf(s))
    requires Stored(t) == v.meta.(resetCount := 0) && ValidImage(t.w.flash, SlotToSector(v.meta.activeSlot))
    requires HeaderFits(t.w.flash, SECTOR_APP_A) && HeaderFits(t.w.flash, SECTOR_APP_B)
    ensures BootInv(t, checked) && t.w.crcOk && t.stage.Deciding?
  {
    hide ValidImage, HeaderFits, MetaOf, WriteMeta;
  }

  lemma ConfirmKeeps(s: System, checked: bool)
    requires BootInv(s, checked) && s.stage == Running
    ensures BootInv(DoConfirm(s), checked)
  {
    hide ValidImage, HeaderFits, EncodeMeta, DecodeMeta;
    MetaWriteFrame(s.w.flash, Stored(s).(trial := 0, bootCount := 0, resetCount := 0));
    hide MetaOf, WriteMeta;
  }

  lemma ConfigureKeeps(s: System, tolerance: u32, policy: u32, checked: bool)
    requires BootInv(s, checked) && Allowed(s, Configure(tolerance, policy))
    ensures BootInv(DoConfigure(s, tolerance, policy), checked)
  {
    hide ValidImage, HeaderFits, EncodeMeta, DecodeMeta;
    MetaWriteFrame(s.w.flash, Stored(s).(tolerance := tolerance, policy := policy));
    hide MetaOf, WriteMeta;
  }

  lemma StepKeeps(s: System, a: Act, checked: bool)
    requires BootInv(s, checked) && Allowed(s, a)
    ensures BootInv(Step(s, a), checked)
  {
    hide ValidImage, HeaderFits, MetaOf, DoTry, DoInit, DoConfirm, DoConfigure, Receive;
    match a
    case PowerCycle | WarmReset | RequestDfu =>
    case Init => InitKeeps(s, checked);
    case Try(s0, input) => TryKeeps(s, s0, input, checked);
    case Confirm => ConfirmKeeps(s, checked);
    case Configure(tolerance, policy) => ConfigureKeeps(s, tolerance, policy, checked);
  }

  ghost predicate Legal(s: System, acts: seq<Act>)
    decreases |acts|
  {
    acts == [] || (Allowed(s, acts[0]) && Legal(Step(s, acts[0]), acts[1..]))
  }

  ghost function After(s: System, acts: seq<Act>): System
    requires Legal(s, acts)
    decreases |acts|
  {
    if acts == [] then s else After(Step(s, acts[0]), acts[1..])
  }

  /** A board before the run: powered off, its slots' headers in range, whatever else is in
      flash.  A trial already pending counts from here. */
  predicate FactoryState(s: System) {
    && s.stage == Off && !s.f.magic
    && HistoryOf(s, ActiveOf(s)) == (if Stored(s).trial != 0 then OnTrial(0) else Settled)
    && HistoryOf(s, SlotOther(ActiveOf(s))) == Settled
    && HeaderFits(s.w.flash, SECTOR_APP_A) && HeaderFits(s.w.flash, SECTOR_APP_B) && NoRollback(Stored(s))
  }

  /** If a trial is pending, its image is sound. */
  ghost predicate PendingChecked(s: System) { Stored(s).trial != 0 ==> ValidImage(s.w.flash, SlotToSector(ActiveOf(s))) }

  lemma FactoryInv(s: System)
    requires FactoryState(s)
    ensures BootInv(s, PendingChecked(s))
  {
    hide ValidImage, MetaOf, HeaderFits;
  }

  lemma {:induction false} RunKeeps(s: System, acts: seq<Act>, checked: bool)
    requires BootInv(s, checked) && Legal(s, acts)
    ensures BootInv(After(s, acts), checked)
    decreases |acts|
  {
    hide BootInv, Step;
    if acts != [] {
      StepKeeps(s, acts[0], checked);
      RunKeeps(Step(s, acts[0]), acts[1..], checked);
    }
  }

  /** Over any run: whenever an application is entered, warm or cold, its slot holds an image
      whose CRC matches its header; an image on trial has been launched at most three times; and
      a slot once reverted from is not the one entered. */
  lemma {:induction false} LaunchSafe(s: System, acts: seq<Act>, a: Act)
    requires FactoryState(s) && Legal(s, acts) && Allowed(After(s, acts), a)
    requires a.Try? && Step(After(s, acts), a).stage == Running
    ensures var r := Step(After(s, acts), a); var h := HistoryOf(r, ActiveOf(r));
      && ValidImage(r.w.flash, SlotToSector(ActiveOf(r)))
      && !h.Reverted?
      && (h.OnTrial? ==> 1 <= h.launches <= TRIAL_MAX && Stored(r).trial != 0)
  {
    hide ValidImage, MetaOf, HeaderFits, Receive;
    FactoryInv(s);
    RunKeeps(s, acts, PendingChecked(s));
    StepKeeps(After(s, acts), a, PendingChecked(s));
    var checked := PendingChecked(s);
    hide After, Legal;
    RunningTrusted(After(s, acts), a.s0, a.input, checked);
  }

  lemma RunningTrusted(s: System, s0: Session, input: seq<Rx>, checked: bool)
    requires BootInv(s, checked) && Allowed(s, Try(s0, input)) && DoTry(s, s.stage.retries, s0, input).stage == Running
    ensures DoTry(s, s.stage.retries, s0, input).w.crcOk
    ensures var r := DoTry(s, s.stage.retries, s0, input); HistoryOf(r, ActiveOf(r)).OnTrial? ==> HistoryOf(r, ActiveOf(r)).launches >= 1
  {
    hide ValidImage, MetaOf, HeaderFits, Receive, WriteMeta;
    if !(s.stage.retries > 0 && !s.f.dfuRequested && s.w.crcOk) {
      EndingIs(s.w, s0, input);
      SessionCommitted(s.w, s0, input);
    }
  }

  // ---------------------------------------------------------------- what an attempt answers

  /** The attempt must run an update session: one was asked for, or there is no image to launch. */
  predicate MustUpdate(w: World, f: Flags) { f.dfuRequested || !w.crcOk }

  /** One attempt.  With nothing asked for and a trusted image it launches and touches nothing.
      Otherwise it waits for the trigger key before anything else, reports a launch exactly when
      the session it ran committed, and leaves the metadata alone unless it did. */
  lemma {:induction false} AttemptServes(w: World, f: Flags, s0: Session, input: seq<Rx>)
    requires Fresh(s0)
    ensures !MustUpdate(w, f) ==> Execute(w, f, s0, input) == (w, Attempt.Launched)
    ensures MustUpdate(w, f) ==>
      var (v, out) := Execute(w, f, s0, input); var (u, s, ending) := Receive(w, s0, input);
      && (AwaitTrigger(0, input).None? ==> out == Attempt.Waiting && v == w)
      && (out == Attempt.Launched <==> s.phase == Done)
      && (out == Restarted <==> s.phase == Rebooted)
      && (out == Failed <==> s.phase == Aborted || ending == SessionTimedOut)
      && (out == Attempt.Waiting <==> ending == Stuck)
      && (out == Attempt.Launched ==> v.meta == Committed(w.meta).(resetCount := 0) == MetaOf(v.flash) && v.crcOk)
      && (s.phase != Done ==> v == u)
  {
    hide RunSession, DecodeMeta, EncodeMeta, ValidImage;
    if MustUpdate(w, f) {
      EndingIs(w, s0, input);
      PhaseTells(w, s0, input);
      if Receive(w, s0, input).1.phase == Done {
        CommitTells(w, s0, input);
      }
    }
  }

  lemma {:induction false} PhaseTells(w: World, s0: Session, input: seq<Rx>)
    requires Fresh(s0)
    ensures var r := Receive(w, s0, input); r.2 == Ended <==> !Dfu.Live(r.1)
  {
    hide RunSession;
    if AwaitTrigger(0, input).Some? { RunEnding(Reply(w, ACK), s0, AwaitTrigger(0, input).value); }
  }

  lemma {:induction false} CommitTells(w: World, s0: Session, input: seq<Rx>)
    requires Fresh(s0) && Receive(w, s0, input).1.phase == Done
    ensures var v := AfterDfu(Receive(w, s0, input).0);
      v.meta == Committed(w.meta).(resetCount := 0) == MetaOf(v.flash) && v.crcOk
  {
    hide Receive, DecodeMeta, EncodeMeta, ValidImage, HasMarker, Reassembled, Complete;
    EndingIs(w, s0, input);
    SessionSafe(w, s0, input);
    var v := Receive(w, s0, input).0;
    WriteMetaReadsBack(v.flash, v.meta.(resetCount := 0));
    hide MetaOf, WriteMeta;
  }

  /** What a committing session writes to the metadata: the other slot, on trial and not yet
      launched; everything else is as it was, the reset count included. */
  lemma {:induction false} CommitResult(w: World, s0: Session, input: seq<Rx>)
    requires Fresh(s0) && Receive(w, s0, input).1.phase == Done
    ensures var v := Receive(w, s0, input).0; var m := MetaOf(v.flash);
      && v.meta == m && v.crcOk
      && m.activeSlot == (if w.meta.activeSlot == SLOT_B then SLOT_A else SLOT_B) && m.trial == 1 && m.bootCount == 0
      && m.resetCount == w.meta.resetCount && m.tolerance == w.meta.tolerance
      && m.policy == w.meta.policy && m.reason == w.meta.reason
  {
    hide Receive, MetaOf, ValidImage, HasMarker, Reassembled, Complete;
    EndingIs(w, s0, input);
    SessionSafe(w, s0, input);
  }

  /** The run machine's attempt is bootloader_execute's, while attempts are left. */
  lemma {:induction false} TryIsExecute(s: System, retries: nat, s0: Session, input: seq<Rx>)
    requires Fresh(s0) && retries > 0
    ensures var (w, out) := Execute(s.w, s.f, s0, input); var r := DoTry(s, retries, s0, input);
      && r.w == w && r.f == s.f
      && (r.stage == Running <==> out == Attempt.Launched)
      && (r.stage == Deciding(retries - 1) <==> out == Failed)
      && (r.stage == Off <==> out == Restarted)
      && (r.stage == Stalled <==> out == Attempt.Waiting || out == Overran)
  {
    hide Receive, MetaOf, WriteMeta;
    EndingIs(s.w, s0, input);
  }

  /** With none left every attempt is a session, whatever image there is. */
  lemma {:induction false} RecoveryIsExecute(s: System, s0: Session, input: seq<Rx>)
    requires Fresh(s0)
    ensures var (w, out) := Execute(s.w, s.f.(dfuRequested := true), s0, input); var r := DoTry(s, 0, s0, input);
      && r.w == w && r.f == s.f
      && (r.stage == Running <==> out == Attempt.Launched) && (r.stage == Deciding(0) <==> out == Failed)
      && (r.stage == Off <==> out == Restarted) && (r.stage == Stalled <==> out == Attempt.Waiting || out == Overran)
  {
    hide Receive, MetaOf, WriteMeta;
    EndingIs(s.w, s0, input);
  }

  /** The resets counted so far, this one included, are more than the tolerance allows. */
  predicate TooManyResets(m: Meta) { 0 <= Signed(m.tolerance) < Signed(Increment(m.resetCount)) }

  /** A boot under the force-update policy with too many resets runs a session, image or not. */
  lemma {:induction false} ForcedUpdateHappens(w: World, f: Flags)
    requires TooManyResets(MetaOf(w.flash)) && MetaOf(w.flash).policy == POLICY_FORCE_UPDATE
    ensures var (v, g) := BootInit(w, f); MustUpdate(v, g) && g.reason == Software && v.meta.resetCount == 0
  {
    hide DecodeMeta, EncodeMeta, ValidImage;
  }

  /** Any other boot asks for no update of its own, and counts one reset. */
  lemma {:induction false} BootAsksNothing(w: World, f: Flags)
    requires !(TooManyResets(MetaOf(w.flash)) && MetaOf(w.flash).policy == POLICY_FORCE_UPDATE)
    ensures var (v, g) := BootInit(w, f); var m := MetaOf(w.flash);
      && g.dfuRequested == (f.magic && f.dfuRequested)
      && g.reason == (if f.magic then f.reason else Cold)
      && v.meta.resetCount == if TooManyResets(m) && m.policy == POLICY_ROLLBACK then 0 else Increment(m.resetCount)
  {
    hide DecodeMeta, EncodeMeta, ValidImage;
  }

  /** After every boot the flags are marked and the metadata stored; after a cold one, and after
      any change of slot, the CRC verdict is that of the slot now active; else it is the old one. */
  lemma {:induction false} BootVerdict(w: World, f: Flags)
    ensures var (v, g) := BootInit(w, f); var was := MetaOf(w.flash);
      && g.magic && MetaOf(v.flash) == v.meta && v.replies == w.replies
      && v.meta.tolerance == was.tolerance && v.meta.policy == was.policy && v.meta.reason == was.reason
      && (!f.magic || f.reason == Cold || v.meta.activeSlot != was.activeSlot ==>
            v.crcOk == ValidImage(v.flash, SlotToSector(v.meta.activeSlot)))
      && (f.magic && f.reason != Cold && was.trial == 0 && !(TooManyResets(was) && was.policy == POLICY_ROLLBACK) ==>
            v.crcOk == w.crcOk)
  {
    hide DecodeMeta, EncodeMeta, ValidImage;
    var m := MetaOf(w.flash);
    MetaWriteFrame(w.flash, Judge(m));
    hide MetaOf, WriteMeta;
  }

  /** What a boot makes of a trial.  Two tries without a confirmation are counted; the third boot
      ends it, and so does a rollback for too many resets.  The slot changes if exactly one of the
      two happens, and without either nothing of it does. */
  lemma {:induction false} TrialResult(w: World, f: Flags)
    requires MetaOf(w.flash).activeSlot == SLOT_A || MetaOf(w.flash).activeSlot == SLOT_B
    ensures var was := MetaOf(w.flash); var now := BootInit(w, f).0.meta;
      var third := was.trial != 0 && 2 <= was.bootCount < 0xFFFF_FFFF;
      var rollback := TooManyResets(was) && was.policy == POLICY_ROLLBACK;
      && (now.activeSlot == SLOT_A || now.activeSlot == SLOT_B)
      && (now.activeSlot != was.activeSlot <==> third != rollback)
      && (now.trial == if third || rollback then 0 else was.trial)
      && (now.bootCount == if third || rollback || (was.trial != 0 && was.bootCount == 0xFFFF_FFFF) then 0
                           else if was.trial != 0 then was.bootCount + 1 else was.bootCount)
  {
    hide DecodeMeta, EncodeMeta, ValidImage, WriteMeta;
  }

  /** wdt_meta_confirm_slot and watchdog_init, on the stored metadata. */
  lemma {:induction false} ConfirmResult(s: System, tolerance: u32, policy: u32)
    ensures Stored(DoConfirm(s)) == Stored(s).(trial := 0, bootCount := 0, resetCount := 0)
    ensures Stored(DoConfigure(s, tolerance, policy)) == Stored(s).(tolerance := tolerance, policy := policy)
  {
    hide DecodeMeta, EncodeMeta, ValidImage;
    MetaWriteFrame(s.w.flash, Stored(s).(trial := 0, bootCount := 0, resetCount := 0));
    MetaWriteFrame(s.w.flash, Stored(s).(tolerance := tolerance, policy := policy));
    hide MetaOf, WriteMeta;
  }
}
