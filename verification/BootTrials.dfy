/** When the trial promise holds: a committed image that is never confirmed is launched at most
    three times, exactly as long as nothing is committed over an image on trial. */
module BootTrials {
  import opened Bytes
  import opened Crc
  import opened Storage
  import opened Packet
  import opened Dfu
  import opened DfuSafety
  import opened DfuBounds
  import opened DfuSender
  import opened Boot
  import opened BootSafety

  // ---------------------------------------------------------------- the guard

  /** The act is an update session that commits. */
  predicate Commits(s: System, a: Act) {
    && a.Try? && s.stage.Deciding? && !(s.stage.retries > 0 && !s.f.dfuRequested && s.w.crcOk)
    && Receive(s.w, a.s0, a.input).1.phase == Done
  }

  /** It commits although the metadata still has a trial pending. */
  predicate OverTrial(s: System, a: Act) { Commits(s, a) && Stored(s).trial != 0 }

  ghost predicate Guarded(s: System, acts: seq<Act>)
    requires Legal(s, acts)
    decreases |acts|
  {
    acts == [] || (!OverTrial(s, acts[0]) && Guarded(Step(s, acts[0]), acts[1..]))
  }

  /** Launches of a slot's image since it was committed, if it was never confirmed. */
  function Launches(h: History): nat { if h.Settled? then 0 else h.launches }

  /** An image was launched more often than the trial allows, and never confirmed. */
  predicate Overlaunched(s: System) { Launches(s.a) > TRIAL_MAX || Launches(s.b) > TRIAL_MAX }

  predicate NoneAbandoned(s: System) { !s.a.Abandoned? && !s.b.Abandoned? }

  lemma GuardedStep(s: System, a: Act, checked: bool)
    requires BootInv(s, checked) && NoneAbandoned(s) && Allowed(s, a) && !OverTrial(s, a)
    ensures NoneAbandoned(Step(s, a))
  {
    hide ValidImage, HeaderFits, MetaOf, Receive, WriteMeta, Sized;
    if a.Try? && !(s.stage.retries > 0 && !s.f.dfuRequested && s.w.crcOk) {
      EndingIs(s.w, a.s0, a.input);
    }
  }

  lemma BoundFollows(s: System, checked: bool)
    requires BootInv(s, checked) && NoneAbandoned(s)
    ensures !Overlaunched(s)
  {
    hide ValidImage, HeaderFits, MetaOf;
  }

  lemma {:induction false} GuardedFrom(s: System, acts: seq<Act>, checked: bool)
    requires BootInv(s, checked) && NoneAbandoned(s) && Legal(s, acts) && Guarded(s, acts)
    ensures NoneAbandoned(After(s, acts)) && !Overlaunched(After(s, acts))
    decreases |acts|
  {
    hide BootInv, Step, OverTrial, NoneAbandoned, Overlaunched;
    if acts == [] {
      BoundFollows(s, checked);
    } else {
      GuardedStep(s, acts[0], checked);
      StepKeeps(s, acts[0], checked);
      GuardedFrom(Step(s, acts[0]), acts[1..], checked);
    }
  }

  /** With the guard, over any run, the bound covers every committed image. */
  lemma {:induction false} GuardedBound(s: System, acts: seq<Act>)
    requires FactoryState(s) && Legal(s, acts) && Guarded(s, acts)
    ensures NoneAbandoned(After(s, acts)) && !Overlaunched(After(s, acts))
  {
    hide BootInv;
    FactoryInv(s);
    NothingAbandonedYet(s);
    GuardedFrom(s, acts, PendingChecked(s));
  }

  lemma NothingAbandonedYet(s: System)
    requires FactoryState(s)
    ensures NoneAbandoned(s)
  {
    hide MetaOf, HeaderFits;
  }

  // ---------------------------------------------------------------- what happens without it

  predicate NoConfirm(acts: seq<Act>) { forall i | 0 <= i < |acts| :: !acts[i].Confirm? }

  /** A run of unconfirmed, guarded acts. */
  ghost predicate Goes(s: System, acts: seq<Act>, t: System) {
    Legal(s, acts) && Guarded(s, acts) && NoConfirm(acts) && After(s, acts) == t
  }

  lemma GoesOn(s: System, a: Act, acts: seq<Act>, t: System)
    requires Allowed(s, a) && !OverTrial(s, a) && !a.Confirm? && Goes(Step(s, a), acts, t)
    ensures Goes(s, [a] + acts, t)
  {
    hide Step, Possible, OverTrial, Receive, Sized, NoRollback;
    assert ([a] + acts)[1..] == acts;
  }

  /** The image in `slot` is valid, was on trial when another was committed over it, and was
      launched `n` times; the other image, if still on trial, has boots left.  No tolerance is set. */
  ghost predicate Doomed(s: System, slot: u32, n: nat) {
    && (slot == SLOT_A || slot == SLOT_B)
    && Signed(Stored(s).tolerance) < 0
    && HistoryOf(s, slot) == Abandoned(n) && ValidImage(s.w.flash, SlotToSector(slot))
    && if Stored(s).trial == 0 then ActiveOf(s) == slot
       else ActiveOf(s) == SlotOther(slot) && Stored(s).bootCount < TRIAL_MAX
  }

  /** One power cycle: the trial gets one boot older, or ends with the abandoned image active. */
  lemma ColdBoot(s: System, slot: u32, n: nat)
    requires Doomed(s, slot, n)
    ensures Allowed(s, PowerCycle) && Allowed(Step(s, PowerCycle), Init)
    ensures var t := Step(Step(s, PowerCycle), Init);
      && Doomed(t, slot, n) && t.stage == Deciding(NUM_RETRIES) && !t.f.dfuRequested
      && (Stored(s).trial == 0 ==> Stored(t).trial == 0 && t.w.crcOk)
      && (Stored(s).trial != 0 ==> Stored(t).trial == 0 || Stored(t).bootCount == Stored(s).bootCount + 1)
  {
    hide ValidImage, HeaderFits, DecodeMeta, EncodeMeta;
    var m := Stored(s);
    MetaWriteFrame(s.w.flash, Judge(m));
    hide MetaOf, WriteMeta;
  }

  /** The abandoned image, active again, is launched once more. */
  lemma Relaunch(s: System, slot: u32, n: nat) returns (a: Act)
    requires Doomed(s, slot, n) && Stored(s).trial == 0 && s.stage == Deciding(NUM_RETRIES) && !s.f.dfuRequested && s.w.crcOk
    ensures Allowed(s, a) && !OverTrial(s, a) && !a.Confirm?
    ensures Doomed(Step(s, a), slot, n + 1) && Stored(Step(s, a)).trial == 0
  {
    hide ValidImage, HeaderFits, MetaOf;
    a := Try(Unstarted(CRC_INIT, 0, Zeros(SECTOR_SIZE)), []);
    NothingReceived(s.w, a.s0);
  }

  lemma NothingReceived(w: World, s0: Session)
    ensures Receive(w, s0, []) == (w, s0, Stuck) && Sized([])
  {
  }

  lemma AfterColdBoot(s: System, acts: seq<Act>, t: System)
    requires Allowed(s, PowerCycle) && Allowed(Step(s, PowerCycle), Init)
    requires Goes(Step(Step(s, PowerCycle), Init), acts, t)
    ensures Goes(s, [PowerCycle] + ([Init] + acts), t)
  {
    hide Step, Possible, Goes, Receive, Sized, NoRollback;
    GoesOn(Step(s, PowerCycle), Init, acts, t);
    GoesOn(s, PowerCycle, [Init] + acts, t);
  }

  lemma Stays(s: System, slot: u32, n: nat)
    requires Doomed(s, slot, n)
    ensures Goes(s, [], s) && HistoryOf(s, slot) == Abandoned(n)
  {
    hide ValidImage, MetaOf;
  }

  /** Booted and launched once more. */
  lemma Round(s: System, slot: u32, n: nat) returns (u: System, a: Act)
    requires Doomed(s, slot, n) && Stored(s).trial == 0
    ensures Allowed(s, PowerCycle) && Allowed(Step(s, PowerCycle), Init)
    ensures u == Step(Step(s, PowerCycle), Init) && Possible(u, a) && Allowed(u, a) && !OverTrial(u, a) && !a.Confirm?
    ensures Doomed(Step(u, a), slot, n + 1) && Stored(Step(u, a)).trial == 0
  {
    hide Step, Possible, OverTrial, Doomed, Receive, Sized, NoRollback;
    ColdBoot(s, slot, n);
    u := Step(Step(s, PowerCycle), Init);
    a := Relaunch(u, slot, n);
  }

  /** Again and again. */
  lemma {:induction false} Relaunches(s: System, slot: u32, n: nat, more: nat) returns (acts: seq<Act>, t: System)
    requires Doomed(s, slot, n) && Stored(s).trial == 0
    ensures Goes(s, acts, t) && HistoryOf(t, slot) == Abandoned(n + more)
    decreases more
  {
    hide *;
    if more == 0 {
      Stays(s, slot, n);
      acts, t := [], s;
    } else {
      var u, a := Round(s, slot, n);
      acts, t := Relaunches(Step(u, a), slot, n + 1, more - 1);
      GoesOn(u, a, acts, t);
      AfterColdBoot(s, [a] + acts, t);
      acts := [PowerCycle] + ([Init] + ([a] + acts));
    }
  }

  /** Enough power cycles bring the abandoned image back, and then it is launched as often as
      one likes. */
  lemma {:induction false} ComesBack(s: System, slot: u32, n: nat, more: nat) returns (acts: seq<Act>, t: System)
    requires Doomed(s, slot, n)
    ensures Goes(s, acts, t) && HistoryOf(t, slot) == Abandoned(n + more)
    decreases if Stored(s).trial == 0 then 0 else 1 + TRIAL_MAX - Stored(s).bootCount
  {
    hide Step, Possible, OverTrial, Goes, Receive, Sized, NoRollback;
    if Stored(s).trial == 0 {
      acts, t := Relaunches(s, slot, n, more);
    } else {
      ColdBoot(s, slot, n);
      acts, t := ComesBack(Step(Step(s, PowerCycle), Init), slot, n, more);
      AfterColdBoot(s, acts, t);
      acts := [PowerCycle] + ([Init] + acts);
    }
  }

  // ---------------------------------------------------------------- exactly

  const Tolerant: Act := Configure(TOLERANCE_INFINITE, POLICY_FORCE_UPDATE)

  /** A commit over a trial leaves the image that was on trial abandoned, and still valid. */
  lemma CommitAbandons(s: System, a: Act)
    requires BootInv(s, true) && Allowed(s, a) && OverTrial(s, a)
    ensures var t := Step(s, a); var slot := SlotOther(SlotOther(ActiveOf(s)));
      && t.stage == Running && Stored(t).trial == 1 && Stored(t).bootCount == 0 && ActiveOf(t) == SlotOther(slot)
      && HistoryOf(t, slot) == Abandoned(Launches(HistoryOf(s, ActiveOf(s)))) && ValidImage(t.w.flash, SlotToSector(slot))
  {
    hide ValidImage, HeaderFits, Receive, Sized, Fresh, EncodeMeta, DecodeMeta;
    var v := Receive(s.w, a.s0, a.input).0;
    EndingIs(s.w, a.s0, a.input);
    SessionCommitted(s.w, a.s0, a.input);
    MetaWriteFrame(v.flash, v.meta.(resetCount := 0));
    hide MetaOf, WriteMeta;
  }

  /** Once the application has switched the reset tolerance off, nothing stands in the way. */
  lemma TolerantDooms(t: System, slot: u32, n: nat)
    requires t.stage == Running && Stored(t).trial == 1 && Stored(t).bootCount == 0
    requires (slot == SLOT_A || slot == SLOT_B) && ActiveOf(t) == SlotOther(slot)
    requires HistoryOf(t, slot) == Abandoned(n) && ValidImage(t.w.flash, SlotToSector(slot))
    ensures Allowed(t, Tolerant) && Doomed(Step(t, Tolerant), slot, n)
  {
    hide ValidImage, HeaderFits, EncodeMeta, DecodeMeta;
    MetaWriteFrame(t.w.flash, Stored(t).(tolerance := TOLERANCE_INFINITE, policy := POLICY_FORCE_UPDATE));
    hide MetaOf, WriteMeta;
  }

  /** From a commit over a trial the abandoned image can be launched any number of times more. */
  lemma Continues(s: System, a: Act, more: nat) returns (acts: seq<Act>, end: System)
    requires BootInv(s, true) && Allowed(s, a) && OverTrial(s, a)
    ensures Goes(Step(s, a), acts, end)
    ensures HistoryOf(end, ActiveOf(s)) == Abandoned(Launches(HistoryOf(s, ActiveOf(s))) + more)
  {
    hide BootInv, Step, Possible, Goes, Doomed, ValidImage, Receive, Sized, NoRollback;
    var slot := SlotOther(SlotOther(ActiveOf(s)));
    CommitAbandons(s, a);
    var n := Launches(HistoryOf(s, ActiveOf(s)));
    TolerantDooms(Step(s, a), slot, n);
    var u := Step(Step(s, a), Tolerant);
    acts, end := ComesBack(u, slot, n, more);
    GoesOn(Step(s, a), Tolerant, acts, end);
    acts := [Tolerant] + acts;
  }

  /** Some guarded continuation launches a never confirmed image too often. */
  ghost predicate Breakable(t: System) {
    exists acts: seq<Act> :: Legal(t, acts) && Guarded(t, acts) && Overlaunched(After(t, acts))
  }

  /** The bound is lost exactly by a commit while the stored trial flag is set.  After any guarded
      run, the next act opens the way to too many launches if and only if it is such a commit:
      afterwards even a run that never does it again, and never confirms, breaks the bound, and
      after any other act none can. */
  lemma {:induction false} BoundLostExactly(s: System, acts: seq<Act>, a: Act)
    requires FactoryState(s) && PendingChecked(s) && Legal(s, acts) && Guarded(s, acts) && Allowed(After(s, acts), a)
    ensures OverTrial(After(s, acts), a) <==> Breakable(Step(After(s, acts), a))
  {
    hide BootInv, Step, Possible, Overlaunched, NoneAbandoned, OverTrial, PendingChecked, FactoryState,
         Receive, Sized, NoRollback;
    var u := After(s, acts);
    FactoryInv(s);
    NothingAbandonedYet(s);
    BootSafety.RunKeeps(s, acts, true);
    GuardedFrom(s, acts, true);
    StepKeeps(u, a, true);
    if OverTrial(u, a) {
      var more, end := Continues(u, a, TRIAL_MAX + 1);
      ManyLaunches(end, ActiveOf(u), TRIAL_MAX + 1);
      assert Overlaunched(After(Step(u, a), more));
    } else {
      GuardedStep(u, a, true);
      forall more: seq<Act> | Legal(Step(u, a), more) && Guarded(Step(u, a), more)
        ensures !Overlaunched(After(Step(u, a), more))
      {
        GuardedFrom(Step(u, a), more, true);
      }
    }
  }

  lemma ManyLaunches(s: System, slot: u32, n: nat)
    requires n > TRIAL_MAX && HistoryOf(s, slot).Abandoned? && HistoryOf(s, slot).launches >= n
    ensures Overlaunched(s)
  {
  }

  // ---------------------------------------------------------------- a run that breaks the promise

  /** The host's update for `img`, undisturbed. */
  function UpdateBytes(img: seq<byte>): seq<Rx>
    requires |img| <= DfuSender.MAX_IMAGE
  {
    [] + OnLine(TRIGGER_BYTES) + [] + Transmit(Script(img))
  }

  predicate Marked(img: seq<byte>) {
    MARKER_OFFSET + 4 <= |img| <= DfuSender.MAX_IMAGE && WordAt(img, MARKER_OFFSET) == APP_MAGIC
  }

  function Update(img: seq<byte>): Act
    requires Marked(img)
  {
    Try(Unstarted(CRC_INIT, 0, Zeros(SECTOR_SIZE)), UpdateBytes(img))
  }

  lemma SmallExtent(s: Session, img: seq<byte>)
    requires |img| <= DfuSender.MAX_IMAGE && s.stream == Pad4(img)
    ensures Extent(s) <= 130
  {
  }

  /** A board that goes into an update session commits the host's image. */
  lemma UpdateCommits(s: System, img: seq<byte>)
    requires Marked(img) && s.stage.Deciding? && !(s.stage.retries > 0 && !s.f.dfuRequested && s.w.crcOk)
    ensures Allowed(s, Update(img)) && Commits(s, Update(img))
  {
    hide Receive, WordAt, Sized, Fresh, Script, Carries, Transmit, OnLine, Holds, CommittedTo, SessionInv, Extent, Pad4;
    var s0, input := Unstarted(CRC_INIT, 0, Zeros(SECTOR_SIZE)), UpdateBytes(img);
    TransmissionQuiet(img);
    EndToEnd(s.w, s0, [], [], Script(img), img);
    SessionKeeps(s.w, s0, input);
    DoneIsApp(s.w, Receive(s.w, s0, input).0, Receive(s.w, s0, input).1);
    SmallExtent(Receive(s.w, s0, input).1, img);
    StaysInsideExactly(s.w, s0, input);
  }

  lemma DoneIsApp(w0: World, w: World, s: Session)
    requires SessionInv(w0, w, s) && s.phase == Done
    ensures !s.selfUpdate
  {
    hide CommittedTo, Complete, Reassembled;
  }

  ghost predicate Runs(s: System, acts: seq<Act>, t: System) { Legal(s, acts) && NoConfirm(acts) && After(s, acts) == t }

  lemma RunsOn(s: System, a: Act, acts: seq<Act>, t: System)
    requires Allowed(s, a) && !a.Confirm? && Runs(Step(s, a), acts, t)
    ensures Runs(s, [a] + acts, t)
  {
    hide Step, Possible, Receive, Sized, NoRollback;
    assert ([a] + acts)[1..] == acts;
  }

  /** An empty flash: no image, no metadata. */
  const Blank: System := System(World(map[], DefaultMeta, false, []), Flags(false, Cold, false), Off, Settled, Settled)

  lemma ZeroWord(n: nat, p: nat)
    requires p + 4 <= n
    ensures WordAt(Zeros(n), p) == 0
  {
  }

  lemma BlankFlash()
    ensures MetaOf(map[]) == DefaultMeta
    ensures !ValidImage(map[], SECTOR_APP_A)
    ensures HeaderFits(map[], SECTOR_APP_A) && HeaderFits(map[], SECTOR_APP_B)
  {
    hide Checksum, WordAt, Zeros;
    ZeroWord(SECTOR_SIZE, 0);
    ZeroWord(SECTOR_SIZE, 4);
  }

  lemma BlankBoard()
    ensures FactoryState(Blank) && PendingChecked(Blank) && Stored(Blank) == DefaultMeta
    ensures !ValidImage(Blank.w.flash, SECTOR_APP_A)
  {
    hide MetaOf, ValidImage, HeaderFits;
    BlankFlash();
  }

  /** The first boot of an empty board waits for an update. */
  lemma FirstBoot()
    ensures Allowed(Blank, Init)
    ensures var s := Step(Blank, Init);
      s.stage == Deciding(NUM_RETRIES) && !s.w.crcOk && Stored(s).activeSlot == SLOT_A && Stored(s).trial == 0
  {
    hide ValidImage, DecodeMeta, EncodeMeta;
    BlankBoard();
    MetaWriteFrame(Blank.w.flash, Judge(DefaultMeta));
    hide MetaOf, WriteMeta;
  }

  /** A commit to slot B, entered at once. */
  lemma FirstCommit(s: System, a: Act)
    requires BootInv(s, true) && Allowed(s, a) && Commits(s, a) && Stored(s).activeSlot == SLOT_A && Stored(s).trial == 0
    ensures var t := Step(s, a);
      && t.stage == Running && t.b == OnTrial(1)
      && Stored(t).activeSlot == SLOT_B && Stored(t).trial == 1 && Stored(t).bootCount == 0 && Stored(t).resetCount == 0
      && ValidImage(t.w.flash, SECTOR_APP_B)
  {
    hide ValidImage, HeaderFits, Receive, Sized, Fresh, EncodeMeta, DecodeMeta;
    var v := Receive(s.w, a.s0, a.input).0;
    EndingIs(s.w, a.s0, a.input);
    SessionCommitted(s.w, a.s0, a.input);
    MetaWriteFrame(v.flash, v.meta.(resetCount := 0));
    hide MetaOf, WriteMeta;
  }

  /** The application on trial asks for another update. */
  lemma SecondBoot(s: System)
    requires s.stage == Running && s.b == OnTrial(1) && Stored(s).activeSlot == SLOT_B && Stored(s).trial == 1 && Stored(s).bootCount == 0
    requires NoRollback(Stored(s))
    ensures Allowed(s, RequestDfu) && Allowed(Step(s, RequestDfu), Init)
    ensures var t := Step(Step(s, RequestDfu), Init);
      t.stage == Deciding(NUM_RETRIES) && t.f.dfuRequested && t.b == OnTrial(1) && Stored(t).activeSlot == SLOT_B && Stored(t).trial == 1
  {
    hide ValidImage, DecodeMeta, EncodeMeta;
    var m := Stored(s);
    MetaWriteFrame(s.w.flash, Judge(m));
    hide MetaOf, WriteMeta;
  }

  lemma TwoSteps(s: System, a: Act, b: Act)
    requires BootInv(s, true) && Allowed(s, a) && Allowed(Step(s, a), b)
    ensures BootInv(Step(Step(s, a), b), true)
  {
    hide BootInv, Step, Possible, Receive, Sized, NoRollback;
    StepKeeps(s, a, true);
    StepKeeps(Step(s, a), b, true);
  }

  lemma InvNoRollback(s: System)
    requires BootInv(s, true)
    ensures NoRollback(Stored(s))
  {
    hide ValidImage, MetaOf, HeaderFits;
  }

  lemma GoesRuns(s: System, acts: seq<Act>, t: System)
    requires Goes(s, acts, t)
    ensures Runs(s, acts, t)
  {
    hide Legal, After, Guarded, NoConfirm;
  }

  /** For every image: updated twice with it, and never confirming, an empty board comes to launch
      the copy in slot B a fourth time. */
  lemma FourthLaunch(img: seq<byte>) returns (acts: seq<Act>, end: System)
    requires Marked(img)
    ensures FactoryState(Blank) && Runs(Blank, acts, end) && end.b == Abandoned(TRIAL_MAX + 1)
  {
    hide BootInv, Step, Possible, Commits, Runs, Goes, UpdateBytes, FactoryState, PendingChecked,
         Marked, MetaOf, NoRollback, ValidImage, Receive, Sized;
    BlankBoard();
    FirstBoot();
    var s1 := Step(Blank, Init);
    FactoryInv(Blank);
    StepKeeps(Blank, Init, true);
    UpdateCommits(s1, img);
    FirstCommit(s1, Update(img));
    var s2 := Step(s1, Update(img));
    StepKeeps(s1, Update(img), true);
    InvNoRollback(s2);
    SecondBoot(s2);
    var s3 := Step(s2, RequestDfu);
    var s4 := Step(s3, Init);
    TwoSteps(s2, RequestDfu, Init);
    UpdateCommits(s4, img);
    acts, end := Continues(s4, Update(img), TRIAL_MAX);
    GoesRuns(Step(s4, Update(img)), acts, end);
    RunsOn(s4, Update(img), acts, end);
    RunsOn(s3, Init, [Update(img)] + acts, end);
    RunsOn(s2, RequestDfu, [Init] + ([Update(img)] + acts), end);
    RunsOn(s1, Update(img), [RequestDfu] + ([Init] + ([Update(img)] + acts)), end);
    acts := [Update(img)] + ([RequestDfu] + ([Init] + ([Update(img)] + acts)));
    RunsOn(Blank, Init, acts, end);
    acts := [Init] + acts;
  }

  // ---------------------------------------------------------------- what the rollback policy does to it

  /** A run of possible, unconfirmed acts, whatever the policy. */
  ghost predicate Unchecked(s: System, acts: seq<Act>, t: System)
    decreases |acts|
  {
    if acts == [] then s == t
    else Possible(s, acts[0]) && !acts[0].Confirm? && Unchecked(Step(s, acts[0]), acts[1..], t)
  }

  lemma {:induction false} UncheckedOn(s: System, a: Act, acts: seq<Act>, t: System)
    requires Possible(s, a) && !a.Confirm? && Unchecked(Step(s, a), acts, t)
    ensures Unchecked(s, [a] + acts, t)
  {
    hide Step, Possible, Receive, Sized, NoRollback;
    assert ([a] + acts)[1..] == acts;
  }

  /** The valid image in slot B is on trial, booted and reset `c` times since its commit, and was
      launched `n` times; the policy is ROLLBACK after more than two resets. */
  ghost predicate TwoResets(s: System, c: nat, n: nat) {
    && s.stage == Running && s.b == OnTrial(n) && ValidImage(s.w.flash, SECTOR_APP_B)
    && var m := Stored(s);
      && m.activeSlot == SLOT_B && m.trial == 1 && m.bootCount == m.resetCount == c
      && m.tolerance == 2 && m.policy == POLICY_ROLLBACK
  }

  const Rollback: Act := Configure(2, POLICY_ROLLBACK)

  lemma {:induction false} RollbackSet(s: System)
    requires s.stage == Running && s.b == OnTrial(1) && ValidImage(s.w.flash, SECTOR_APP_B)
    requires Stored(s).activeSlot == SLOT_B && Stored(s).trial == 1 && Stored(s).bootCount == 0 && Stored(s).resetCount == 0
    ensures Possible(s, Rollback) && TwoResets(Step(s, Rollback), 0, 1)
  {
    hide ValidImage, HeaderFits, EncodeMeta, DecodeMeta;
    MetaWriteFrame(s.w.flash, Stored(s).(tolerance := 2, policy := POLICY_ROLLBACK));
    assert SlotToSector(SLOT_B) == SECTOR_APP_B;
    hide MetaOf, WriteMeta;
  }

  /** One more power cycle: slot B stays active, on the third one because it is left twice. */
  lemma {:induction false} RollbackBoot(s: System, c: nat, n: nat)
    requires TwoResets(s, c, n) && c <= 2
    ensures Possible(s, PowerCycle) && Possible(Step(s, PowerCycle), Init)
    ensures var t := Step(Step(s, PowerCycle), Init);
      && t.stage == Deciding(NUM_RETRIES) && !t.f.dfuRequested && t.w.crcOk && t.b == OnTrial(n)
      && ValidImage(t.w.flash, SECTOR_APP_B) && Stored(t).activeSlot == SLOT_B
      && Stored(t) == if c < 2 then Stored(s).(bootCount := c + 1, resetCount := c + 1)
                      else Stored(s).(trial := 0, bootCount := 0, resetCount := 0)
  {
    hide ValidImage, HeaderFits, DecodeMeta, EncodeMeta;
    var m := Stored(s);
    MetaWriteFrame(s.w.flash, Judge(m));
    hide MetaOf, WriteMeta;
  }

  const Quietly: Act := Try(Unstarted(CRC_INIT, 0, Zeros(SECTOR_SIZE)), [])

  lemma {:induction false} LaunchAgain(t: System, n: nat)
    requires t.stage == Deciding(NUM_RETRIES) && !t.f.dfuRequested && t.w.crcOk && t.b == OnTrial(n) && Stored(t).activeSlot == SLOT_B
    ensures Possible(t, Quietly)
    ensures var r := Step(t, Quietly);
      r.stage == Running && r.b == OnTrial(n + 1) && Stored(r) == Stored(t) && r.w == t.w
  {
    hide MetaOf, Receive;
  }

  /** Boot after boot, until the trial is over with slot B still active. */
  lemma {:induction false} RollbackBoots(s: System, c: nat, n: nat) returns (acts: seq<Act>, t: System)
    requires TwoResets(s, c, n) && c <= 2
    ensures Unchecked(s, acts, t)
    ensures t.stage == Running && t.b == OnTrial(n + 3 - c) && Stored(t).activeSlot == SLOT_B && Stored(t).trial == 0
    decreases 3 - c
  {
    hide Step, Possible, ValidImage, MetaOf, Receive, Sized, NoRollback;
    RollbackBoot(s, c, n);
    var u := Step(s, PowerCycle);
    var v := Step(u, Init);
    LaunchAgain(v, n);
    t := Step(v, Quietly);
    acts := [];
    if c < 2 {
      acts, t := RollbackBoots(t, c + 1, n + 1);
    }
    UncheckedOn(v, Quietly, acts, t);
    UncheckedOn(u, Init, [Quietly] + acts, t);
    UncheckedOn(s, PowerCycle, [Init] + ([Quietly] + acts), t);
    acts := [PowerCycle] + ([Init] + ([Quietly] + acts));
  }

  /** For every image: committed to slot B of an empty board, launched with the ROLLBACK policy
      and a tolerance of two resets, and never confirmed, it is launched a fourth time, slot B
      being active and off trial then: in the third boot both slot changes fire. */
  lemma {:induction false} RollbackBreaks(img: seq<byte>) returns (acts: seq<Act>, end: System)
    requires Marked(img)
    ensures Unchecked(Blank, acts, end)
    ensures end.stage == Running && end.b == OnTrial(TRIAL_MAX + 1)
    ensures Stored(end).activeSlot == SLOT_B && Stored(end).trial == 0
  {
    hide BootInv, Step, Possible, Commits, Unchecked, UpdateBytes, FactoryState, PendingChecked,
         Marked, MetaOf, NoRollback, ValidImage, Receive, Sized;
    BlankBoard();
    FirstBoot();
    var s1 := Step(Blank, Init);
    FactoryInv(Blank);
    StepKeeps(Blank, Init, true);
    UpdateCommits(s1, img);
    FirstCommit(s1, Update(img));
    var s2 := Step(s1, Update(img));
    RollbackSet(s2);
    acts, end := RollbackBoots(Step(s2, Rollback), 0, 1);
    UncheckedOn(s2, Rollback, acts, end);
    UncheckedOn(s1, Update(img), [Rollback] + acts, end);
    acts := [Update(img)] + ([Rollback] + acts);
    UncheckedOn(Blank, Init, acts, end);
    acts := [Init] + acts;
  }
}
