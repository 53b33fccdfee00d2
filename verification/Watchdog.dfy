/** The multicore watchdog gate: any number of cores run watchdog_core_kick one load or store at
    a time. */
module WatchdogGate {
  /** Where a core is inside watchdog_core_kick; `mask` is the expected set it loaded. */
  datatype Pc =
    | Idle
    | LoadMask                             // own flag stored
    | Check(i: nat, mask: set<nat>)        // about to look at core i's flag
    | Clear(i: nat)                        // about to clear core i's flag
    | Kick                                 // about to write PM_WDOG

  /** `kicks` counts the hardware kicks each core has made. */
  datatype Gate = Gate(flag: seq<bool>, expected: set<nat>, pc: seq<Pc>, kicks: seq<nat>)

  predicate Valid(g: Gate) {
    |g.flag| == |g.pc| == |g.kicks|
  }

  datatype Event =
    | Run(core: nat)          // one load or store of that core
    | Expect(core: nat)       // companion_core_start adds a core to expected_mask

  predicate Enabled(g: Gate, e: Event) {
    Valid(g) && e.core < |g.pc|
  }

  function At(g: Gate, c: nat, pc: Pc): Gate
    requires c < |g.pc|
  {
    g.(pc := g.pc[c := pc])
  }

  function Next(g: Gate, e: Event): (r: Gate)
    requires Enabled(g, e)
    ensures Valid(r) && |r.pc| == |g.pc|
  {
    var c := e.core;
    match e
    case Expect(_) => g.(expected := g.expected + {c})
    case Run(_) =>
      match g.pc[c]
      case Idle => At(g.(flag := g.flag[c := true]), c, LoadMask)
      case LoadMask => At(g, c, Check(0, g.expected))
      case Check(i, mask) =>
        if i >= |g.flag| then At(g, c, Clear(0))
        else if i in mask && !g.flag[i] then At(g, c, Idle)
        else At(g, c, Check(i + 1, mask))
      case Clear(i) =>
        if i >= |g.flag| then At(g, c, Kick)
        else At(g.(flag := g.flag[i := false]), c, Clear(i + 1))
      case Kick => At(g.(kicks := g.kicks[c := g.kicks[c] + 1]), c, Idle)
  }

  // ---------------------------------------------------------------- a core that never reports

  ghost predicate Legal(g: Gate, es: seq<Event>)
    decreases |es|
  {
    es == [] || (Enabled(g, es[0]) && Legal(Next(g, es[0]), es[1..]))
  }

  ghost function After(g: Gate, es: seq<Event>): Gate
    requires Legal(g, es)
    decreases |es|
  {
    if es == [] then g else After(Next(g, es[0]), es[1..])
  }

  /** Core `d` takes no step in the run; any core may still be added to the expected set. */
  ghost predicate Silent(d: nat, es: seq<Event>) {
    forall i | 0 <= i < |es| :: es[i] != Run(d)
  }

  /** A core that is about to see core `d`'s missing report, or has not looked yet. */
  predicate Blocked(pc: Pc, d: nat) {
    match pc
    case Idle | LoadMask => true
    case Check(i, mask) => d in mask && i <= d
    case Clear(_) | Kick => false
  }

  ghost predicate Shut(g: Gate, d: nat) {
    && Valid(g) && d < |g.pc| && d in g.expected && !g.flag[d]
    && forall c | 0 <= c < |g.pc| && c != d :: Blocked(g.pc[c], d)
  }

  lemma ShutStays(g: Gate, e: Event, d: nat)
    requires Shut(g, d) && Enabled(g, e) && e != Run(d)
    ensures Shut(Next(g, e), d) && Next(g, e).kicks == g.kicks
  {
  }

  /** While an expected core has not reported, nobody kicks: not once, however the others'
      loads and stores interleave. */
  lemma {:induction false} NeverReportsNeverKicks(g: Gate, es: seq<Event>, d: nat)
    requires Shut(g, d) && Legal(g, es) && Silent(d, es)
    ensures After(g, es).kicks == g.kicks
    decreases |es|
  {
    if es != [] {
      assert es[0] != Run(d);
      ShutStays(g, es[0], d);
      NeverReportsNeverKicks(Next(g, es[0]), es[1..], d);
    }
  }

  /** The cores started in the run. */
  function StartedBy(es: seq<Event>): set<nat> {
    if es == [] then {} else (if es[0].Expect? then {es[0].core} else {}) + StartedBy(es[1..])
  }

  /** Over any run, the cores that have to report are those that had to before and those started
      since: none is forgotten, and no kick changes that. */
  lemma {:induction false} ExpectedExactly(g: Gate, es: seq<Event>)
    requires Legal(g, es)
    ensures After(g, es).expected == g.expected + StartedBy(es)
    decreases |es|
  {
    if es != [] {
      ExpectedExactly(Next(g, es[0]), es[1..]);
    }
  }

  // ---------------------------------------------------------------- a core that stops

  /** How many more kicks core state `pc` can lead to, when core `d` no longer reports and its
      flag is as given. */
  function Budget(pc: Pc, d: nat, reported: bool): nat {
    match pc
    case Idle | LoadMask => if reported then 1 else 0
    case Check(i, mask) => if d in mask && i <= d && !reported then 0 else 1
    case Clear(i) => if i <= d || !reported then 1 else 2
    case Kick => if reported then 2 else 1
  }

  lemma BudgetFalls(g: Gate, e: Event, d: nat, c: nat)
    requires Enabled(g, e) && e != Run(d) && d < |g.pc| && c < |g.pc| && c != d && d in g.expected
    ensures var r := Next(g, e);
      && d in r.expected && (r.flag[d] ==> g.flag[d])
      && r.kicks[c] + Budget(r.pc[c], d, r.flag[d]) <= g.kicks[c] + Budget(g.pc[c], d, g.flag[d])
  {
  }

  lemma {:induction false} BudgetHolds(g: Gate, es: seq<Event>, d: nat, c: nat)
    requires Valid(g) && Legal(g, es) && Silent(d, es) && d < |g.pc| && c < |g.pc| && c != d && d in g.expected
    ensures var r := After(g, es); |r.kicks| == |g.pc| && r.kicks[c] <= g.kicks[c] + Budget(g.pc[c], d, g.flag[d])
    decreases |es|
  {
    if es != [] {
      assert es[0] != Run(d);
      BudgetFalls(g, es[0], d, c);
      BudgetHolds(Next(g, es[0]), es[1..], d, c);
    }
  }

  /** Once an expected core stops, wherever everyone was, each other core kicks at most twice
      more. */
  lemma {:induction false} StopsReporting(g: Gate, es: seq<Event>, d: nat, c: nat)
    requires Valid(g) && Legal(g, es) && Silent(d, es) && d < |g.pc| && c < |g.pc| && c != d && d in g.expected
    ensures var r := After(g, es); |r.kicks| == |g.pc| && r.kicks[c] <= g.kicks[c] + 2
  {
    BudgetHolds(g, es, d, c);
  }

  /** Core `c` runs `n` steps undisturbed. */
  ghost function Alone(g: Gate, c: nat, n: nat): (r: Gate)
    requires Valid(g) && c < |g.pc|
    ensures Valid(r) && |r.pc| == |g.pc|
    decreases n
  {
    if n == 0 then g else Alone(Next(g, Run(c)), c, n - 1)
  }

  lemma {:induction false} AloneIsRun(g: Gate, c: nat, n: nat)
    requires Valid(g) && c < |g.pc|
    ensures var es := seq(n, _ => Run(c)); Legal(g, es) && After(g, es) == Alone(g, c, n)
    decreases n
  {
    var es := seq(n, _ => Run(c));
    if n > 0 {
      AloneIsRun(Next(g, Run(c)), c, n - 1);
      assert es[1..] == seq(n - 1, _ => Run(c));
    }
  }

  lemma {:induction false} AloneSplit(g: Gate, c: nat, m: nat, n: nat)
    requires Valid(g) && c < |g.pc|
    ensures Alone(g, c, m + n) == Alone(Alone(g, c, m), c, n)
    decreases m
  {
    if m > 0 { AloneSplit(Next(g, Run(c)), c, m - 1, n); }
  }

  lemma {:induction false} AfterConcat(g: Gate, a: seq<Event>, b: seq<Event>)
    requires Legal(g, a) && Legal(After(g, a), b)
    ensures Legal(g, a + b) && After(g, a + b) == After(After(g, a), b)
    decreases |a|
  {
    hide Next, Enabled;
    if a == [] {
      assert a + b == b;
    } else {
      assert (a + b)[1..] == a[1..] + b;
      AfterConcat(Next(g, a[0]), a[1..], b);
    }
  }

  // ---------------------------------------------------------------- a whole call, undisturbed

  /** Every expected core from `i` on has reported. */
  predicate Reported(g: Gate, mask: set<nat>, i: nat) { forall j | i <= j < |g.flag| && j in mask :: g.flag[j] }

  /** The scan of the flags: on to the clearing loop if all reported, out of the call if not. */
  lemma {:induction false} ScanAlone(g: Gate, c: nat, i: nat, mask: set<nat>) returns (n: nat)
    requires Valid(g) && c < |g.pc| && g.pc[c] == Check(i, mask) && i <= |g.flag|
    ensures Alone(g, c, n) == At(g, c, if Reported(g, mask, i) then Clear(0) else Idle)
    decreases |g.flag| - i
  {
    var r := Next(g, Run(c));
    if i >= |g.flag| || (i in mask && !g.flag[i]) {
      n := 1;
      AloneNext(g, c, 1);
      AloneNext(r, c, 0);
    } else {
      n := ScanAlone(r, c, i + 1, mask);
      assert At(r, c, if Reported(r, mask, i + 1) then Clear(0) else Idle) == At(g, c, if Reported(g, mask, i) then Clear(0) else Idle);
      n := n + 1;
      AloneNext(g, c, n);
    }
  }

  /** The clearing loop, and the kick behind it. */
  lemma {:induction false} ClearAlone(g: Gate, c: nat, i: nat) returns (n: nat)
    requires Valid(g) && c < |g.pc| && g.pc[c] == Clear(i) && i <= |g.flag| && forall j | 0 <= j < i :: !g.flag[j]
    ensures Alone(g, c, n) == g.(flag := seq(|g.flag|, _ => false), pc := g.pc[c := Idle], kicks := g.kicks[c := g.kicks[c] + 1])
    decreases |g.flag| - i
  {
    var r := Next(g, Run(c));
    if i >= |g.flag| {
      n := 2;
      AloneNext(g, c, 2);
      AloneNext(r, c, 1);
      AloneNext(Next(r, Run(c)), c, 0);
      assert g.flag == seq(|g.flag|, _ => false);
    } else {
      n := ClearAlone(r, c, i + 1);
      n := n + 1;
      AloneNext(g, c, n);
      assert r.pc[c := Idle] == g.pc[c := Idle];
    }
  }

  /** A core that runs its call undisturbed kicks the hardware, once, exactly if every other
      expected core has reported, and then all reports are cleared; otherwise its own report stays
      with the others'. */
  lemma {:induction false} CallAlone(g: Gate, c: nat) returns (n: nat)
    requires Valid(g) && c < |g.pc| && g.pc[c] == Idle
    ensures var all := forall j | 0 <= j < |g.flag| && j in g.expected && j != c :: g.flag[j];
      Alone(g, c, n) == if all then g.(flag := seq(|g.flag|, _ => false), kicks := g.kicks[c := g.kicks[c] + 1])
                        else g.(flag := g.flag[c := true])
  {
    var r := Next(g, Run(c));
    var s := Next(r, Run(c));
    AloneNext(g, c, 2);
    AloneNext(r, c, 1);
    AloneNext(s, c, 0);
    var a := ScanAlone(s, c, 0, s.expected);
    AloneSplit(g, c, 2, a);
    n := 2 + a;
    var all := forall j | 0 <= j < |g.flag| && j in g.expected && j != c :: g.flag[j];
    assert all <==> Reported(s, s.expected, 0) by { assert forall j | 0 <= j < |g.flag| :: s.flag[j] == (j == c || g.flag[j]); }
    var u := Alone(g, c, n);
    if all {
      var b := ClearAlone(u, c, 0);
      AloneSplit(g, c, n, b);
      n := n + b;
    }
    assert g.pc[c := LoadMask][c := Check(0, g.expected)][c := Idle] == g.pc;
    assert u.pc[c := Idle] == g.pc;
  }

  /** Two cores, both expected; core 1 somewhere in its code with its report in, core 0 about to
      report: eight steps later core 0 has cleared the reports and is about to kick. */
  lemma Round(p: Pc, k: nat)
    ensures Alone(Gate([false, true], {0, 1}, [Idle, p], [k, 0]), 0, 8) == Gate([false, false], {0, 1}, [Kick, p], [k, 0])
  {
    hide Alone;
    var g := Gate([false, true], {0, 1}, [Idle, p], [k, 0]);
    AloneNext(g, 0, 8);
    var g1 := Next(g, Run(0));
    assert g1 == Gate([true, true], {0, 1}, [LoadMask, p], [k, 0]);
    AloneNext(g1, 0, 7);
    var g2 := Next(g1, Run(0));
    assert g2 == Gate([true, true], {0, 1}, [Check(0, {0, 1}), p], [k, 0]);
    AloneNext(g2, 0, 6);
    var g3 := Next(g2, Run(0));
    assert g3 == Gate([true, true], {0, 1}, [Check(1, {0, 1}), p], [k, 0]);
    AloneNext(g3, 0, 5);
    var g4 := Next(g3, Run(0));
    assert g4 == Gate([true, true], {0, 1}, [Check(2, {0, 1}), p], [k, 0]);
    AloneNext(g4, 0, 4);
    var g5 := Next(g4, Run(0));
    assert g5 == Gate([true, true], {0, 1}, [Clear(0), p], [k, 0]);
    AloneNext(g5, 0, 3);
    var g6 := Next(g5, Run(0));
    assert g6 == Gate([false, true], {0, 1}, [Clear(1), p], [k, 0]);
    AloneNext(g6, 0, 2);
    var g7 := Next(g6, Run(0));
    assert g7 == Gate([false, false], {0, 1}, [Clear(2), p], [k, 0]);
    AloneNext(g7, 0, 1);
    AloneNext(Next(g7, Run(0)), 0, 0);
  }

  /** Core 1 reports, gives up seeing no report of core 0, and reports again. */
  lemma ReportsTwice()
    ensures Alone(Gate([false, false], {0, 1}, [Idle, Idle], [0, 0]), 1, 1) == Gate([false, true], {0, 1}, [Idle, LoadMask], [0, 0])
    ensures Alone(Gate([false, false], {0, 1}, [Kick, LoadMask], [0, 0]), 1, 3) == Gate([false, true], {0, 1}, [Kick, LoadMask], [0, 0])
  {
    hide Alone;
    var s := Gate([false, false], {0, 1}, [Idle, Idle], [0, 0]);
    AloneNext(s, 1, 1);
    AloneNext(Next(s, Run(1)), 1, 0);
    var g := Gate([false, false], {0, 1}, [Kick, LoadMask], [0, 0]);
    AloneNext(g, 1, 3);
    var g1 := Next(g, Run(1));
    assert g1 == Gate([false, false], {0, 1}, [Kick, Check(0, {0, 1})], [0, 0]);
    AloneNext(g1, 1, 2);
    var g2 := Next(g1, Run(1));
    assert g2 == Gate([false, false], {0, 1}, [Kick, Idle], [0, 0]);
    AloneNext(g2, 1, 1);
    AloneNext(Next(g2, Run(1)), 1, 0);
  }

  /** After its last report core 0 kicks twice. */
  lemma {:induction false} KicksTwice(g: Gate)
    requires g == Gate([false, true], {0, 1}, [Kick, LoadMask], [0, 0])
    ensures var r := Alone(g, 0, 10); |r.kicks| == 2 && r.kicks[0] == 2
  {
    hide Alone;
    AloneNext(g, 0, 10);
    var g1 := Next(g, Run(0));
    assert g1 == Gate([false, true], {0, 1}, [Idle, LoadMask], [1, 0]);
    AloneSplit(g1, 0, 8, 1);
    Round(LoadMask, 1);
    var g2 := Gate([false, false], {0, 1}, [Kick, LoadMask], [1, 0]);
    AloneNext(g2, 0, 1);
    AloneNext(Next(g2, Run(0)), 0, 0);
  }

  /** Two is not too many.  From a gate where nobody has reported and nobody is inside the code, a
      run leads to a state from which core 1 does nothing any more, and core 0 kicks twice. */
  lemma TwoKicksHappen() returns (start: Gate, before: seq<Event>, es: seq<Event>)
    ensures start == Gate([false, false], {0, 1}, [Idle, Idle], [0, 0]) && Legal(start, before)
    ensures var g := After(start, before);
      && Silent(1, es) && Legal(g, es)
      && |g.kicks| == |After(g, es).kicks| == 2 && After(g, es).kicks[0] == g.kicks[0] + 2
  {
    hide Alone, After, Legal;
    start := Gate([false, false], {0, 1}, [Idle, Idle], [0, 0]);
    ReportsTwice();
    Round(LoadMask, 0);
    var g1 := Gate([false, true], {0, 1}, [Idle, LoadMask], [0, 0]);
    var g2 := Gate([false, false], {0, 1}, [Kick, LoadMask], [0, 0]);
    var g := Gate([false, true], {0, 1}, [Kick, LoadMask], [0, 0]);
    var a, b, c := seq(1, _ => Run(1)), seq(8, _ => Run(0)), seq(3, _ => Run(1));
    AloneIsRun(start, 1, 1);
    AloneIsRun(g1, 0, 8);
    AloneIsRun(g2, 1, 3);
    AfterConcat(start, a, b);
    AfterConcat(start, a + b, c);
    before := a + b + c;
    es := seq(10, _ => Run(0));
    AloneIsRun(g, 0, 10);
    KicksTwice(g);
  }

  lemma AloneNext(g: Gate, c: nat, n: nat)
    requires Valid(g) && c < |g.pc|
    ensures Alone(g, c, n) == if n == 0 then g else Alone(Next(g, Run(c)), c, n - 1)
  {
  }

  // ---------------------------------------------------------------- the flags in memory

  /** The shared flags, each core's place in the code, and the hardware kicks so far. */
  class CompanionCores {
    const flag: array<bool>
    const pc: array<Pc>
    const kicks: array<nat>
    var expected: set<nat>

    ghost predicate Fitting()
      reads this, flag, pc, kicks
    {
      flag.Length == pc.Length == kicks.Length
    }

    ghost function Abs(): Gate
      reads this, flag, pc, kicks
    {
      Gate(flag[..], expected, pc[..], kicks[..])
    }

    constructor (cores: nat)
      ensures Fitting() && fresh(flag) && fresh(pc) && fresh(kicks)
      ensures Abs() == Gate(seq(cores, _ => false), {}, seq(cores, _ => Idle), seq(cores, _ => 0))
    {
      flag := new bool[cores](_ => false);
      pc := new Pc[cores](_ => Idle);
      kicks := new nat[cores](_ => 0);
      expected := {};
    }

    /** Core `c` makes its next load or store. */
    method Access(c: nat)
      requires Fitting() && c < pc.Length
      modifies flag, pc, kicks
      ensures Fitting() && Abs() == Next(old(Abs()), Run(c))
    {
      match pc[c] {
        case Idle =>
          flag[c] := true;
          pc[c] := LoadMask;
        case LoadMask =>
          pc[c] := Check(0, expected);
        case Check(i, mask) =>
          if i >= flag.Length {
            pc[c] := Clear(0);
          } else if i in mask && !flag[i] {
            pc[c] := Idle;
          } else {
            pc[c] := Check(i + 1, mask);
          }
        case Clear(i) =>
          if i >= flag.Length {
            pc[c] := Kick;
          } else {
            flag[i] := false;
            pc[c] := Clear(i + 1);
          }
        case Kick =>
          kicks[c] := kicks[c] + 1;
          pc[c] := Idle;
      }
    }
  }

  datatype KickStatus = KickOk | NotInitialized

  /** watchdog_core_kick from start to end with nobody else running: the hardware is kicked when
      every expected core has reported, and only then are the reports cleared. */
  method CoreKick(flag: array<bool>, me: nat, expected: set<nat>, initialized: bool, multicore: bool)
    returns (status: KickStatus, kicked: bool)
    requires me < flag.Length
    modifies flag
    ensures status == NotInitialized <==> !initialized
    ensures !initialized || !multicore ==> flag[..] == old(flag[..]) && kicked == initialized
    ensures initialized && multicore ==>
      (kicked <==> forall i | 0 <= i < flag.Length && i in expected && i != me :: old(flag[i]))
    ensures initialized && multicore ==>
      flag[..] == if kicked then seq(flag.Length, _ => false) else old(flag[..])[me := true]
  {
    if !initialized {
      return NotInitialized, false;
    }
    if !multicore {
      return KickOk, true;
    }
    flag[me] := true;
    for i := 0 to flag.Length
      invariant forall j | 0 <= j < i && j in expected :: flag[j]
    {
      if i in expected && !flag[i] {
        return KickOk, false;
      }
    }
    for i := 0 to flag.Length
      invariant forall j | 0 <= j < i :: !flag[j]
    {
      flag[i] := false;
    }
    return KickOk, true;
  }
}
