/** Lamport's Bakery lock as built by the kernel: a cross-core lock made only of loads and
    stores.  Every step below is one load or one store of one core; a run is any schedule of
    cores.  Memory is sequentially consistent and tickets are unbounded. */
module Spinlock {

  /** Where a core is inside acquire/release.  Each constructor names the next memory access. */
  datatype Pc =
    | Idle                              // outside; next: choosing[me] := 1
    | Scan(i: nat, max: nat)            // load ticket[i] into the running maximum
    | Draw(max: nat)                    // ticket[me] := max + 1
    | Publish                           // choosing[me] := 0
    | AwaitChoice(i: nat)               // load choosing[i]
    | AwaitTicket(i: nat)               // load ticket[i]
    | Compare(i: nat, their: nat)       // load ticket[me], test their > mine
    | TieBreak(i: nat, their: nat)      // load ticket[me], test their == mine && i > me
    | Inside                            // holds the lock; next: ticket[me] := 0

  /** One lock shared by |pc| cores. */
  datatype State = State(choosing: seq<bool>, ticket: seq<nat>, pc: seq<Pc>) {
    ghost predicate WellFormed() {
      |choosing| == |ticket| == |pc|
    }
  }

  function Init(n: nat): State {
    State(seq(n, _ => false), seq(n, _ => 0), seq(n, _ => Idle))
  }

  /** The next competitor at or after `i` that `me` has to wait for, or the critical section. */
  function WaitFrom(n: nat, me: nat, i: nat): Pc {
    var j := if i == me then i + 1 else i;
    if j < n then AwaitChoice(j) else Inside
  }

  /** Core `c` performs its next memory access. */
  function Step(s: State, c: nat): (t: State)
    requires s.WellFormed() && c < |s.pc|
    ensures t.WellFormed() && |t.pc| == |s.pc|
  {
    var n := |s.pc|;
    match s.pc[c]
    case Idle => s.(choosing := s.choosing[c := true], pc := s.pc[c := Scan(0, 0)])
    case Scan(i, max) =>
      if i < n then
        var seen := if s.ticket[i] > max then s.ticket[i] else max;
        s.(pc := s.pc[c := if i + 1 < n then Scan(i + 1, seen) else Draw(seen)])
      else s
    case Draw(max) => s.(ticket := s.ticket[c := max + 1], pc := s.pc[c := Publish])
    case Publish => s.(choosing := s.choosing[c := false], pc := s.pc[c := WaitFrom(n, c, 0)])
    case AwaitChoice(i) =>
      if i < n && !s.choosing[i] then s.(pc := s.pc[c := AwaitTicket(i)]) else s
    case AwaitTicket(i) =>
      if i >= n then s
      else if s.ticket[i] == 0 then s.(pc := s.pc[c := WaitFrom(n, c, i + 1)])
      else s.(pc := s.pc[c := Compare(i, s.ticket[i])])
    case Compare(i, their) =>
      if their > s.ticket[c] then s.(pc := s.pc[c := WaitFrom(n, c, i + 1)])
      else s.(pc := s.pc[c := TieBreak(i, their)])
    case TieBreak(i, their) =>
      if their == s.ticket[c] && i > c then s.(pc := s.pc[c := WaitFrom(n, c, i + 1)])
      else s.(pc := s.pc[c := AwaitTicket(i)])
    case Inside => s.(ticket := s.ticket[c := 0], pc := s.pc[c := Idle])
  }

  function Run(s: State, schedule: seq<nat>): (t: State)
    requires s.WellFormed() && forall k :: 0 <= k < |schedule| ==> schedule[k] < |s.pc|
    ensures t.WellFormed() && |t.pc| == |s.pc|
    decreases |schedule|
  {
    if schedule == [] then s else Run(Step(s, schedule[0]), schedule[1..])
  }

  // ---------------------------------------------------------------- invariant

  predicate Drawing(p: Pc) { p.Scan? || p.Draw? }

  predicate Waiting(p: Pc) { p.AwaitChoice? || p.AwaitTicket? || p.Compare? || p.TieBreak? }

  predicate HasTicket(p: Pc) { p.Publish? || p.Inside? || Waiting(p) }

  /** Lexicographic order on (ticket, core id). */
  predicate Earlier(ta: nat, a: nat, tb: nat, b: nat) {
    ta < tb || (ta == tb && a < b)
  }

  /** Core `b`, at `pb` with ticket `tb`, cannot overtake core `a`, which holds ticket `ta`:
      if it holds a ticket it is a later one, and if it is drawing one it has read `a`'s
      ticket or is still going to. */
  predicate Precedes(ta: nat, a: nat, pb: Pc, tb: nat, b: nat) {
    match pb
    case Idle => true
    case Scan(i, max) => i > a ==> max >= ta
    case Draw(max) => max >= ta
    case _ => Earlier(ta, a, tb, b)
  }

  /** A core at `p` has stopped waiting for core `j`. */
  predicate Passed(p: Pc, j: nat) {
    p.Inside? || (Waiting(p) && p.i > j)
  }

  /** A core at `p` has seen `j` not choosing and is now comparing tickets with it. */
  predicate Facing(p: Pc, j: nat) {
    Waiting(p) && !p.AwaitChoice? && p.i == j
  }

  /** What facing `j` already guarantees: any draw `j` makes from now on comes out larger. */
  predicate FacingOk(pa: Pc, ta: nat, a: nat, pj: Pc, tj: nat, j: nat) {
    && (Drawing(pj) ==> Precedes(ta, a, pj, tj, j))
    && (pa.Compare? || pa.TieBreak? ==>
          (HasTicket(pj) && tj == pa.their) || Precedes(ta, a, pj, tj, j))
    && (pa.TieBreak? ==> pa.their <= ta)
  }

  predicate LocalOk(n: nat, choosing: bool, p: Pc, t: nat, c: nat) {
    && (choosing <==> Drawing(p) || p.Publish?)
    && (t > 0 <==> HasTicket(p))
    && (p.Scan? ==> p.i < n)
    && (Waiting(p) ==> p.i < n && p.i != c)
  }

  /** What the invariant says about an ordered pair of cores. */
  predicate PairOk(pa: Pc, ta: nat, a: nat, pj: Pc, tj: nat, j: nat) {
    && (Passed(pa, j) ==> Precedes(ta, a, pj, tj, j))
    && (Facing(pa, j) ==> FacingOk(pa, ta, a, pj, tj, j))
  }

  predicate Local(s: State, c: nat)
    requires s.WellFormed() && c < |s.pc|
  {
    LocalOk(|s.pc|, s.choosing[c], s.pc[c], s.ticket[c], c)
  }

  predicate Pair(s: State, a: nat, j: nat)
    requires s.WellFormed() && a < |s.pc| && j < |s.pc|
  {
    PairOk(s.pc[a], s.ticket[a], a, s.pc[j], s.ticket[j], j)
  }

  ghost predicate Inv(s: State) {
    && s.WellFormed()
    && (forall c | 0 <= c < |s.pc| :: Local(s, c))
    && (forall a, j | 0 <= a < |s.pc| && 0 <= j < |s.pc| && a != j :: Pair(s, a, j))
  }

  lemma InitInv(n: nat)
    ensures Inv(Init(n))
  {
  }

  lemma StepLocal(s: State, c: nat, a: nat)
    requires s.WellFormed() && c < |s.pc| && a < |s.pc| && Local(s, a)
    ensures Local(Step(s, c), a)
  {
  }

  /** The waiting core of the pair moves. */
  lemma StepWaiter(s: State, a: nat, j: nat)
    requires s.WellFormed() && a < |s.pc| && j < |s.pc| && a != j
    requires Local(s, a) && Local(s, j) && Pair(s, a, j)
    ensures Pair(Step(s, a), a, j)
  {
  }

  /** The other core of the pair moves. */
  lemma StepOther(s: State, a: nat, j: nat)
    requires s.WellFormed() && a < |s.pc| && j < |s.pc| && a != j
    requires Local(s, a) && Local(s, j) && Pair(s, a, j)
    ensures Pair(Step(s, j), a, j)
  {
  }

  /** Every single load or store keeps the invariant. */
  lemma StepInv(s: State, c: nat)
    requires Inv(s) && c < |s.pc|
    ensures Inv(Step(s, c))
  {
    forall a | 0 <= a < |s.pc| ensures Local(Step(s, c), a) {
      StepLocal(s, c, a);
    }
    forall a, j | 0 <= a < |s.pc| && 0 <= j < |s.pc| && a != j ensures Pair(Step(s, c), a, j) {
      assert Pair(s, a, j);
      if a == c {
        StepWaiter(s, a, j);
      } else if j == c {
        StepOther(s, a, j);
      }
    }
  }

  lemma {:induction false} RunInv(s: State, schedule: seq<nat>)
    requires Inv(s) && forall k :: 0 <= k < |schedule| ==> schedule[k] < |s.pc|
    ensures Inv(Run(s, schedule))
    decreases |schedule|
  {
    if schedule != [] {
      StepInv(s, schedule[0]);
      RunInv(Step(s, schedule[0]), schedule[1..]);
    }
  }

  /** Mutual exclusion, for any number of cores and any interleaving of single accesses. */
  lemma {:induction false} MutualExclusion(n: nat, schedule: seq<nat>, a: nat, b: nat)
    requires forall k :: 0 <= k < |schedule| ==> schedule[k] < n
    requires a < n && b < n && a != b
    ensures !(Run(Init(n), schedule).pc[a].Inside? && Run(Init(n), schedule).pc[b].Inside?)
  {
    InitInv(n);
    RunInv(Init(n), schedule);
    var t := Run(Init(n), schedule);
    assert Pair(t, a, b) && Pair(t, b, a);
  }

  // ---------------------------------------------------------------- first come, first served

  /** `a` holds the lock in some state that `schedule` visits from `s`. */
  predicate EntersDuring(s: State, schedule: seq<nat>, a: nat)
    requires s.WellFormed() && a < |s.pc|
    requires forall k :: 0 <= k < |schedule| ==> schedule[k] < |s.pc|
    decreases |schedule|
  {
    s.pc[a].Inside? || (schedule != [] && EntersDuring(Step(s, schedule[0]), schedule[1..], a))
  }

  lemma StepPrecedes(s: State, c: nat, a: nat, b: nat)
    requires s.WellFormed() && c < |s.pc| && a < |s.pc| && b < |s.pc| && a != b
    requires Local(s, a) && Local(s, b) && HasTicket(s.pc[a]) && !s.pc[a].Inside?
    requires Precedes(s.ticket[a], a, s.pc[b], s.ticket[b], b)
    ensures var t := Step(s, c); Precedes(t.ticket[a], a, t.pc[b], t.ticket[b], b)
    ensures HasTicket(Step(s, c).pc[a])
  {
  }

  lemma {:induction false} OrderKept(s: State, schedule: seq<nat>, a: nat, b: nat)
    requires Inv(s) && a < |s.pc| && b < |s.pc| && a != b
    requires forall k :: 0 <= k < |schedule| ==> schedule[k] < |s.pc|
    requires HasTicket(s.pc[a])
    requires Precedes(s.ticket[a], a, s.pc[b], s.ticket[b], b)
    ensures EntersDuring(s, schedule, b) ==> EntersDuring(s, schedule, a)
    decreases |schedule|
  {
    assert Pair(s, b, a) && Local(s, a) && Local(s, b);
    if schedule != [] && !s.pc[a].Inside? {
      StepPrecedes(s, schedule[0], a, b);
      StepInv(s, schedule[0]);
      OrderKept(Step(s, schedule[0]), schedule[1..], a, b);
    }
  }

  /** Take any reachable state in which `a` has stored its ticket, its choosing flag perhaps still
      set, and `b` has not begun to draw one.  Whatever happens next, `b` cannot get in unless `a`
      did. */
  lemma {:induction false} FirstComeFirstServed(n: nat, before: seq<nat>, after: seq<nat>, a: nat, b: nat)
    requires forall k :: 0 <= k < |before| ==> before[k] < n
    requires forall k :: 0 <= k < |after| ==> after[k] < n
    requires a < n && b < n && a != b
    requires var s := Run(Init(n), before); HasTicket(s.pc[a]) && s.pc[b].Idle?
    ensures var s := Run(Init(n), before); EntersDuring(s, after, b) ==> EntersDuring(s, after, a)
  {
    InitInv(n);
    RunInv(Init(n), before);
    OrderKept(Run(Init(n), before), after, a, b);
  }

  // ---------------------------------------------------------------- deadlock freedom

  ghost function Choosers(s: State): set<nat>
    requires s.WellFormed()
  {
    set c: nat | c < |s.pc| && s.choosing[c]
  }

  /** A core that is drawing finishes without help: its own accesses take it out of the doorway. */
  lemma {:induction false} FinishDraw(s: State, d: nat) returns (schedule: seq<nat>)
    requires Inv(s) && d < |s.pc| && s.choosing[d]
    ensures forall k :: 0 <= k < |schedule| ==> schedule[k] < |s.pc|
    ensures var t := Run(s, schedule);
      && Inv(t) && !t.choosing[d] && !t.pc[d].Idle?
      && (forall c | 0 <= c < |s.pc| && c != d :: t.pc[c] == s.pc[c] && t.choosing[c] == s.choosing[c])
    decreases match s.pc[d] case Scan(i, _) => |s.pc| - i + 2 case Draw(_) => 2 case _ => 1
  {
    assert Local(s, d);
    StepInv(s, d);
    var t := Step(s, d);
    assert Local(t, d);
    if t.choosing[d] {
      var rest := FinishDraw(t, d);
      schedule := [d] + rest;
      assert schedule[1..] == rest;
    } else {
      schedule := [d];
      assert Run(s, schedule) == Run(t, []);
    }
  }

  /** `c` is ahead of everybody who holds a ticket, and nobody is drawing or inside. */
  ghost predicate Foremost(s: State, c: nat) {
    && Inv(s) && c < |s.pc| && Waiting(s.pc[c])
    && (forall j | 0 <= j < |s.pc| :: !s.choosing[j])
    && (forall j | 0 <= j < |s.pc| && j != c && HasTicket(s.pc[j]) :: Earlier(s.ticket[c], c, s.ticket[j], j))
  }

  predicate Cleared(tc: nat, c: nat, their: nat, i: nat) {
    their > tc || (their == tc && i > c)
  }

  /** How far `c` still has to go on competitor `i`; a stale reading costs one more round. */
  function Effort(p: Pc, tc: nat, c: nat): nat {
    match p
    case AwaitChoice(_) => 5
    case Compare(i, their) => if Cleared(tc, c, their, i) then 1 else 4
    case TieBreak(i, their) => if Cleared(tc, c, their, i) then 0 else 3
    case AwaitTicket(_) => 2
    case _ => 0
  }

  /** The foremost waiter enters by its own accesses alone. */
  lemma {:induction false} ForemostEnters(s: State, c: nat) returns (schedule: seq<nat>)
    requires Foremost(s, c)
    ensures forall k :: 0 <= k < |schedule| ==> schedule[k] < |s.pc|
    ensures Run(s, schedule).pc[c].Inside?
    decreases |s.pc| - s.pc[c].i, Effort(s.pc[c], s.ticket[c], c)
  {
    assert Local(s, c);
    var i := s.pc[c].i;
    assert Local(s, i) && Pair(s, c, i);
    StepInv(s, c);
    var t := Step(s, c);
    assert Local(t, c);
    if t.pc[c].Inside? {
      schedule := [c];
      assert Run(s, schedule) == Run(t, []);
    } else {
      var rest := ForemostEnters(t, c);
      schedule := [c] + rest;
      assert schedule[1..] == rest;
    }
  }

  lemma {:induction false} PickForemost(s: State, m: nat, seed: nat) returns (c: nat)
    requires s.WellFormed() && m <= |s.pc| && seed < |s.pc| && HasTicket(s.pc[seed])
    ensures c < |s.pc| && HasTicket(s.pc[c])
    ensures c == seed || Earlier(s.ticket[c], c, s.ticket[seed], seed)
    ensures forall j | 0 <= j < m && j != c && HasTicket(s.pc[j]) :: Earlier(s.ticket[c], c, s.ticket[j], j)
  {
    if m == 0 {
      c := seed;
    } else {
      c := PickForemost(s, m - 1, seed);
      if HasTicket(s.pc[m - 1]) && Earlier(s.ticket[m - 1], m - 1, s.ticket[c], c) {
        c := m - 1;
      }
    }
  }

  lemma {:induction false} RunConcat(s: State, first: seq<nat>, second: seq<nat>)
    requires s.WellFormed()
    requires forall k :: 0 <= k < |first| ==> first[k] < |s.pc|
    requires forall k :: 0 <= k < |second| ==> second[k] < |s.pc|
    ensures Run(s, first + second) == Run(Run(s, first), second)
    decreases |first|
  {
    if first == [] {
      assert first + second == second;
    } else {
      assert (first + second)[1..] == first[1..] + second;
      RunConcat(Step(s, first[0]), first[1..], second);
    }
  }

  /** Deadlock freedom: from every reachable state in which some core wants the lock and
      nobody holds it, there is a continuation after which some core holds it. */
  lemma {:induction false} DeadlockFree(s: State, seed: nat) returns (schedule: seq<nat>, c: nat)
    requires Inv(s) && seed < |s.pc| && !s.pc[seed].Idle?
    requires forall j | 0 <= j < |s.pc| :: !s.pc[j].Inside?
    ensures forall k :: 0 <= k < |schedule| ==> schedule[k] < |s.pc|
    ensures c < |s.pc| && Run(s, schedule).pc[c].Inside?
    decreases |Choosers(s)|
  {
    assert Local(s, seed);
    if d: nat :| d < |s.pc| && s.choosing[d] {
      var draw := FinishDraw(s, d);
      var t := Run(s, draw);
      if t.pc[d].Inside? {
        schedule, c := draw, d;
      } else {
        assert Choosers(t) <= Choosers(s) - {d};
        SubsetSmaller(Choosers(t), Choosers(s), d);
        assert !t.pc[seed].Idle?;
        var rest;
        rest, c := DeadlockFree(t, seed);
        schedule := draw + rest;
        RunConcat(s, draw, rest);
      }
    } else {
      c := PickForemost(s, |s.pc|, seed);
      assert Local(s, c);
      schedule := ForemostEnters(s, c);
    }
  }

  lemma SubsetSmaller(a: set<nat>, b: set<nat>, d: nat)
    requires a <= b - {d} && d in b
    ensures |a| < |b|
  {
    SubsetSize(a, b - {d});
  }

  lemma {:induction false} SubsetSize(a: set<nat>, b: set<nat>)
    requires a <= b
    ensures |a| <= |b|
    decreases |b|
  {
    if x :| x in a {
      SubsetSize(a - {x}, b - {x});
    }
  }

  // ---------------------------------------------------------------- the lock in memory

  /** The two shared arrays of the lock, with each core's program counter beside them. */
  class SharedLock {
    const choosing: array<bool>
    const ticket: array<nat>
    const pc: array<Pc>

    ghost predicate Valid()
      reads this, choosing, ticket, pc
    {
      choosing.Length == ticket.Length == pc.Length && Inv(Memory())
    }

    ghost function Memory(): (s: State)
      reads this, choosing, ticket, pc
    {
      State(choosing[..], ticket[..], pc[..])
    }

    constructor (n: nat)
      ensures Valid() && fresh(choosing) && fresh(ticket) && fresh(pc)
      ensures Memory() == Init(n)
    {
      choosing := new bool[n](_ => false);
      ticket := new nat[n](_ => 0);
      pc := new Pc[n](_ => Idle);
      new;
      InitInv(n);
      assert Memory() == Init(n);
    }

    /** Core `c` makes its next access to the shared arrays, in place. */
    method Access(c: nat)
      requires Valid() && c < pc.Length
      modifies choosing, ticket, pc
      ensures Valid() && Memory() == Step(old(Memory()), c)
    {
      ghost var before := Memory();
      StepInv(before, c);
      assert Local(before, c);
      var n := pc.Length;
      match pc[c] {
        case Idle =>
          choosing[c] := true;
          pc[c] := Scan(0, 0);
        case Scan(i, max) =>
          var seen := if ticket[i] > max then ticket[i] else max;
          pc[c] := if i + 1 < n then Scan(i + 1, seen) else Draw(seen);
        case Draw(max) =>
          ticket[c] := max + 1;
          pc[c] := Publish;
        case Publish =>
          choosing[c] := false;
          pc[c] := WaitFrom(n, c, 0);
        case AwaitChoice(i) =>
          if !choosing[i] { pc[c] := AwaitTicket(i); }
        case AwaitTicket(i) =>
          pc[c] := if ticket[i] == 0 then WaitFrom(n, c, i + 1) else Compare(i, ticket[i]);
        case Compare(i, their) =>
          pc[c] := if their > ticket[c] then WaitFrom(n, c, i + 1) else TieBreak(i, their);
        case TieBreak(i, their) =>
          pc[c] := if their == ticket[c] && i > c then WaitFrom(n, c, i + 1) else AwaitTicket(i);
        case Inside =>
          ticket[c] := 0;
          pc[c] := Idle;
      }
      assert Memory() == Step(before, c);
    }
  }
}
