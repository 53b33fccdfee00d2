/** The locks of synchronisation objects and of core schedulers: what every kernel call acquires
    and releases, and that calls on any number of cores never block each other for good. */
module LockOrder {
  import opened Sequences

  datatype Lock = Object(o: nat) | Core(c: nat)

  datatype Op = Acquire(l: Lock) | Release(l: Lock)

  /** A kernel call with the branch it takes.  `o` is the object's lock, `own` the calling core,
      the other cores those of the tasks it touches. */
  datatype Call =
    | SemaphoreTakeTry(o: nat, own: nat, blocks: bool)        // first critical section of semaphore_take
    | SemaphoreTakeWoken(o: nat)                              // its second
    | SemaphoreGive(o: nat, waiter: Option<nat>)
    | MutexSetInheritance(o: nat)
    | MutexLock(o: nat, own: nat, blocks: bool, boosted: Option<nat>)
    | MutexLockWoken(o: nat)
    | MutexUnlock(o: nat, demoted: Option<nat>, next: Option<nat>)
    | QueueCopy(o: nat)                                       // the locked part of queue_send and queue_recv
    | Delay(own: nat)
    | Switch(own: nat)
    | TaskCreate(own: nat)
    | Tick(own: nat, timers: nat, waiters: seq<Option<nat>>)  // one give for each expired timer

  function Section(l: Lock, inside: seq<Op>): seq<Op> { [Acquire(l)] + inside + [Release(l)] }

  function OnCore(core: Option<nat>): seq<Op> {
    match core
    case None => []
    case Some(c) => Section(Core(c), [])
  }

  function Gives(o: nat, waiters: seq<Option<nat>>): seq<Op> {
    if waiters == [] then [] else Section(Object(o), OnCore(waiters[0])) + Gives(o, waiters[1..])
  }

  /** The call's lock operations, in order. */
  function Program(call: Call): seq<Op> {
    match call
    case SemaphoreTakeTry(o, own, blocks) => Section(Object(o), if blocks then Section(Core(own), []) else [])
    case SemaphoreTakeWoken(o) => Section(Object(o), [])
    case SemaphoreGive(o, waiter) => Section(Object(o), OnCore(waiter))
    case MutexSetInheritance(o) => Section(Object(o), [])
    case MutexLock(o, own, blocks, boosted) =>
      Section(Object(o), if blocks then Section(Core(own), []) + OnCore(boosted) else [])
    case MutexLockWoken(o) => Section(Object(o), [])
    case MutexUnlock(o, demoted, next) => Section(Object(o), OnCore(demoted) + OnCore(next))
    case QueueCopy(o) => Section(Object(o), [])
    case Delay(own) => Section(Core(own), [])
    case Switch(own) => Section(Core(own), [])
    case TaskCreate(own) => Section(Core(own), [])
    case Tick(own, timers, waiters) => Section(Core(own), []) + Gives(timers, waiters)
  }

  // ---------------------------------------------------------------- discipline

  /** What a core can hold at all. */
  predicate Shape(held: seq<Lock>) { |held| <= 1 || (|held| == 2 && held[0].Object? && held[1].Core?) }

  /** Object's lock first and alone, then at most one core's, released in the opposite order. */
  predicate Disciplined(held: seq<Lock>, todo: seq<Op>)
    decreases |todo|
  {
    && Shape(held)
    && if todo == [] then held == []
       else match todo[0]
            case Acquire(l) =>
              && (if l.Object? then held == [] else held == [] || (|held| == 1 && held[0].Object?))
              && Disciplined(held + [l], todo[1..])
            case Release(l) => held != [] && held[|held| - 1] == l && Disciplined(held[..|held| - 1], todo[1..])
  }

  lemma {:induction false} AcquireStep(held: seq<Lock>, l: Lock, rest: seq<Op>)
    requires if l.Object? then held == [] else held == [] || (|held| == 1 && held[0].Object?)
    requires Disciplined(held + [l], rest)
    ensures Disciplined(held, [Acquire(l)] + rest)
  {
    assert ([Acquire(l)] + rest)[1..] == rest;
  }

  lemma {:induction false} ReleaseStep(held: seq<Lock>, l: Lock, rest: seq<Op>)
    requires Shape(held + [l]) && Disciplined(held, rest)
    ensures Disciplined(held + [l], [Release(l)] + rest)
  {
    assert ([Release(l)] + rest)[1..] == rest && (held + [l])[..|held|] == held;
  }

  /** A core's section fits behind whatever is held, and leaves it held. */
  lemma {:induction false} CoreSection(held: seq<Lock>, core: Option<nat>, rest: seq<Op>)
    requires held == [] || (|held| == 1 && held[0].Object?)
    requires Disciplined(held, rest)
    ensures Disciplined(held, OnCore(core) + rest)
  {
    hide Disciplined;
    if core.Some? {
      var l := Core(core.value);
      ReleaseStep(held, l, rest);
      AcquireStep(held, l, [Release(l)] + rest);
      assert OnCore(core) + rest == [Acquire(l)] + ([Release(l)] + rest);
    } else {
      assert OnCore(core) + rest == rest;
    }
  }

  lemma {:induction false} ObjectSection(o: nat, inside: seq<Op>, rest: seq<Op>)
    requires Disciplined([Object(o)], inside + ([Release(Object(o))] + rest))
    ensures Disciplined([], Section(Object(o), inside) + rest)
  {
    var ops := Section(Object(o), inside) + rest;
    assert ops[1..] == inside + ([Release(Object(o))] + rest);
    assert [] + [Object(o)] == [Object(o)];
  }

  /** Inside an object's section, sections of at most two cores one after the other. */
  lemma {:induction false} TwoCores(o: nat, a: Option<nat>, b: Option<nat>, rest: seq<Op>)
    requires Disciplined([], rest)
    ensures Disciplined([], Section(Object(o), OnCore(a) + OnCore(b)) + rest)
  {
    var last := [Release(Object(o))] + rest;
    assert last[1..] == rest && [Object(o)][..0] == [];
    assert Disciplined([Object(o)], last);
    CoreSection([Object(o)], b, last);
    CoreSection([Object(o)], a, OnCore(b) + last);
    assert OnCore(a) + (OnCore(b) + last) == (OnCore(a) + OnCore(b)) + last;
    ObjectSection(o, OnCore(a) + OnCore(b), rest);
  }

  lemma {:induction false} GivesDisciplined(o: nat, waiters: seq<Option<nat>>)
    ensures Disciplined([], Gives(o, waiters))
  {
    if waiters != [] {
      GivesDisciplined(o, waiters[1..]);
      TwoCores(o, waiters[0], None, Gives(o, waiters[1..]));
      assert OnCore(waiters[0]) + OnCore(None) == OnCore(waiters[0]);
    }
  }

  /** Every kernel call keeps to it, on every branch. */
  lemma CallsDisciplined(call: Call)
    ensures Disciplined([], Program(call))
  {
    hide Disciplined;
    Nothing();
    match call
    case SemaphoreTakeTry(o, own, blocks) => Nested(o, if blocks then Some(own) else None, None);
    case SemaphoreTakeWoken(o) => Nested(o, None, None);
    case SemaphoreGive(o, waiter) => Nested(o, waiter, None);
    case MutexSetInheritance(o) => Nested(o, None, None);
    case MutexLock(o, own, blocks, boosted) => Nested(o, if blocks then Some(own) else None, if blocks then boosted else None);
    case MutexLockWoken(o) => Nested(o, None, None);
    case MutexUnlock(o, demoted, next) => Nested(o, demoted, next);
    case QueueCopy(o) => Nested(o, None, None);
    case Delay(own) => Alone(own, []);
    case Switch(own) => Alone(own, []);
    case TaskCreate(own) => Alone(own, []);
    case Tick(own, timers, waiters) =>
      GivesDisciplined(timers, waiters);
      Alone(own, Gives(timers, waiters));
  }

  lemma Nothing()
    ensures Disciplined([], [])
  {
  }

  lemma Nested(o: nat, a: Option<nat>, b: Option<nat>)
    ensures Disciplined([], Section(Object(o), OnCore(a) + OnCore(b)))
    ensures Section(Object(o), OnCore(a) + OnCore(None)) == Section(Object(o), OnCore(a))
  {
    TwoCores(o, a, b, []);
    assert Section(Object(o), OnCore(a) + OnCore(b)) + [] == Section(Object(o), OnCore(a) + OnCore(b));
    assert OnCore(a) + OnCore(None) == OnCore(a);
  }

  lemma {:induction false} Alone(own: nat, rest: seq<Op>)
    requires Disciplined([], rest)
    ensures Disciplined([], Section(Core(own), []) + rest)
    ensures Section(Core(own), []) + [] == Section(Core(own), [])
  {
    CoreSection([], Some(own), rest);
  }

  // ---------------------------------------------------------------- cores running calls

  /** What a core holds, latest last, and what is left of its call.  There is one call at a time on
      a core: interrupts are masked inside every critical section but that of task_create, which
      is taken to run before the core's tick does, or masked by its caller. */
  datatype Task = Task(held: seq<Lock>, todo: seq<Op>)

  type System = seq<Task>

  predicate Free(s: System, l: Lock) { forall i | 0 <= i < |s| :: l !in s[i].held }

  /** The next operation does not have to wait. */
  predicate CanMove(s: System, i: nat)
    requires i < |s| && s[i].todo != []
  {
    s[i].todo[0].Acquire? ==> Free(s, s[i].todo[0].l)
  }

  function Moved(t: Task): Task
    requires t.todo != []
  {
    match t.todo[0]
    case Acquire(l) => Task(t.held + [l], t.todo[1..])
    case Release(_) => Task(if t.held == [] then [] else t.held[..|t.held| - 1], t.todo[1..])
  }

  /** A core goes on with its call, spins, or starts the next call. */
  function Step(s: System, i: nat, call: Call): System
    requires i < |s|
  {
    if s[i].todo == [] then s[i := s[i].(todo := Program(call))]
    else if CanMove(s, i) then s[i := Moved(s[i])]
    else s
  }

  predicate AllDisciplined(s: System) { forall i | 0 <= i < |s| :: Disciplined(s[i].held, s[i].todo) }

  /** Nobody holds a lock that another core holds. */
  predicate Exclusive(s: System) {
    forall i, j, l | 0 <= i < j < |s| && l in s[i].held :: l !in s[j].held
  }

  predicate Idle(s: System) { forall i | 0 <= i < |s| :: s[i] == Task([], []) }

  lemma StepKeeps(s: System, i: nat, call: Call)
    requires AllDisciplined(s) && Exclusive(s) && i < |s|
    ensures AllDisciplined(Step(s, i, call)) && Exclusive(Step(s, i, call))
  {
    hide Disciplined, Program;
    if s[i].todo == [] {
      IdleHoldsNothing(s[i]);
      CallsDisciplined(call);
    } else if CanMove(s, i) {
      MoveDisciplined(s[i]);
      MoveExclusive(s, i);
    }
  }

  lemma IdleHoldsNothing(t: Task)
    requires Disciplined(t.held, t.todo) && t.todo == []
    ensures t.held == []
  {
  }

  lemma MoveExclusive(s: System, i: nat)
    requires Exclusive(s) && i < |s| && s[i].todo != [] && CanMove(s, i)
    ensures Exclusive(s[i := Moved(s[i])])
  {
    var t := Moved(s[i]);
    assert forall l | l in t.held :: l in s[i].held || (s[i].todo[0].Acquire? && l == s[i].todo[0].l);
  }

  lemma MoveDisciplined(t: Task)
    requires Disciplined(t.held, t.todo) && t.todo != []
    ensures Disciplined(Moved(t).held, Moved(t).todo)
  {
  }

  function After(s: System, run: seq<(nat, Call)>): (t: System)
    requires forall k | 0 <= k < |run| :: run[k].0 < |s|
    ensures |t| == |s|
    decreases |run|
  {
    if run == [] then s else After(Step(s, run[0].0, run[0].1), run[1..])
  }

  lemma SameCores(s: System, i: nat, call: Call)
    requires i < |s|
    ensures |Step(s, i, call)| == |s|
  {
  }

  lemma {:induction false} RunKeeps(s: System, run: seq<(nat, Call)>)
    requires AllDisciplined(s) && Exclusive(s) && forall k | 0 <= k < |run| :: run[k].0 < |s|
    ensures AllDisciplined(After(s, run)) && Exclusive(After(s, run))
    decreases |run|
  {
    hide AllDisciplined, Exclusive;
    if run != [] {
      StepKeeps(s, run[0].0, run[0].1);
      hide Step;
      SameCores(s, run[0].0, run[0].1);
      RunKeeps(Step(s, run[0].0, run[0].1), run[1..]);
    }
  }

  // ---------------------------------------------------------------- waiting

  /** Core i spins on a lock that core j holds. */
  predicate WaitsFor(s: System, i: nat, j: nat) {
    i < |s| && j < |s| && s[i].todo != [] && s[i].todo[0].Acquire? && s[i].todo[0].l in s[j].held
  }

  /** Each core on the way spins on a lock the next one holds. */
  ghost predicate Chain(s: System, path: seq<nat>) {
    |path| > 0 && path[0] < |s| && forall k | 0 <= k < |path| - 1 :: WaitsFor(s, path[k], path[k + 1])
  }

  /** How far along the lock order a core is. */
  function Order(t: Task): nat {
    if t.todo == [] || t.todo[0].Release? then 2 else if t.todo[0].l.Object? then 0 else 1
  }

  lemma WaitRises(s: System, i: nat, j: nat)
    requires AllDisciplined(s) && WaitsFor(s, i, j)
    ensures Order(s[j]) > Order(s[i])
  {
    assert Disciplined(s[i].held, s[i].todo) && Disciplined(s[j].held, s[j].todo);
  }

  lemma {:induction false} OrderRises(s: System, path: seq<nat>, k: nat)
    requires AllDisciplined(s) && Chain(s, path) && k < |path|
    ensures path[k] < |s| && Order(s[path[k]]) >= Order(s[path[0]]) + k
  {
    if k > 0 {
      OrderRises(s, path, k - 1);
      assert WaitsFor(s, path[k - 1], path[k - 1 + 1]);
      WaitRises(s, path[k - 1], path[k]);
    }
  }

  /** In every reachable state, no wait goes in a circle, and every chain of waits has at most
      three cores. */
  lemma {:induction false} NoCyclicWait(s: System, run: seq<(nat, Call)>, path: seq<nat>)
    requires Idle(s) && (forall k | 0 <= k < |run| :: run[k].0 < |s|) && Chain(After(s, run), path)
    ensures |path| <= 3 && (|path| > 1 ==> path[|path| - 1] != path[0])
  {
    RunKeeps(s, run);
    OrderRises(After(s, run), path, |path| - 1);
  }

  /** Whoever is in the middle of a call, some core in the middle of one can go on. */
  lemma SomebodyMoves(s: System, i: nat) returns (j: nat)
    requires AllDisciplined(s) && i < |s| && s[i].todo != []
    ensures j < |s| && s[j].todo != [] && CanMove(s, j)
    decreases 2 - Order(s[i])
  {
    if CanMove(s, i) {
      j := i;
    } else {
      var h: nat :| h < |s| && s[i].todo[0].l in s[h].held;
      WaitRises(s, i, h);
      assert Disciplined(s[h].held, s[h].todo);
      j := SomebodyMoves(s, h);
    }
  }

  /** Lock operations still to be done. */
  function Left(s: System): nat {
    if s == [] then 0 else |s[0].todo| + Left(s[1..])
  }

  lemma {:induction false} LeftShrinks(s: System, j: nat, t: Task)
    requires j < |s| && |t.todo| < |s[j].todo|
    ensures Left(s[j := t]) < Left(s)
  {
    if j > 0 {
      assert s[j := t][1..] == s[1..][j - 1 := t];
      LeftShrinks(s[1..], j - 1, t);
    } else {
      assert s[j := t][1..] == s[1..];
    }
  }

  /** From every reachable state some schedule lets every call that has begun run to its end, all
      locks released. */
  lemma {:induction false} AllFinish(s: System) returns (run: seq<(nat, Call)>)
    requires AllDisciplined(s) && Exclusive(s)
    ensures forall k | 0 <= k < |run| :: run[k].0 < |s|
    ensures Idle(After(s, run))
    decreases Left(s)
  {
    hide Disciplined, Program, WaitsFor;
    if i: nat :| i < |s| && s[i].todo != [] {
      var j := SomebodyMoves(s, i);
      var call := Delay(0);
      StepKeeps(s, j, call);
      LeftShrinks(s, j, Moved(s[j]));
      var rest := AllFinish(Step(s, j, call));
      run := [(j, call)] + rest;
      assert run[1..] == rest;
    } else {
      run := [];
      DoneIsIdle(s);
    }
  }

  lemma DoneIsIdle(s: System)
    requires AllDisciplined(s) && forall i | 0 <= i < |s| :: s[i].todo == []
    ensures Idle(s)
  {
  }

  /** No run of calls on any number of cores comes to a standstill. */
  lemma NeverStuck(s: System, run: seq<(nat, Call)>) returns (more: seq<(nat, Call)>)
    requires Idle(s) && forall k | 0 <= k < |run| :: run[k].0 < |s|
    ensures forall k | 0 <= k < |more| :: more[k].0 < |s|
    ensures Exclusive(After(s, run)) && Idle(After(After(s, run), more))
  {
    RunKeeps(s, run);
    more := AllFinish(After(s, run));
  }
}
