/** The edge's locks as steps: any number of threads, each carrying out any
    sequence of the cache's operations. A waiting writer keeps new readers out. */
module LockDiscipline {

  datatype Lock = PowerLock | WiringLock | PolicyLock | HoldLock | AllowListLock

  datatype Mode = Shared | Exclusive

  datatype Instr = Acquire(lock: Lock, mode: Mode) | Release(lock: Lock)

  // ----- what each operation locks --------------------------------------

  datatype Operation =
    | Decide(lockedOut: bool)
    | ResolveName
    | Tick(tools: nat)
    | ApplyPolicy(stale: bool)
    | ApplySyncAlias
    | ApplyDoorsAlias

  function Section(lock: Lock, mode: Mode): seq<Instr> {
    [Acquire(lock, mode), Release(lock)]
  }

  /** Each tool's share of a tick evaluates under a read lock, then renews and
      settles under a write lock each. */
  function TickShares(tools: nat): seq<Instr> {
    if tools == 0 then []
    else
      Section(WiringLock, Shared) + Section(WiringLock, Exclusive) + Section(WiringLock, Exclusive)
      + TickShares(tools - 1)
  }

  function Script(op: Operation): seq<Instr> {
    match op
    case Decide(lockedOut) =>
      Section(PowerLock, Shared)
      + if lockedOut then [] else Section(WiringLock, Shared) + Section(PolicyLock, Shared)
    case ResolveName => Section(WiringLock, Shared) + Section(PolicyLock, Shared)
    case Tick(tools) =>
      Section(WiringLock, Shared) + TickShares(tools) + Section(PolicyLock, Shared) + Section(HoldLock, Exclusive)
    case ApplyPolicy(stale) =>
      Section(PolicyLock, Exclusive) + if stale then [] else Section(AllowListLock, Exclusive)
    case ApplySyncAlias => Section(PolicyLock, Exclusive) + Section(AllowListLock, Exclusive)
    case ApplyDoorsAlias => Section(PolicyLock, Exclusive)
  }

  function Scripts(ops: seq<Operation>): seq<Instr> {
    if |ops| == 0 then [] else Script(ops[0]) + Scripts(ops[1..])
  }

  // ----- threads and their steps ----------------------------------------

  datatype Hold = Hold(lock: Lock, mode: Mode)

  datatype Thread = Thread(todo: seq<Instr>, waiting: bool, held: seq<Hold>)

  type System = seq<Thread>

  predicate Holds(t: Thread, lock: Lock) {
    exists h :: h in t.held && h.lock == lock
  }

  predicate HoldsExclusive(t: Thread, lock: Lock) {
    Hold(lock, Exclusive) in t.held
  }

  predicate AwaitsExclusive(t: Thread, lock: Lock) {
    t.waiting && |t.todo| > 0 && t.todo[0] == Acquire(lock, Exclusive)
  }

  /** A writer needs the lock free; a reader also gives way to any queued writer. */
  predicate CanAcquire(sys: System, lock: Lock, mode: Mode) {
    if mode.Exclusive? then forall t :: t in sys ==> !Holds(t, lock)
    else forall t :: t in sys ==> !HoldsExclusive(t, lock) && !AwaitsExclusive(t, lock)
  }

  predicate Finished(t: Thread) {
    |t.todo| == 0
  }

  predicate Enabled(sys: System, i: int) {
    && 0 <= i < |sys| && !Finished(sys[i])
    && match sys[i].todo[0]
       case Acquire(lock, mode) => !sys[i].waiting || CanAcquire(sys, lock, mode)
       case Release(lock) => Holds(sys[i], lock)
  }

  function DropHold(held: seq<Hold>, lock: Lock): seq<Hold> {
    if |held| == 0 then []
    else if held[|held| - 1].lock == lock then held[..|held| - 1]
    else DropHold(held[..|held| - 1], lock) + [held[|held| - 1]]
  }

  /** A thread first queues for a lock, then takes it, and later lets it go. */
  function StepThread(t: Thread): Thread
    requires !Finished(t)
  {
    match t.todo[0]
    case Acquire(lock, mode) =>
      if !t.waiting then t.(waiting := true)
      else Thread(t.todo[1..], false, t.held + [Hold(lock, mode)])
    case Release(lock) => Thread(t.todo[1..], false, DropHold(t.held, lock))
  }

  function Take(sys: System, i: int): System
    requires Enabled(sys, i)
  {
    sys[i := StepThread(sys[i])]
  }

  /** The schedule names enabled threads all the way. */
  ghost predicate CanRun(sys: System, schedule: seq<nat>)
    decreases |schedule|
  {
    |schedule| == 0 || (Enabled(sys, schedule[0]) && CanRun(Take(sys, schedule[0]), schedule[1..]))
  }

  ghost function AfterRun(sys: System, schedule: seq<nat>): System
    requires CanRun(sys, schedule)
    decreases |schedule|
  {
    if |schedule| == 0 then sys else AfterRun(Take(sys, schedule[0]), schedule[1..])
  }

  /** Threads about to start, each with its own list of operations. */
  function Start(work: seq<seq<Operation>>): System {
    seq(|work|, i requires 0 <= i < |work| => Thread(Scripts(work[i]), false, []))
  }

  // ----- one lock at a time ---------------------------------------------

  /** A script of critical sections: each lock is released before the next request. */
  ghost predicate OneAtATime(todo: seq<Instr>)
    decreases |todo|
  {
    |todo| == 0 ||
    (&& |todo| >= 2
     && todo[0].Acquire? && todo[1] == Release(todo[0].lock)
     && OneAtATime(todo[2..]))
  }

  ghost predicate Disciplined(t: Thread) {
    if |t.held| == 0 then OneAtATime(t.todo) && (t.waiting ==> |t.todo| > 0)
    else
      && |t.held| == 1 && !t.waiting
      && |t.todo| > 0 && t.todo[0] == Release(t.held[0].lock) && OneAtATime(t.todo[1..])
  }

  lemma {:induction false} OneAtATimeConcat(a: seq<Instr>, b: seq<Instr>)
    requires OneAtATime(a) && OneAtATime(b)
    ensures OneAtATime(a + b)
    decreases |a|
  {
    if |a| == 0 {
      assert a + b == b;
    } else {
      OneAtATimeConcat(a[2..], b);
      assert (a + b)[2..] == a[2..] + b;
    }
  }

  lemma SectionIsOneAtATime(lock: Lock, mode: Mode)
    ensures OneAtATime(Section(lock, mode))
  {
  }

  lemma {:induction false} TickSharesAreOneAtATime(tools: nat)
    ensures OneAtATime(TickShares(tools))
  {
    if tools > 0 {
      var r, w := Section(WiringLock, Shared), Section(WiringLock, Exclusive);
      TickSharesAreOneAtATime(tools - 1);
      SectionIsOneAtATime(WiringLock, Shared);
      SectionIsOneAtATime(WiringLock, Exclusive);
      OneAtATimeConcat(r, w);
      OneAtATimeConcat(r + w, w);
      OneAtATimeConcat(r + w + w, TickShares(tools - 1));
    }
  }

  /** No operation of the cache requests a lock while it holds one. */
  lemma ScriptIsOneAtATime(op: Operation)
    ensures OneAtATime(Script(op))
  {
    forall lock, mode ensures OneAtATime(Section(lock, mode)) {
      SectionIsOneAtATime(lock, mode);
    }
    match op
    case Decide(lockedOut) =>
      OneAtATimeConcat(Section(WiringLock, Shared), Section(PolicyLock, Shared));
      OneAtATimeConcat(Section(PowerLock, Shared),
                       if lockedOut then [] else Section(WiringLock, Shared) + Section(PolicyLock, Shared));
    case ResolveName =>
      OneAtATimeConcat(Section(WiringLock, Shared), Section(PolicyLock, Shared));
    case Tick(tools) =>
      var listed := Section(WiringLock, Shared) + TickShares(tools);
      TickSharesAreOneAtATime(tools);
      OneAtATimeConcat(Section(WiringLock, Shared), TickShares(tools));
      OneAtATimeConcat(listed, Section(PolicyLock, Shared));
      OneAtATimeConcat(listed + Section(PolicyLock, Shared), Section(HoldLock, Exclusive));
    case ApplyPolicy(stale) =>
      OneAtATimeConcat(Section(PolicyLock, Exclusive), if stale then [] else Section(AllowListLock, Exclusive));
    case ApplySyncAlias =>
      OneAtATimeConcat(Section(PolicyLock, Exclusive), Section(AllowListLock, Exclusive));
    case ApplyDoorsAlias =>
  }

  lemma {:induction false} ScriptsAreOneAtATime(ops: seq<Operation>)
    ensures OneAtATime(Scripts(ops))
  {
    if |ops| > 0 {
      ScriptIsOneAtATime(ops[0]);
      ScriptsAreOneAtATime(ops[1..]);
      OneAtATimeConcat(Script(ops[0]), Scripts(ops[1..]));
    }
  }

  ghost predicate AllDisciplined(sys: System) {
    forall t :: t in sys ==> Disciplined(t)
  }

  lemma TakeStaysDisciplined(sys: System, i: int)
    requires AllDisciplined(sys) && Enabled(sys, i)
    ensures AllDisciplined(Take(sys, i))
  {
    var t := sys[i];
    assert t in sys && Disciplined(t);
    if t.todo[0].Acquire? {
      assert t.held == [];
      assert t.todo[1..][1..] == t.todo[2..];
    } else {
      assert DropHold(t.held, t.todo[0].lock) == [];
    }
    assert Disciplined(StepThread(t));
    forall u | u in Take(sys, i) ensures Disciplined(u) {
      assert u == StepThread(t) || u in sys;
    }
  }

  lemma {:induction false} RunStaysDisciplined(sys: System, schedule: seq<nat>)
    requires AllDisciplined(sys) && CanRun(sys, schedule)
    ensures AllDisciplined(AfterRun(sys, schedule))
    decreases |schedule|
  {
    if |schedule| > 0 {
      TakeStaysDisciplined(sys, schedule[0]);
      RunStaysDisciplined(Take(sys, schedule[0]), schedule[1..]);
    }
  }

  // ----- progress -------------------------------------------------------

  /** Among disciplined threads with work left, some thread can step: one that
      holds a lock can release it, one that has not queued can queue, and when all
      are queued and nothing is held, the first writer goes, or else any reader. */
  lemma SomeoneCanStep(sys: System) returns (i: int)
    requires AllDisciplined(sys) && exists t :: t in sys && !Finished(t)
    ensures Enabled(sys, i)
  {
    if j :| 0 <= j < |sys| && |sys[j].held| > 0 {
      assert sys[j] in sys && sys[j].held[0] in sys[j].held;
      return j;
    }
    assert forall t :: t in sys ==> t.held == [];
    if j :| 0 <= j < |sys| && !Finished(sys[j]) && !sys[j].waiting {
      assert sys[j] in sys && Disciplined(sys[j]);
      return j;
    }
    if j, lock :| 0 <= j < |sys| && AwaitsExclusive(sys[j], lock) {
      return j;
    }
    var t :| t in sys && !Finished(t);
    i :| 0 <= i < |sys| && sys[i] == t;
    assert Disciplined(t);
    forall u, lock | u in sys ensures !AwaitsExclusive(u, lock) {
      var j :| 0 <= j < |sys| && sys[j] == u;
    }
  }

  /** Deadlock freedom: whatever operations any number of threads are given, and
      however they are scheduled, a thread that waits holds nothing, and while any
      has work left some thread can move. */
  lemma NoDeadlock(work: seq<seq<Operation>>, schedule: seq<nat>)
    requires CanRun(Start(work), schedule)
    ensures var sys := AfterRun(Start(work), schedule);
            && (forall t :: t in sys && t.waiting ==> t.held == [])
            && ((exists t :: t in sys && !Finished(t)) ==> exists i :: Enabled(sys, i))
  {
    var start := Start(work);
    forall t | t in start ensures Disciplined(t) {
      var i :| 0 <= i < |start| && start[i] == t;
      ScriptsAreOneAtATime(work[i]);
    }
    RunStaysDisciplined(start, schedule);
    var sys := AfterRun(start, schedule);
    if exists t :: t in sys && !Finished(t) {
      var i := SomeoneCanStep(sys);
    }
  }

  // ----- and every run ends ---------------------------------------------

  /** Steps left: an acquisition takes two, queueing and taking, a release one. */
  function StepsIn(todo: seq<Instr>): nat {
    if |todo| == 0 then 0 else (if todo[0].Acquire? then 2 else 1) + StepsIn(todo[1..])
  }

  function StepsLeft(sys: System): int {
    if |sys| == 0 then 0
    else StepsIn(sys[0].todo) - (if sys[0].waiting then 1 else 0) + StepsLeft(sys[1..])
  }

  lemma {:induction false} StepsLeftOnUpdate(sys: System, i: int, t: Thread)
    requires 0 <= i < |sys|
    ensures StepsLeft(sys[i := t]) - StepsLeft(sys)
         == StepsIn(t.todo) - (if t.waiting then 1 else 0)
            - StepsIn(sys[i].todo) + (if sys[i].waiting then 1 else 0)
  {
    if i > 0 {
      StepsLeftOnUpdate(sys[1..], i - 1, t);
      assert sys[i := t][1..] == sys[1..][i - 1 := t];
    } else {
      assert sys[0 := t][1..] == sys[1..];
    }
  }

  lemma TakeSpendsOneStep(sys: System, i: int)
    requires Enabled(sys, i) && AllDisciplined(sys)
    ensures StepsLeft(Take(sys, i)) == StepsLeft(sys) - 1
  {
    assert sys[i] in sys;
    StepsLeftOnUpdate(sys, i, StepThread(sys[i]));
  }

  lemma {:induction false} StepsLeftIsNatural(sys: System)
    requires AllDisciplined(sys)
    ensures StepsLeft(sys) >= 0
    ensures StepsLeft(sys) == 0 <==> forall t :: t in sys ==> Finished(t)
  {
    if |sys| > 0 {
      assert sys[0] in sys;
      assert forall t :: t in sys[1..] ==> t in sys;
      StepsLeftIsNatural(sys[1..]);
      assert sys == [sys[0]] + sys[1..];
    }
  }

  lemma {:induction false} RunSpendsItsSteps(sys: System, schedule: seq<nat>)
    requires AllDisciplined(sys) && CanRun(sys, schedule)
    ensures StepsLeft(AfterRun(sys, schedule)) == StepsLeft(sys) - |schedule|
    decreases |schedule|
  {
    if |schedule| > 0 {
      TakeSpendsOneStep(sys, schedule[0]);
      TakeStaysDisciplined(sys, schedule[0]);
      RunSpendsItsSteps(Take(sys, schedule[0]), schedule[1..]);
    }
  }

  /** Every run is as long as the work it has done, and one that has spent all its
      steps has finished every operation. So no schedule starves the whole. */
  lemma EveryRunEnds(work: seq<seq<Operation>>, schedule: seq<nat>)
    requires CanRun(Start(work), schedule)
    ensures |schedule| <= StepsLeft(Start(work))
    ensures |schedule| == StepsLeft(Start(work)) <==>
            forall t :: t in AfterRun(Start(work), schedule) ==> Finished(t)
  {
    var start := Start(work);
    forall t | t in start ensures Disciplined(t) {
      var i :| 0 <= i < |start| && start[i] == t;
      ScriptsAreOneAtATime(work[i]);
    }
    RunStaysDisciplined(start, schedule);
    RunSpendsItsSteps(start, schedule);
    StepsLeftIsNatural(AfterRun(start, schedule));
  }

  // ----- a decision that takes the lock twice ---------------------------

  /** A decision that resolves the name while it holds the policy. */
  const REENTRANT_DECIDE: seq<Instr> :=
    [Acquire(PolicyLock, Shared), Acquire(WiringLock, Shared), Release(WiringLock),
     Acquire(PolicyLock, Shared), Release(PolicyLock), Release(PolicyLock)]

  /** The deciding thread, step by step: it reads the policy, reads and leaves
      the wiring, and queues for the policy again. */
  const READER: seq<Thread> :=
    [Thread(REENTRANT_DECIDE, false, []),
     Thread(REENTRANT_DECIDE, true, []),
     Thread(REENTRANT_DECIDE[1..], false, [Hold(PolicyLock, Shared)]),
     Thread(REENTRANT_DECIDE[1..], true, [Hold(PolicyLock, Shared)]),
     Thread(REENTRANT_DECIDE[2..], false, [Hold(PolicyLock, Shared), Hold(WiringLock, Shared)]),
     Thread(REENTRANT_DECIDE[3..], false, [Hold(PolicyLock, Shared)]),
     Thread(REENTRANT_DECIDE[3..], true, [Hold(PolicyLock, Shared)])]

  /** The ingest beside it, before and after it queues. */
  const WRITER := Thread(Section(PolicyLock, Exclusive), false, [])
  const QUEUED := Thread(Section(PolicyLock, Exclusive), true, [])

  lemma ReaderSteps(k: nat)
    requires k < 5
    ensures Enabled([READER[k], WRITER], 0) && Take([READER[k], WRITER], 0) == [READER[k + 1], WRITER]
  {
    var sys := [READER[k], WRITER];
    assert !Holds(WRITER, PolicyLock) && !HoldsExclusive(WRITER, PolicyLock) && !AwaitsExclusive(WRITER, PolicyLock);
    if k == 4 {
      assert READER[4].held[1] in READER[4].held;
      assert READER[4].held[..1] == READER[5].held;
    }
    assert REENTRANT_DECIDE[1..][1..] == REENTRANT_DECIDE[2..];
    assert REENTRANT_DECIDE[2..][1..] == REENTRANT_DECIDE[3..];
    assert StepThread(READER[k]) == READER[k + 1];
  }

  /** Beside one door snapshot no thread can move: the ingest is held up by the first
      read, and the second read stands behind the ingest. */
  lemma ReentrantDecideDeadlocks() returns (schedule: seq<nat>, stuck: System)
    ensures CanRun([READER[0], WRITER], schedule) && AfterRun([READER[0], WRITER], schedule) == stuck
    ensures READER[0] == Thread(REENTRANT_DECIDE, false, []) && WRITER == Thread(Script(ApplyDoorsAlias), false, [])
    ensures forall i :: !Enabled(stuck, i)
    ensures forall t :: t in stuck ==> !Finished(t)
  {
    stuck := [READER[6], QUEUED];
    StepTo([READER[5], QUEUED], 0, stuck, [], stuck);
    StepTo([READER[5], WRITER], 1, [READER[5], QUEUED], [0], stuck);
    schedule := [1, 0];
    for k := 5 downto 0
      invariant CanRun([READER[k], WRITER], schedule) && AfterRun([READER[k], WRITER], schedule) == stuck
    {
      ReaderSteps(k);
      StepTo([READER[k], WRITER], 0, [READER[k + 1], WRITER], schedule, stuck);
      schedule := [0] + schedule;
    }
    assert READER[6].held[0] in READER[6].held && Holds(stuck[0], PolicyLock) && stuck[0] in stuck;
    assert AwaitsExclusive(stuck[1], PolicyLock) && stuck[1] in stuck;
  }

  lemma StepTo(sys: System, i: nat, next: System, rest: seq<nat>, end: System)
    requires Enabled(sys, i) && next == Take(sys, i)
    requires CanRun(next, rest) && AfterRun(next, rest) == end
    ensures CanRun(sys, [i] + rest) && AfterRun(sys, [i] + rest) == end
  {
  }
}
