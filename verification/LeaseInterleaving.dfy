/** Ticks cut where the engine lets go of its lock: a task reads and decides, later
    writes the lease, later settles the bindings, and any call or other task may come
    between. What of the laws about whole ticks still holds, and what only a tick
    already under way can do. */
module LeaseInterleaving {
  import opened Wrappers
  import opened Wire
  import opened LeaseEngine
  import opened LeaseSessions
  import LeaseRuns
  import LeaseRunOnLaw

  // ----- tasks and events ---------------------------------------------------

  /** A renewal under way: decided under one lock, and perhaps written under the next. */
  datatype Task = Task(tool: string, ttl: int, now: int, decision: Decision, isWritten: bool)

  datatype World = World(store: Store, tasks: map<nat, Task>)

  datatype Event =
    | Call(step: LeaseRuns.Step)
    | Reads(task: nat, tool: string, ttl: int, timeout: int, now: int)
    | Writes(task: nat)
    | Settles(task: nat)
    | Returns(task: nat)

  const START := World(INITIAL, map[])

  predicate MayHappen(w: World, e: Event) {
    match e
    case Call(step) => !step.Renewed? && !LeaseRuns.Settles(step)
    case Reads(task, _, _, _, _) => task !in w.tasks
    case Writes(task) => task in w.tasks && !w.tasks[task].isWritten
    case Settles(task) => task in w.tasks && w.tasks[task].isWritten
    case Returns(task) => task in w.tasks && w.tasks[task].isWritten
  }

  /** The write: the decision is the one read, the key and the rules are those of now. */
  function WriteLease(s: Store, t: Task): Store {
    ActOn(s, ToolKey(s, t.tool), t.decision, t.now + t.ttl, LatchFor(Wiring(s, t.tool), t.decision))
  }

  function Happen(w: World, e: Event): World
    requires MayHappen(w, e)
  {
    match e
    case Call(step) => w.(store := LeaseRuns.Next(w.store, step))
    case Reads(task, tool, ttl, timeout, now) =>
      w.(tasks := w.tasks[task := Task(tool, ttl, now, Evaluate(w.store, tool, now, timeout), false)])
    case Writes(task) =>
      World(WriteLease(w.store, w.tasks[task]), w.tasks[task := w.tasks[task].(isWritten := true)])
    case Settles(task) =>
      var t := w.tasks[task];
      World(SettleTool(w.store, t.tool, t.decision, t.now), w.tasks - {task})
    case Returns(task) => w.(tasks := w.tasks - {task})
  }

  datatype Instant = Instant(before: World, event: Event)

  type Run = seq<Instant>

  ghost predicate IsRun(r: Run)
    decreases |r|, 0
  {
    |r| > 0 ==>
      var n := |r| - 1;
      IsRun(r[..n]) && r[n].before == Last(r[..n]) && MayHappen(r[n].before, r[n].event)
  }

  ghost function Last(r: Run): World
    requires IsRun(r)
    decreases |r|, 1
  {
    if |r| == 0 then START else Happen(r[|r| - 1].before, r[|r| - 1].event)
  }

  lemma {:induction false} PrefixIsRun(r: Run, n: nat)
    requires IsRun(r) && n <= |r|
    ensures IsRun(r[..n])
    ensures n < |r| ==> r[n].before == Last(r[..n]) && MayHappen(r[n].before, r[n].event)
    decreases |r|
  {
    if n == |r| {
      assert r[..n] == r;
    } else if n < |r| - 1 {
      var p := r[..|r| - 1];
      PrefixIsRun(p, n);
      assert p[..n] == r[..n];
    }
  }

  lemma Extend(r: Run, e: Event)
    requires IsRun(r) && MayHappen(Last(r), e)
    ensures IsRun(r + [Instant(Last(r), e)])
    ensures Last(r + [Instant(Last(r), e)]) == Happen(Last(r), e)
  {
    assert (r + [Instant(Last(r), e)])[..|r|] == r;
  }

  /** What each part of a task writes. */
  lemma WriteWrites(s: Store, t: Task)
    ensures WriteLease(s, t) == s.(leases := WriteLease(s, t).leases, latched := WriteLease(s, t).latched)
  {
  }

  // ----- a tick no one interrupts --------------------------------------------

  /** A task no one interrupts is a renewal, or a tool's whole share of a tick. */
  lemma UninterruptedIsOneStep(s: Store, task: nat, tool: string, ttl: int, timeout: int, now: int)
    ensures var w1 := Happen(World(s, map[]), Reads(task, tool, ttl, timeout, now));
            var w2 := Happen(w1, Writes(task));
            && Happen(w2, Returns(task)) == World(Renew(s, tool, now, ttl, timeout), map[])
            && Happen(w2, Settles(task)) == World(TickTool(s, tool, now, ttl, timeout), map[])
  {
    var w1 := Happen(World(s, map[]), Reads(task, tool, ttl, timeout, now));
    var w2 := Happen(w1, Writes(task));
    assert w2.tasks - {task} == map[];
    LeaseRuns.RenewWrites(s, tool, now, ttl, timeout);
    if Wiring(s, tool).Some? {
      SettleIgnoresLeases(s, w2.store, Wiring(s, tool).value, Evaluate(s, tool, now, timeout), now);
      LeaseRuns.TickWrites(s, tool, now, ttl, timeout);
    }
  }

  // ----- every decision was read -----------------------------------------------

  /** This task's latest read is at `i`. */
  ghost predicate ReadAt(r: Run, i: int, task: nat) {
    && 0 <= i < |r| && r[i].event.Reads? && r[i].event.task == task
    && forall j :: i < j < |r| && r[j].event.Reads? ==> r[j].event.task != task
  }

  /** What the read at this instant decided. */
  function DecisionOf(x: Instant): Decision
    requires x.event.Reads?
  {
    Evaluate(x.before.store, x.event.tool, x.event.now, x.event.timeout)
  }

  /** A task carries what its read decided, on the store that read found. */
  lemma {:induction false} TasksWereRead(r: Run, task: nat) returns (i: int)
    requires IsRun(r) && task in Last(r).tasks
    ensures ReadAt(r, i, task)
    ensures var t, e := Last(r).tasks[task], r[i].event;
            t.tool == e.tool && t.ttl == e.ttl && t.now == e.now && t.decision == DecisionOf(r[i])
  {
    var n := |r| - 1;
    if r[n].event.Reads? && r[n].event.task == task {
      i := n;
    } else {
      i := TasksWereRead(r[..n], task);
    }
  }

  // ----- the dead-man's switch ----------------------------------------------------

  predicate WritesKey(x: Instant, key: string) {
    && x.event.Writes? && x.event.task in x.before.tasks
    && ToolKey(x.before.store, x.before.tasks[x.event.task].tool) == key
  }

  function WrittenTask(x: Instant): Task
    requires x.event.Writes? && x.event.task in x.before.tasks
  {
    x.before.tasks[x.event.task]
  }

  ghost predicate LastWrite(r: Run, i: int, key: string) {
    0 <= i < |r| && WritesKey(r[i], key) && forall j :: i < j < |r| ==> !WritesKey(r[j], key)
  }

  lemma EventOnLeases(w: World, e: Event, key: string)
    requires MayHappen(w, e)
    ensures var s, t := w.store.leases, Happen(w, e).store.leases;
            if WritesKey(Instant(w, e), key) then
              t == (if w.tasks[e.task].decision.Allow? then s[key := w.tasks[e.task].now + w.tasks[e.task].ttl]
                  else s - {key})
            else (key in t <==> key in s) && (key in t ==> t[key] == s[key])
  {
    if e.Call? {
      LeaseRuns.WhatAStepWrites(w.store, e.step);
    }
  }

  /** The lease held is the last write's expiry if that write carried an allow. */
  lemma {:induction false} LeaseIsLastWrite(r: Run, key: string)
    requires IsRun(r)
    ensures var leases := Last(r).store.leases;
            && (key in leases ==> exists i :: LastWrite(r, i, key))
            && (forall i :: LastWrite(r, i, key) ==>
                  var t := WrittenTask(r[i]);
                  (key in leases <==> t.decision.Allow?) && (key in leases ==> leases[key] == t.now + t.ttl))
  {
    if |r| > 0 {
      var n := |r| - 1;
      var p := r[..n];
      LeaseIsLastWrite(p, key);
      EventOnLeases(r[n].before, r[n].event, key);
      if WritesKey(r[n], key) {
        assert LastWrite(r, n, key);
      } else {
        assert forall i :: LastWrite(r, i, key) ==> LastWrite(p, i, key);
        if key in r[n].before.store.leases {
          var i :| LastWrite(p, i, key);
          assert LastWrite(r, i, key);
        }
      }
    }
  }

  /** The dead-man's switch survives: whatever comes between, a lease is valid exactly
      when the last write of the tool carried an allow whose read its ttl still covers. */
  lemma LeaseIsADeadMansSwitch(r: Run, name: string, now: int)
    requires IsRun(r)
    ensures LeaseValid(Last(r).store, name, now) <==>
            exists i :: LastWrite(r, i, ToolKey(Last(r).store, name)) && WrittenTask(r[i]).decision.Allow?
                        && now - WrittenTask(r[i]).now < WrittenTask(r[i]).ttl
  {
    LeaseIsLastWrite(r, ToolKey(Last(r).store, name));
  }

  // ----- latches ---------------------------------------------------------------------

  /** A write that carries a trip to a wired tool with a rule that latches it. */
  predicate LatchesKey(x: Instant, key: string) {
    && WritesKey(x, key) && WrittenTask(x).decision.Deny? && WrittenTask(x).decision.denial.Tripped?
    && Wiring(x.before.store, WrittenTask(x).tool).Some?
    && exists r :: r in Wiring(x.before.store, WrittenTask(x).tool).value.interlocks && r.kind == KIND_TRIP
                   && r.condition == WrittenTask(x).decision.denial.condition && r.latch
  }

  predicate ResetsKey(x: Instant, key: string) {
    x.event.Call? && x.event.step.LatchReset? && x.event.step.tool == key
  }

  ghost predicate LatchedFrom(r: Run, i: int, key: string) {
    0 <= i < |r| && LatchesKey(r[i], key) && forall j :: i < j < |r| ==> !ResetsKey(r[j], key)
  }

  lemma WriteOnLatch(s: Store, t: Task, key: string)
    ensures key in WriteLease(s, t).latched <==>
            key in s.latched || (ToolKey(s, t.tool) == key && LatchFor(Wiring(s, t.tool), t.decision).Some?)
  {
  }

  lemma EventOnLatch(w: World, e: Event, key: string)
    requires MayHappen(w, e)
    ensures key in Happen(w, e).store.latched <==>
            LatchesKey(Instant(w, e), key) || (key in w.store.latched && !ResetsKey(Instant(w, e), key))
  {
    match e
    case Call(step) => LeaseRuns.WhatAStepWrites(w.store, step);
    case Writes(task) => WriteOnLatch(w.store, w.tasks[task], key);
    case Settles(task) =>
      LeaseRuns.SettleWrites(w.store, w.tasks[task].tool, w.tasks[task].decision, w.tasks[task].now);
    case _ =>
  }

  /** Latches survive: a tool's id is latched exactly when some write has latched it
      and no reset has named it since. */
  lemma {:induction false} LatchLaw(r: Run, key: string)
    requires IsRun(r)
    ensures key in Last(r).store.latched <==> exists i :: LatchedFrom(r, i, key)
  {
    if |r| > 0 {
      var n := |r| - 1;
      var p := r[..n];
      LatchLaw(p, key);
      EventOnLatch(r[n].before, r[n].event, key);
      if LatchesKey(r[n], key) {
        assert LatchedFrom(r, n, key);
      } else if key in r[n].before.store.latched && !ResetsKey(r[n], key) {
        var i :| LatchedFrom(p, i, key);
        assert LatchedFrom(r, i, key);
      }
      forall i | LatchedFrom(r, i, key) && i < n ensures LatchedFrom(p, i, key) {
      }
    }
  }

  /** The read is of the wired tool with this id. */
  predicate ReadsKey(x: Instant, key: string) {
    && x.event.Reads? && Wiring(x.before.store, x.event.tool).Some?
    && Wiring(x.before.store, x.event.tool).value.toolId == key
  }

  /** While a latch stands every read of the tool denies, so a task that allows it was
      read before the latch. */
  lemma OnlyReadsBeforeTheLatchAllow(r: Run, i: int, k: int, key: string)
    requires IsRun(r) && LatchedFrom(r, i, key) && 0 <= k < |r| && ReadsKey(r[k], key)
    ensures k > i ==> DecisionOf(r[k]).Deny? && DecisionOf(r[k]).denial.Latched?
    ensures DecisionOf(r[k]).Allow? ==> k < i
  {
    if k > i {
      PrefixIsRun(r, k);
      assert LatchedFrom(r[..k], i, key);
      LatchLaw(r[..k], key);
    }
  }

  // ----- stops -----------------------------------------------------------------------------

  /** The call at this instant, as a moment of the serial engine. */
  function CallAt(x: Instant): LeaseRuns.Moment
    requires x.event.Call?
  {
    LeaseRuns.Moment(x.before.store, x.event.step)
  }

  /** Some answer since `i` came late enough for a stop at `stopped` to be forgotten. */
  ghost predicate ForgottenSince(r: Run, i: int, stopped: int) {
    exists k :: 0 <= i < k < |r| && r[k].event.Call? && Forgets(CallAt(r[k]), stopped)
  }

  /** The call leaves the stop at `i` standing: it does not open the key, and an answer
      that lists it was asked for before the stop and came while that was remembered. */
  ghost predicate LeavesStop(r: Run, i: int, j: int, key: string)
    requires 0 <= i < j < |r| && r[i].event.Call?
  {
    r[j].event.Call? ==>
      var m, stopped := CallAt(r[j]), r[i].event.step.now;
      && !OpensKey(m, key) && PredatesStop(m, key, stopped)
      && (IsAnswer(m) && key in ClaimedKeys(m) ==> !ForgottenSince(r[..j + 1], i, stopped))
  }

  ghost predicate StoppedFrom(r: Run, i: int, key: string) {
    && 0 <= i < |r| && r[i].event.Call? && ClosesKey(CallAt(r[i]), key)
    && forall j :: i < j < |r| ==> LeavesStop(r, i, j, key)
  }

  lemma ForgottenGrows(r: Run, i: int, stopped: int)
    requires |r| > 0 && 0 <= i < |r| - 1
    ensures ForgottenSince(r, i, stopped) <==>
            || ForgottenSince(r[..|r| - 1], i, stopped)
            || (r[|r| - 1].event.Call? && Forgets(CallAt(r[|r| - 1]), stopped))
  {
    var p := r[..|r| - 1];
    assert forall k :: 0 <= k < |p| ==> p[k] == r[k];
  }

  lemma StoppedFromBefore(r: Run, i: int, n: int, key: string)
    requires StoppedFrom(r, i, key) && i < n <= |r|
    ensures StoppedFrom(r[..n], i, key)
  {
    var p := r[..n];
    forall j | i < j < n ensures LeavesStop(p, i, j, key) {
      assert LeavesStop(r, i, j, key) && p[j] == r[j] && p[..j + 1] == r[..j + 1];
    }
  }

  /** No call's clock reading is earlier than one already taken. */
  ghost predicate Chronological(r: Run) {
    forall i, j :: 0 <= i <= j < |r| && r[i].event.Call? && r[j].event.Call? ==>
      r[i].event.step.now <= r[j].event.step.now
  }

  lemma EventOnSessions(w: World, e: Event)
    requires MayHappen(w, e) && !e.Call?
    ensures var s, t := w.store, Happen(w, e).store;
            && t.localStops == s.localStops && t.localSessions == s.localSessions
            && t.syncedInUse == s.syncedInUse && t.grace == s.grace
  {
    match e
    case Writes(task) => WriteWrites(w.store, w.tasks[task]);
    case Settles(task) =>
      LeaseRuns.SettleWrites(w.store, w.tasks[task].tool, w.tasks[task].decision, w.tasks[task].now);
    case _ =>
  }

  lemma {:induction false} StopStandsInStore(r: Run, i: int, key: string)
    requires IsRun(r) && Chronological(r) && StoppedFrom(r, i, key)
    ensures var s, stopped := Last(r).store, r[i].event.step.now;
            && NobodyUses(s, key)
            && (key in s.localStops ==> s.localStops[key] >= stopped)
            && (key in s.localStops || ForgottenSince(r, i, stopped))
    decreases |r|
  {
    var n := |r| - 1;
    if i < n {
      StoppedFromBefore(r, i, n, key);
      StopStandsInStore(r[..n], i, key);
      ForgottenGrows(r, i, r[i].event.step.now);
      if r[n].event.Call? {
        assert LeavesStop(r, i, n, key) && r[..n + 1] == r;
        CallOnStop(CallAt(r[n]), key, r[i].event.step.now, ForgottenSince(r[..n], i, r[i].event.step.now));
      } else {
        EventOnSessions(r[n].before, r[n].event);
      }
    }
  }

  /** Stops survive: through any calls that leave the stop standing, and any tasks,
      the resource is in use at no time and every evaluation of it denies. */
  lemma StopIsNotUndone(r: Run, i: int, key: string)
    requires IsRun(r) && Chronological(r) && StoppedFrom(r, i, key)
    ensures NeverInUse(Last(r).store, key)
    ensures forall name, now, timeout ::
              Wiring(Last(r).store, name).Some? && Wiring(Last(r).store, name).value.toolId == key
              ==> Evaluate(Last(r).store, name, now, timeout).Deny?
  {
    StopStandsInStore(r, i, key);
  }

  /** So a task that allows a stopped tool was read before the stop. */
  lemma OnlyReadsBeforeTheStopAllow(r: Run, i: int, k: int, key: string)
    requires IsRun(r) && Chronological(r) && StoppedFrom(r, i, key) && 0 <= k < |r| && ReadsKey(r[k], key)
    ensures DecisionOf(r[k]).Allow? ==> k < i
  {
    if k > i {
      PrefixIsRun(r, k);
      StoppedFromBefore(r, i, k, key);
      StopIsNotUndone(r[..k], i, key);
    }
  }

  /** What a task carries is what its latest read decided. */
  lemma TaskCarriesItsRead(r: Run, k: int, task: nat)
    requires IsRun(r) && task in Last(r).tasks && ReadAt(r, k, task)
    ensures Last(r).tasks[task].decision == DecisionOf(r[k])
  {
    var i := TasksWereRead(r, task);
    assert i == k;
  }

  /** After a stop a task still under way carries an allow exactly when it was read
      before the stop and was allowed then. */
  lemma WhoStillAllowsAfterAStop(r: Run, i: int, k: int, task: nat, key: string)
    requires IsRun(r) && Chronological(r) && StoppedFrom(r, i, key)
    requires task in Last(r).tasks && ReadAt(r, k, task) && ReadsKey(r[k], key)
    ensures Last(r).tasks[task].decision.Allow? <==> k < i && DecisionOf(r[k]).Allow?
  {
    TaskCarriesItsRead(r, k, task);
    OnlyReadsBeforeTheStopAllow(r, i, k, key);
  }

  /** So what a settling after the stop grants: a task read before it and allowed then
      grants the bindings whose turn has come, and any other grants what still runs on. */
  lemma WhatASettlingGrantsAfterAStop(r: Run, i: int, k: int, task: nat, key: string, w: Tool, b: DeviceBinding)
    requires IsRun(r) && Chronological(r) && StoppedFrom(r, i, key)
    requires task in Last(r).tasks && ReadAt(r, k, task) && ReadsKey(r[k], key)
    ensures var s, t := Last(r).store, Last(r).tasks[task];
            PowerRuling(s, w, b, t.decision, t.now) == Granted <==>
            if k < i && DecisionOf(r[k]).Allow?
            then IsReady(s.relayState, PowerOf(w), b, AllowSince(s, w, t.now), t.now)
            else RunsOn(RunOnTable(s, w, t.now), b, t.now)
  {
    WhoStillAllowsAfterAStop(r, i, k, task, key);
  }

  // ----- and a tick under way does go through ---------------------------------------------------

  /** Every history of whole ticks is one of these runs, each tick and renewal uninterrupted. */
  lemma {:induction false} SerialIsARun(h: LeaseRuns.History) returns (r: Run)
    requires LeaseRuns.IsRun(h) && LeaseRuns.WholeTicks(h)
    ensures IsRun(r) && Last(r) == World(LeaseRuns.Final(h), map[])
  {
    if |h| == 0 {
      r := [];
    } else {
      var m := h[|h| - 1];
      var p := SerialIsARun(h[..|h| - 1]);
      r := OneStepMore(p, m);
    }
  }

  lemma OneStepMore(p: Run, m: LeaseRuns.Moment) returns (r: Run)
    requires !m.step.Settled? && IsRun(p) && Last(p) == World(m.before, map[])
    ensures IsRun(r) && Last(r) == World(m.After(), map[])
  {
    if m.step.Renewed? {
      r := OneTask(p, m.before, m.step.tool, m.step.ttl, m.step.timeout, m.step.now, Returns(0));
    } else if m.step.Ticked? {
      r := OneTask(p, m.before, m.step.tool, m.step.ttl, m.step.timeout, m.step.now, Settles(0));
    } else {
      Extend(p, Call(m.step));
      r := p + [Instant(Last(p), Call(m.step))];
    }
  }

  lemma OneTask(p: Run, s: Store, tool: string, ttl: int, timeout: int, now: int, end: Event) returns (r: Run)
    requires IsRun(p) && Last(p) == World(s, map[]) && (end == Returns(0) || end == Settles(0))
    ensures IsRun(r)
    ensures end.Returns? ==> Last(r) == World(Renew(s, tool, now, ttl, timeout), map[])
    ensures end.Settles? ==> Last(r) == World(TickTool(s, tool, now, ttl, timeout), map[])
  {
    UninterruptedIsOneStep(s, 0, tool, ttl, timeout, now);
    Extend(p, Reads(0, tool, ttl, timeout, now));
    var p1 := p + [Instant(Last(p), Reads(0, tool, ttl, timeout, now))];
    Extend(p1, Writes(0));
    var p2 := p1 + [Instant(Last(p1), Writes(0))];
    Extend(p2, end);
    r := p2 + [Instant(Last(p2), end)];
  }

  /** Allowed since long enough, the saw's plug is granted by any settling that allows. */
  lemma SawSettles(s: Store, since: int)
    requires s.snapshot == Some([LeaseRunOnLaw.SAW]) && since <= 0
    requires "t" in s.allowedSince && s.allowedSince["t"] == since
    ensures Wiring(s, "t") == Some(LeaseRunOnLaw.SAW)
    ensures PowerRuling(s, LeaseRunOnLaw.SAW, LeaseRunOnLaw.PLUG, Allow, 20) == Granted
  {
    LeaseRunOnLaw.SawIsWired(s);
    assert StageBase(s.relayState, [LeaseRunOnLaw.PLUG], 0, since) == Some(since);
  }

  /** The task settles a saw no one uses, and grants its plug. */
  ghost predicate GrantsTheStoppedSaw(x: Instant) {
    && x.event == Settles(0) && 0 in x.before.tasks && NeverInUse(x.before.store, "t")
    && Wiring(x.before.store, "t") == Some(LeaseRunOnLaw.SAW)
    && PowerRuling(x.before.store, LeaseRunOnLaw.SAW, LeaseRunOnLaw.PLUG, x.before.tasks[0].decision,
                   x.before.tasks[0].now) == Granted
  }

  lemma {:induction false} SawIsReadThenStopped(p: Run, since: int) returns (r: Run)
    requires IsRun(p) && 0 !in Last(p).tasks && since <= 0
    requires LeaseRunOnLaw.SawIs(Last(p).store, true, Some(since), true, None)
    ensures IsRun(r) && |r| == |p| + 2
    ensures r[|p|].event == Reads(0, "t", 5, 5, 20) && ReadsKey(r[|p|], "t") && DecisionOf(r[|p|]).Allow?
    ensures r[|p| + 1].event.Call? && ClosesKey(CallAt(r[|p| + 1]), "t")
    ensures LeaseRunOnLaw.SawIs(Last(r).store, false, Some(since), true, None)
    ensures 0 in Last(r).tasks && Last(r).tasks[0] == Task("t", 5, 20, Allow, false)
  {
    LeaseRunOnLaw.SawIsWired(Last(p).store);
    LeaseRunOnLaw.SawDecision(Last(p).store, true, Some(since), true, None, 20);
    Extend(p, Reads(0, "t", 5, 5, 20));
    var p1 := p + [Instant(Last(p), Reads(0, "t", 5, 5, 20))];
    Extend(p1, Call(LeaseRuns.Closed("t", 21)));
    LeaseRunOnLaw.SawCloses(Last(p1).store, Some(since), true, None, 21);
    r := p1 + [Instant(Last(p1), Call(LeaseRuns.Closed("t", 21)))];
  }

  lemma {:induction false} SawActs(p: Run, since: int) returns (r: Run)
    requires IsRun(p) && 0 in Last(p).tasks && Last(p).tasks[0] == Task("t", 5, 20, Allow, false) && since <= 0
    requires LeaseRunOnLaw.SawIs(Last(p).store, false, Some(since), true, None)
    ensures IsRun(r) && |r| == |p| + 2 && r[..|p|] == p && r[|p|].event == Writes(0)
    ensures GrantsTheStoppedSaw(r[|p| + 1])
  {
    Extend(p, Writes(0));
    var q := p + [Instant(Last(p), Writes(0))];
    WriteWrites(Last(p).store, Last(p).tasks[0]);
    SawSettles(Last(q).store, since);
    Extend(q, Settles(0));
    r := q + [Instant(Last(q), Settles(0))];
  }

  lemma {:induction false} SawOvertaken(p: Run, since: int) returns (r: Run)
    requires IsRun(p) && 0 !in Last(p).tasks && since <= 0
    requires LeaseRunOnLaw.SawIs(Last(p).store, true, Some(since), true, None)
    ensures IsRun(r) && |r| == |p| + 4
    ensures ReadsKey(r[|p|], "t") && DecisionOf(r[|p|]).Allow? && ReadAt(r, |p|, 0)
    ensures r[|p| + 1].event.Call? && ClosesKey(CallAt(r[|p| + 1]), "t")
    ensures GrantsTheStoppedSaw(r[|p| + 3])
  {
    var p2 := SawIsReadThenStopped(p, since);
    r := SawActs(p2, since);
    assert forall j :: 0 <= j < |p2| ==> r[j] == r[..|p2|][j];
  }

  /** A run in which a plug is granted after its saw was stopped: the stop falls between
      the read that allowed the saw and the settling that acts on it. */
  lemma ATickUnderWayGrantsAfterTheStop() returns (r: Run, k: nat, i: nat)
    ensures IsRun(r) && k < i < |r| - 1
    ensures ReadsKey(r[k], "t") && DecisionOf(r[k]).Allow? && ReadAt(r, k, 0)
    ensures r[i].event.Call? && ClosesKey(CallAt(r[i]), "t")
    ensures GrantsTheStoppedSaw(r[|r| - 1])
  {
    var h := LeaseRunOnLaw.SawGranted();
    var p := SerialIsARun(h);
    k, i := |p|, |p| + 1;
    r := SawOvertaken(p, 0);
  }
}
