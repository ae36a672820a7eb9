/** Start sequencing, run-on and debounce when ticks are interrupted. A run of
    interleaved tasks is seen by the bindings as a history of calls and settlings, each
    settling carrying the decision its tick read; so the laws of the serial engine hold
    of it, however many ticks overlap and whatever comes between their parts. */
module LeaseSettling {
  import opened Wrappers
  import opened Wire
  import opened LeaseEngine
  import opened LeaseRuns
  import opened LeaseReadings
  import opened LeaseSequencing
  import opened LeaseRunOn
  import opened LeaseRunOnLaw
  import LeaseInterleaving

  type Run = LeaseInterleaving.Run

  /** The store but for what a task writes before it settles. */
  function Shown(s: Store): Store {
    s.(leases := map[], latched := map[])
  }

  /** The settling a task still has to do. */
  function SettlingOf(w: LeaseInterleaving.World, task: nat): Moment
    requires task in w.tasks
  {
    var t := w.tasks[task];
    Moment(Shown(w.store), Settled(t.tool, t.decision, t.ttl, t.now))
  }

  /** What an instant is to the bindings: a call, a settling, or nothing. */
  function Seen(x: LeaseInterleaving.Instant): History {
    match x.event
    case Call(step) => [Moment(Shown(x.before.store), step)]
    case Settles(task) => if task in x.before.tasks then [SettlingOf(x.before, task)] else []
    case _ => []
  }

  /** The calls and the settlings of a run, in order. */
  function Settlings(r: Run): History {
    if |r| == 0 then [] else Settlings(r[..|r| - 1]) + Seen(r[|r| - 1])
  }

  lemma SessionCallIsShown(s: Store, step: Step)
    requires step.Opened? || step.Closed? || step.Reconciled? || step.StateApplied?
    ensures Next(Shown(s), step) == Shown(Next(s, step))
  {
  }

  lemma NoteIsShown(s: Store, step: Step)
    requires step.SetGrace? || step.RelayNoted? || step.ModuleNoted? || step.DeviceNoted? || step.LatchReset?
    ensures Next(Shown(s), step) == Shown(Next(s, step))
  {
  }

  lemma ObservedIsShown(s: Store, step: Step)
    requires step.Observed?
    ensures Next(Shown(s), step) == Shown(Next(s, step))
  {
  }

  lemma CallIsShown(s: Store, step: Step)
    requires !step.Renewed? && !Settles(step)
    ensures Next(Shown(s), step) == Shown(Next(s, step))
  {
    if step.Opened? || step.Closed? || step.Reconciled? || step.StateApplied? {
      SessionCallIsShown(s, step);
    } else if step.Observed? {
      ObservedIsShown(s, step);
    } else {
      NoteIsShown(s, step);
    }
  }

  lemma SettlingIsShown(s: Store, name: string, d: Decision, now: int)
    ensures SettleTool(Shown(s), name, d, now) == Shown(SettleTool(s, name, d, now))
  {
    if Wiring(s, name).Some? {
      SettleIgnoresLeases(s, Shown(s), Wiring(s, name).value, d, now);
    }
  }

  lemma EventIsSeen(w: LeaseInterleaving.World, e: LeaseInterleaving.Event)
    requires LeaseInterleaving.MayHappen(w, e)
    ensures var seen, after := Seen(LeaseInterleaving.Instant(w, e)), Shown(LeaseInterleaving.Happen(w, e).store);
            if |seen| == 0 then after == Shown(w.store)
            else |seen| == 1 && seen[0].before == Shown(w.store) && seen[0].After() == after
  {
    match e
    case Call(step) => CallIsShown(w.store, step);
    case Settles(task) => SettlingIsShown(w.store, w.tasks[task].tool, w.tasks[task].decision, w.tasks[task].now);
    case Writes(task) => LeaseInterleaving.WriteWrites(w.store, w.tasks[task]);
    case _ =>
  }

  /** Every interleaved run is, to the bindings, a history of calls and settlings. */
  lemma {:induction false} SettlingsAreARun(r: Run)
    requires LeaseInterleaving.IsRun(r)
    ensures IsRun(Settlings(r)) && Final(Settlings(r)) == Shown(LeaseInterleaving.Last(r).store)
  {
    if |r| > 0 {
      var n := |r| - 1;
      SettlingsAreARun(r[..n]);
      EventIsSeen(r[n].before, r[n].event);
      var seen := Seen(r[n]);
      if |seen| > 0 {
        assert seen == [seen[0]];
        ExtendRun(Settlings(r[..n]), seen[0]);
      } else {
        assert Settlings(r) == Settlings(r[..n]);
      }
    }
  }

  /** What a task about to settle rules for a binding. */
  lemma SettlingRules(r: Run, task: nat, b: DeviceBinding)
    requires LeaseInterleaving.IsRun(r) && task in LeaseInterleaving.Last(r).tasks
    requires Wiring(LeaseInterleaving.Last(r).store, LeaseInterleaving.Last(r).tasks[task].tool).Some?
    ensures var s, t := LeaseInterleaving.Last(r).store, LeaseInterleaving.Last(r).tasks[task];
            RulingAt(SettlingOf(LeaseInterleaving.Last(r), task), b)
            == PowerRuling(s, Wiring(s, t.tool).value, b, t.decision, t.now)
  {
  }

  // ----- the laws ---------------------------------------------------------

  /** The settling about to happen, with everything the bindings have seen. */
  ghost predicate AboutToSettle(r: Run, task: nat, h: History, m: Moment) {
    && LeaseInterleaving.IsRun(r)
    && LeaseInterleaving.MayHappen(LeaseInterleaving.Last(r), LeaseInterleaving.Settles(task))
    && h == Settlings(r) && m == SettlingOf(LeaseInterleaving.Last(r), task)
  }

  /** Start sequencing: a settling that allows grants a power binding exactly when its
      turn has come, counted from the first settling of the tool's current run of
      allows, and withholds it otherwise. */
  lemma SettlingGrantsInTurn(r: Run, task: nat, h: History, m: Moment, key: string) returns (i: int)
    requires AboutToSettle(r, task, h, m) && AllowTick(m, key)
    ensures BeginsAllowRun(h + [m], i, key)
    ensures var s, t, w := LeaseInterleaving.Last(r).store, LeaseInterleaving.Last(r).tasks[task], TickedTool(m);
            forall b :: b in PowerOf(w) ==>
              PowerRuling(s, w, b, t.decision, t.now)
              == if TurnHasCome(h, w, b, (h + [m])[i].step.now, t.now) then Granted else Withheld
  {
    SettlingsAreARun(r);
    i := AllowTickIsInARun(h, m, key);
    AllowTickGrantsInTurn(h, m, key, i);
    forall b | b in PowerOf(TickedTool(m))
      ensures RulingAt(m, b) == PowerRuling(LeaseInterleaving.Last(r).store, TickedTool(m), b, m.step.decision,
                                            m.step.now)
    {
      SettlingRules(r, task, b);
    }
  }

  /** Run-on: a settling that denies grants a power binding exactly when it has a run-on
      time, was granted by some settling and not refused by one since, and that time has
      not run out since the first denying settling after the last that allowed; whatever
      else of the wiring has changed meanwhile. */
  lemma SettlingRunOnLaw(r: Run, task: nat, h: History, m: Moment, key: string, b: DeviceBinding)
    requires AboutToSettle(r, task, h, m) && DenyTick(m, key)
    requires b in PowerOf(TickedTool(m)) && BindingKept(h, key, b.id, b.runOnMs)
    ensures var s, t := LeaseInterleaving.Last(r).store, LeaseInterleaving.Last(r).tasks[task];
            PowerRuling(s, TickedTool(m), b, t.decision, t.now) == Granted <==>
            b.runOnMs > 0 && Kept(h, key, b.id) && StillRuns(h + [m], key, b.runOnMs, t.now)
  {
    SettlingsAreARun(r);
    RunOnLaw(h, m, key, b.id, b.runOnMs);
    WiringKeeps(h, key, b.id, b.runOnMs);
    RulingIsOf(m, key, b);
    SettlingRules(r, task, b);
  }

  /** The ruling found by the id is that of the binding the tool has. */
  lemma RulingIsOf(m: Moment, key: string, b: DeviceBinding)
    requires TicksTool(m, key) && b in PowerOf(TickedTool(m)) && KeptIn(m.before, key, b.id, b.runOnMs)
    ensures RulingOf(m, b.id) == RulingAt(m, b)
  {
    TickedToolKeeps(m, key, b.id, b.runOnMs);
    BindingOfOwner(PowerOf(TickedTool(m)), b);
  }

  /** And a binding refused by a settling is refused by every later one until one allows. */
  lemma SettlingRefusalStands(r: Run, task: nat, h: History, m: Moment, i: nat, key: string, b: DeviceBinding)
    requires AboutToSettle(r, task, h, m) && DenyTick(m, key)
    requires b in PowerOf(TickedTool(m)) && BindingKept(h, key, b.id, b.runOnMs)
    requires i < |h| && DenyTick(h[i], key) && RulingOf(h[i], b.id) == Refused
    requires forall j :: i < j < |h| ==> !AllowTick(h[j], key)
    ensures var s, t := LeaseInterleaving.Last(r).store, LeaseInterleaving.Last(r).tasks[task];
            PowerRuling(s, TickedTool(m), b, t.decision, t.now) == Refused
  {
    SettlingsAreARun(r);
    ExtendRun(h, m);
    RefusalStandsUntilAllow(h + [m], i, |h|, key, b.id, b.runOnMs);
    WiringKeeps(h, key, b.id, b.runOnMs);
    RulingIsOf(m, key, b);
    SettlingRules(r, task, b);
  }

  /** After a stop: a settling whose tick was read before it, and allowed then, grants
      the bindings whose turn has come since the settling at `j`, where the tool's run of
      allows began; any other grants exactly what still runs on. */
  lemma SettlingAfterAStop(r: Run, i: int, k: int, task: nat, h: History, m: Moment, key: string, b: DeviceBinding)
    returns (j: int)
    requires AboutToSettle(r, task, h, m) && TicksTool(m, key)
    requires b in PowerOf(TickedTool(m)) && BindingKept(h, key, b.id, b.runOnMs)
    requires LeaseInterleaving.Chronological(r) && LeaseInterleaving.StoppedFrom(r, i, key)
    requires LeaseInterleaving.ReadAt(r, k, task) && LeaseInterleaving.ReadsKey(r[k], key)
    ensures k < i && LeaseInterleaving.DecisionOf(r[k]).Allow? ==> BeginsAllowRun(h + [m], j, key)
    ensures var s, t := LeaseInterleaving.Last(r).store, LeaseInterleaving.Last(r).tasks[task];
            PowerRuling(s, TickedTool(m), b, t.decision, t.now) == Granted <==>
            if k < i && LeaseInterleaving.DecisionOf(r[k]).Allow?
            then TurnHasCome(h, TickedTool(m), b, (h + [m])[j].step.now, t.now)
            else b.runOnMs > 0 && Kept(h, key, b.id) && StillRuns(h + [m], key, b.runOnMs, t.now)
  {
    LeaseInterleaving.WhoStillAllowsAfterAStop(r, i, k, task, key);
    j := 0;
    if m.step.decision.Allow? {
      j := SettlingGrantsInTurn(r, task, h, m, key);
    } else {
      SettlingRunOnLaw(r, task, h, m, key, b);
    }
  }

  /** Debounce: what is held of a condition is the latest value observed and the start
      of its unbroken run, whatever ticks are under way. */
  lemma ReadingsIgnoreTicks(r: Run, tool: string, condition: string) returns (k: int)
    requires LeaseInterleaving.IsRun(r)
    ensures var seen := Observations(Settlings(r), tool, condition);
            var readings := LeaseInterleaving.Last(r).store.readings;
            && ((tool, condition) in readings <==> |seen| > 0)
            && (|seen| > 0 ==>
                  && SteadyFrom(seen, k)
                  && readings[(tool, condition)] == Reading(seen[|seen| - 1].asserted, seen[k].at))
  {
    SettlingsAreARun(r);
    k := ReadingIsMaximalRun(Settlings(r), tool, condition);
  }
}
