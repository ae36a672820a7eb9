/** Latches when ticks are interrupted: which tripped reads end as a latch. What counts
    is the wiring the write finds, not the one the read saw, and a reset in between
    does not call the write back. */
module LeaseLatchRaces {
  import opened Wrappers
  import opened Wire
  import opened LeaseEngine
  import opened LeaseInterleaving
  import LeaseRuns

  // ----- which reads latch ------------------------------------------------

  /** The read at `k` tripped on the condition, its write at `j` latched the key, and
      no later write has latched it nor any reset named it. */
  ghost predicate LatchedBy(r: Run, k: int, j: int, key: string, condition: string) {
    && 0 <= k < j < |r| && LatchesKey(r[j], key) && ReadAt(r[..j], k, r[j].event.task)
    && DecisionOf(r[k]) == Deny(Tripped(condition))
    && forall m :: j < m < |r| ==> !LatchesKey(r[m], key) && !ResetsKey(r[m], key)
  }

  lemma EventOnLatchedCondition(w: World, e: Event, key: string, condition: string)
    requires MayHappen(w, e)
    ensures var s, t := w.store.latched, Happen(w, e).store.latched;
            (key in t && t[key] == condition) <==>
            if LatchesKey(Instant(w, e), key) then WrittenTask(Instant(w, e)).decision == Deny(Tripped(condition))
            else key in s && s[key] == condition && !ResetsKey(Instant(w, e), key)
  {
    match e
    case Call(step) => LeaseRuns.WhatAStepWrites(w.store, step);
    case Settles(task) =>
      LeaseRuns.SettleWrites(w.store, w.tasks[task].tool, w.tasks[task].decision, w.tasks[task].now);
    case _ =>
  }

  lemma LatchedByGrows(r: Run, k: int, j: int, key: string, condition: string)
    requires |r| > 0 && j < |r| - 1
    ensures LatchedBy(r, k, j, key, condition) <==>
            && LatchedBy(r[..|r| - 1], k, j, key, condition)
            && !LatchesKey(r[|r| - 1], key) && !ResetsKey(r[|r| - 1], key)
  {
    var p := r[..|r| - 1];
    if 0 <= j {
      assert p[..j] == r[..j];
    }
    assert forall m :: 0 <= m < |p| ==> p[m] == r[m];
  }

  ghost predicate IsLatchedBy(r: Run, key: string, condition: string) {
    exists k, j :: LatchedBy(r, k, j, key, condition)
  }

  /** An event that writes no latch of the key keeps the last that did, or resets it. */
  lemma LatchedByBefore(r: Run, key: string, condition: string)
    requires |r| > 0 && !LatchesKey(r[|r| - 1], key)
    ensures IsLatchedBy(r, key, condition) <==>
            IsLatchedBy(r[..|r| - 1], key, condition) && !ResetsKey(r[|r| - 1], key)
  {
    var p := r[..|r| - 1];
    if IsLatchedBy(r, key, condition) {
      var k, j :| LatchedBy(r, k, j, key, condition);
      LatchedByGrows(r, k, j, key, condition);
    }
    if IsLatchedBy(p, key, condition) {
      var k, j :| LatchedBy(p, k, j, key, condition);
      LatchedByGrows(r, k, j, key, condition);
    }
  }

  /** A write that latches the key latches what its task's read tripped on. */
  lemma LatchedByNow(r: Run, key: string, condition: string)
    requires IsRun(r) && |r| > 0 && LatchesKey(r[|r| - 1], key)
    ensures IsLatchedBy(r, key, condition) <==> WrittenTask(r[|r| - 1]).decision == Deny(Tripped(condition))
  {
    var n := |r| - 1;
    var i := TasksWereRead(r[..n], r[n].event.task);
    if IsLatchedBy(r, key, condition) {
      var k, j :| LatchedBy(r, k, j, key, condition);
      assert j == n && k == i;
    } else {
      assert !LatchedBy(r, i, n, key, condition);
    }
  }

  /** Whatever comes between a tick's parts, a tool's id is latched on a condition
      exactly when some read tripped on it, the tool the write found wired under that
      id has a rule that latches it, and since that write no other has latched the id
      and no reset has named it. */
  lemma {:induction false} LatchIsATrippedRead(r: Run, key: string, condition: string)
    requires IsRun(r)
    ensures var latched := Last(r).store.latched;
            (key in latched && latched[key] == condition) <==>
            exists k, j :: LatchedBy(r, k, j, key, condition)
  {
    if |r| > 0 {
      var n := |r| - 1;
      LatchIsATrippedRead(r[..n], key, condition);
      EventOnLatchedCondition(r[n].before, r[n].event, key, condition);
      if LatchesKey(r[n], key) {
        LatchedByNow(r, key, condition);
      } else {
        LatchedByBefore(r, key, condition);
      }
    }
  }

  /** A read that tripped ends latched, at its write, exactly when the tool then wired
      under the name it read has a rule that latches the condition; what the read saw
      and what was reset since do not matter. */
  lemma ATrippedReadLatchesExactly(r: Run, k: int, task: nat, condition: string)
    requires IsRun(r) && ReadAt(r, k, task) && DecisionOf(r[k]) == Deny(Tripped(condition))
    requires task in Last(r).tasks && !Last(r).tasks[task].isWritten
    ensures var s, t, name := Last(r).store, Happen(Last(r), Writes(task)).store, r[k].event.tool;
            var key := ToolKey(s, name);
            (key in t.latched && t.latched[key] == condition) <==>
            || (Wiring(s, name).Some? && exists x :: x in Wiring(s, name).value.interlocks
                                                    && x.kind == KIND_TRIP && x.condition == condition && x.latch)
            || (key in s.latched && s.latched[key] == condition)
  {
    TaskCarriesItsRead(r, k, task);
    var i := TasksWereRead(r, task);
    assert i == k;
    EventOnLatchedCondition(Last(r), Writes(task), ToolKey(Last(r).store, r[k].event.tool), condition);
  }

  // ----- a tripped read overtaken -----------------------------------------------

  const SMOKER := Tool("laser", None, "tool", "", false, [], [InterlockRule(KIND_TRIP, "smoke", 0, true)])
  const BARE := SMOKER.(interlocks := [])

  ghost predicate SmokerTrips(s: Store) {
    s.snapshot == Some([SMOKER]) && s.latched == map[] && s.readings == map[("laser", "smoke") := Reading(true, 1)]
  }

  lemma SmokerDecides(s: Store)
    requires SmokerTrips(s)
    ensures Wiring(s, "laser") == Some(SMOKER) && Evaluate(s, "laser", 2, 5) == Deny(Tripped("smoke"))
    ensures LatchesTrip(SMOKER, "smoke") && !LatchesTrip(BARE, "smoke")
  {
    assert |"flow_ok"| == 7 && |"smoke"| == 5 && |"authorized"| == 10;
    assert SMOKER.interlocks[0] in SMOKER.interlocks;
  }

  lemma SmokerIsRead() returns (r: Run)
    ensures IsRun(r) && |r| == 3 && SmokerTrips(Last(r).store)
    ensures r[2].event == Reads(0, "laser", 5, 5, 2) && DecisionOf(r[2]) == Deny(Tripped("smoke"))
    ensures forall j :: 0 <= j < |r| ==> !ResetsKey(r[j], "laser")
    ensures Last(r).tasks == map[0 := Task("laser", 5, 2, Deny(Tripped("smoke")), false)]
  {
    var e0, e1 := Call(LeaseRuns.StateApplied([SMOKER], None, 0)), Call(LeaseRuns.Observed("laser", "smoke", true, 1));
    Extend([], e0);
    var r0 := [] + [Instant(Last([]), e0)];
    Extend(r0, e1);
    var r1 := r0 + [Instant(Last(r0), e1)];
    SmokerDecides(Last(r1).store);
    Extend(r1, Reads(0, "laser", 5, 5, 2));
    r := r1 + [Instant(Last(r1), Reads(0, "laser", 5, 5, 2))];
  }

  /** A run in which a reset falls between the read that tripped and its write: the
      laser ends latched although the reset came after the trip was decided. */
  lemma AResetIsOvertaken() returns (r: Run)
    ensures IsRun(r) && |r| == 5 && r[2].event.Reads? && DecisionOf(r[2]) == Deny(Tripped("smoke"))
    ensures ResetsKey(r[3], "laser") && r[4].event == Writes(0)
    ensures Last(r).store.latched == map["laser" := "smoke"]
  {
    var p := SmokerIsRead();
    var e := Call(LeaseRuns.LatchReset("laser", 3));
    Extend(p, e);
    var q := p + [Instant(Last(p), e)];
    SmokerDecides(Last(q).store);
    Extend(q, Writes(0));
    r := q + [Instant(Last(q), Writes(0))];
  }

  /** A run in which the rule is taken out of the wiring between the two: the trip is
      what the tick reports, and nothing is latched. */
  lemma ATripWithoutItsRuleIsForgotten() returns (r: Run)
    ensures IsRun(r) && |r| == 5 && r[2].event.Reads? && DecisionOf(r[2]) == Deny(Tripped("smoke"))
    ensures r[4].event == Writes(0) && r[4].before.tasks[0].decision == Deny(Tripped("smoke"))
    ensures forall j :: 0 <= j < |r| ==> !ResetsKey(r[j], "laser")
    ensures Last(r).store.latched == map[]
  {
    var p := SmokerIsRead();
    var e := Call(LeaseRuns.StateApplied([BARE], None, 3));
    SmokerDecides(Last(p).store);
    Extend(p, e);
    var q := p + [Instant(Last(p), e)];
    assert Wiring(Last(q).store, "laser") == Some(BARE);
    Extend(q, Writes(0));
    r := q + [Instant(Last(q), Writes(0))];
  }
}
