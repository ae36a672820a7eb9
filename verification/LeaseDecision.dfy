/** What a decision means, and what a run of decisions leaves behind: leases that
    lapse with their renewals, and latches that outlive everything but a reset. */
module LeaseDecision {
  import opened Wrappers
  import opened Wire
  import opened LeaseEngine
  import opened LeaseRuns

  // ----- one decision ---------------------------------------------------

  lemma {:induction false} NothingOffline(s: Store, modules: seq<DeviceBinding>, now: int, timeout: int)
    ensures FirstOffline(s, modules, now, timeout).None?
         <==> forall b :: b in modules ==> !IsOffline(s, b, now, timeout)
  {
    if |modules| > 0 {
      NothingOffline(s, modules[1..], now, timeout);
      assert modules == [modules[0]] + modules[1..];
    }
  }

  /** The place of the first rule that is not both observed and met; its refusal
      is the list's, and a list without one refuses nothing. */
  lemma {:induction false} FirstUnmetRule(s: Store, key: string, rules: seq<InterlockRule>, now: int) returns (i: nat)
    ensures i <= |rules|
    ensures forall j :: 0 <= j < i ==> Satisfied(s, key, rules[j], now) == Some(true)
    ensures i < |rules| ==> Satisfied(s, key, rules[i], now) != Some(true)
    ensures FirstRuleDenial(s, key, rules, now)
         == if i < |rules| then RuleDenial(s, key, rules[i], now) else None
  {
    if |rules| == 0 || RuleDenial(s, key, rules[0], now).Some? {
      i := 0;
    } else {
      var k := FirstUnmetRule(s, key, rules[1..], now);
      i := k + 1;
      assert forall j :: 0 < j < i ==> rules[j] == rules[1..][j - 1];
    }
  }

  /** The module is one whose silence denies, and it was heard from in time. */
  predicate IsHeard(s: Store, b: DeviceBinding, now: int, timeout: int) {
    b.id in s.moduleSeen && now - s.moduleSeen[b.id] <= timeout
  }

  /** What it takes to allow a wired tool, and all it takes: no latch, word from every
      module whose silence denies, every rule observed and met, and someone using it. */
  lemma AllowMeans(s: Store, name: string, now: int, timeout: int)
    requires Wiring(s, name).Some?
    ensures var w := Wiring(s, name).value;
            Evaluate(s, name, now, timeout).Allow? <==>
              && w.toolId !in s.latched
              && (forall b :: b in w.modules && b.role != ROLE_EDGE && b.onDisconnect == ON_DISCONNECT_FAIL_OFF
                              ==> IsHeard(s, b, now, timeout))
              && (forall r :: r in w.interlocks ==> Satisfied(s, w.toolId, r, now) == Some(true))
              && InUse(s, w.toolId, now)
  {
    var w := Wiring(s, name).value;
    NothingOffline(s, w.modules, now, timeout);
    var i := FirstUnmetRule(s, w.toolId, w.interlocks, now);
    assert i < |w.interlocks| ==> w.interlocks[i] in w.interlocks;
    assert forall b :: b in w.modules ==>
      (IsOffline(s, b, now, timeout) <==>
       b.role != ROLE_EDGE && b.onDisconnect == ON_DISCONNECT_FAIL_OFF && !IsHeard(s, b, now, timeout));
  }

  /** Silence from the module at `i` denies, it is silent, and those before it are not. */
  ghost predicate IsFirstSilent(s: Store, w: Tool, i: int, now: int, timeout: int) {
    && 0 <= i < |w.modules|
    && w.modules[i].role != "edge" && w.modules[i].onDisconnect == "fail_off" && !IsHeard(s, w.modules[i], now, timeout)
    && forall j :: 0 <= j < i && w.modules[j].role != "edge" && w.modules[j].onDisconnect == "fail_off" ==>
         IsHeard(s, w.modules[j], now, timeout)
  }

  ghost predicate AllAreHeard(s: Store, w: Tool, now: int, timeout: int) {
    forall b :: b in w.modules && b.role != "edge" && b.onDisconnect == "fail_off" ==> IsHeard(s, b, now, timeout)
  }

  /** The rule at `i` is not both observed and met, and those before it are. */
  ghost predicate IsFirstUnmet(s: Store, w: Tool, i: int, now: int) {
    && 0 <= i < |w.interlocks| && Satisfied(s, w.toolId, w.interlocks[i], now) != Some(true)
    && forall j :: 0 <= j < i ==> Satisfied(s, w.toolId, w.interlocks[j], now) == Some(true)
  }

  lemma {:induction false} FirstSilent(s: Store, modules: seq<DeviceBinding>, now: int, timeout: int) returns (i: nat)
    ensures i <= |modules| && forall j :: 0 <= j < i ==> !IsOffline(s, modules[j], now, timeout)
    ensures i < |modules| ==> IsOffline(s, modules[i], now, timeout)
    ensures FirstOffline(s, modules, now, timeout) == if i < |modules| then Some(modules[i].name) else None
  {
    if |modules| == 0 || IsOffline(s, modules[0], now, timeout) {
      i := 0;
    } else {
      var k := FirstSilent(s, modules[1..], now, timeout);
      i := k + 1;
      assert forall j :: 0 < j < i ==> modules[j] == modules[1..][j - 1];
    }
  }

  lemma SilentIsOffline(s: Store, b: DeviceBinding, now: int, timeout: int)
    ensures IsOffline(s, b, now, timeout) <==>
            b.role != "edge" && b.onDisconnect == "fail_off" && !IsHeard(s, b, now, timeout)
  {
  }

  lemma FirstSilentDenies(s: Store, w: Tool, i: int, now: int, timeout: int)
    requires IsFirstSilent(s, w, i, now, timeout)
    ensures FirstOffline(s, w.modules, now, timeout) == Some(w.modules[i].name)
  {
    var k := FirstSilent(s, w.modules, now, timeout);
    SilentIsOffline(s, w.modules[i], now, timeout);
    forall j | 0 <= j < i ensures !IsOffline(s, w.modules[j], now, timeout) {
      SilentIsOffline(s, w.modules[j], now, timeout);
    }
  }

  lemma FirstUnmetDenies(s: Store, w: Tool, i: int, now: int)
    requires IsFirstUnmet(s, w, i, now)
    ensures FirstRuleDenial(s, w.toolId, w.interlocks, now) == RuleDenial(s, w.toolId, w.interlocks[i], now)
    ensures RuleDenial(s, w.toolId, w.interlocks[i], now)
         == Some(if Satisfied(s, w.toolId, w.interlocks[i], now).None? then Unobserved(w.interlocks[i].condition)
                 else if w.interlocks[i].kind == "trip" then Tripped(w.interlocks[i].condition)
                 else Gate(w.interlocks[i].condition))
  {
    var k := FirstUnmetRule(s, w.toolId, w.interlocks, now);
  }

  /** Which refusal is given: before any wiring has come, that nothing is known; of a wired
      tool its latch, then the first module that is silent and must not be, then the first
      rule that is unobserved or unmet, then that nobody is using it. A tool of which the
      wiring says nothing is not gated. */
  lemma WhichDenial(s: Store, name: string, now: int, timeout: int)
    ensures var d := Evaluate(s, name, now, timeout);
            && (s.snapshot.None? ==> d == Deny(Unknown))
            && (s.snapshot.Some? && Wiring(s, name).None? ==> d == Allow)
            && (Wiring(s, name).Some? ==>
                  var w := Wiring(s, name).value;
                  && (w.toolId in s.latched ==> d == Deny(Latched(s.latched[w.toolId])))
                  && (w.toolId !in s.latched ==>
                        && (forall i :: IsFirstSilent(s, w, i, now, timeout) ==>
                              d == Deny(ModuleOffline(w.modules[i].name)))
                        && (AllAreHeard(s, w, now, timeout) ==>
                              && (forall i :: IsFirstUnmet(s, w, i, now) ==>
                                    var r := w.interlocks[i];
                                    d == Deny(if Satisfied(s, w.toolId, r, now).None? then Unobserved(r.condition)
                                              else if r.kind == "trip" then Tripped(r.condition)
                                              else Gate(r.condition)))
                              && ((forall r :: r in w.interlocks ==> Satisfied(s, w.toolId, r, now) == Some(true)) ==>
                                    d == if InUse(s, w.toolId, now) then Allow else Deny(NotInUse)))))
  {
    if Wiring(s, name).Some? {
      var w := Wiring(s, name).value;
      forall i | IsFirstSilent(s, w, i, now, timeout)
        ensures FirstOffline(s, w.modules, now, timeout) == Some(w.modules[i].name)
      {
        FirstSilentDenies(s, w, i, now, timeout);
      }
      NothingOffline(s, w.modules, now, timeout);
      forall b | b in w.modules
        ensures IsOffline(s, b, now, timeout) <==>
                b.role != "edge" && b.onDisconnect == "fail_off" && !IsHeard(s, b, now, timeout)
      {
        SilentIsOffline(s, b, now, timeout);
      }
      forall i | IsFirstUnmet(s, w, i, now)
        ensures FirstRuleDenial(s, w.toolId, w.interlocks, now)
             == Some(if Satisfied(s, w.toolId, w.interlocks[i], now).None? then Unobserved(w.interlocks[i].condition)
                     else if w.interlocks[i].kind == "trip" then Tripped(w.interlocks[i].condition)
                     else Gate(w.interlocks[i].condition))
      {
        FirstUnmetDenies(s, w, i, now);
      }
      var k := FirstUnmetRule(s, w.toolId, w.interlocks, now);
      assert k < |w.interlocks| ==> w.interlocks[k] in w.interlocks;
    }
  }

  /** Wiring more modules or rules to a tool never turns a refusal into a yes. */
  lemma MoreWiringNeverAllows(s: Store, t: Store, name: string, now: int, timeout: int)
    requires t == s.(snapshot := t.snapshot)
    requires Wiring(s, name).Some? && Wiring(t, name).Some?
    requires var v, w := Wiring(s, name).value, Wiring(t, name).value;
             && v.toolId == w.toolId
             && (forall b :: b in v.modules ==> b in w.modules)
             && (forall r :: r in v.interlocks ==> r in w.interlocks)
    ensures Evaluate(t, name, now, timeout).Allow? ==> Evaluate(s, name, now, timeout).Allow?
  {
    AllowMeans(s, name, now, timeout);
    AllowMeans(t, name, now, timeout);
    var key := Wiring(s, name).value.toolId;
    assert forall r: InterlockRule :: Satisfied(t, key, r, now) == Satisfied(s, key, r, now);
    assert forall b: DeviceBinding :: IsHeard(t, b, now, timeout) == IsHeard(s, b, now, timeout);
  }

  /** The trip at this place is the first thing wrong with the tool. */
  predicate TripIsFirst(s: Store, w: Tool, i: nat, now: int, timeout: int) {
    && i < |w.interlocks|
    && w.toolId !in s.latched
    && (forall b :: b in w.modules ==> !IsOffline(s, b, now, timeout))
    && (forall j :: 0 <= j < i ==> Satisfied(s, w.toolId, w.interlocks[j], now) == Some(true))
    && Satisfied(s, w.toolId, w.interlocks[i], now) == Some(false)
    && w.interlocks[i].kind == KIND_TRIP
  }

  lemma TripDecision(s: Store, w: Tool, now: int, timeout: int, condition: string)
    ensures EvaluateWired(s, w, now, timeout) == Deny(Tripped(condition)) <==>
            exists i: nat :: TripIsFirst(s, w, i, now, timeout) && w.interlocks[i].condition == condition
  {
    NothingOffline(s, w.modules, now, timeout);
    var first := FirstUnmetRule(s, w.toolId, w.interlocks, now);
    if EvaluateWired(s, w, now, timeout) == Deny(Tripped(condition)) {
      assert TripIsFirst(s, w, first, now, timeout) && w.interlocks[first].condition == condition;
    }
    forall i: nat | TripIsFirst(s, w, i, now, timeout)
      ensures i == first
    {
      assert Satisfied(s, w.toolId, w.interlocks[i], now) == Some(false);
    }
  }

  /** A renewal latches a condition exactly when a trip on it is the first thing
      wrong and some trip rule on that condition latches. A firing trip behind a
      silent module or an earlier unmet rule is not recorded. */
  lemma RenewLatchesExactly(s: Store, name: string, now: int, ttl: int, timeout: int, condition: string)
    requires Wiring(s, name).Some?
    ensures var w := Wiring(s, name).value;
            var after := Renew(s, name, now, ttl, timeout);
            && ((w.toolId !in s.latched && w.toolId in after.latched && after.latched[w.toolId] == condition) <==>
                ((exists r :: r in w.interlocks && r.kind == KIND_TRIP && r.condition == condition && r.latch)
                 && exists i: nat :: TripIsFirst(s, w, i, now, timeout) && w.interlocks[i].condition == condition))
            && (w.toolId in s.latched ==> after.latched == s.latched)
  {
    var w := Wiring(s, name).value;
    TripDecision(s, w, now, timeout, condition);
    TripMeansUnlatched(s, name, now, timeout);
    RenewWrites(s, name, now, ttl, timeout);
  }

  const MASKED_TOOL := Tool("laser", None, "tool", "", false, [],
                            [InterlockRule(KIND_START_GATE, "flow_ok", 0, false), InterlockRule(KIND_TRIP, "smoke",
                                0, true)])

  const SMOKE := ("laser", "smoke")
  const FLOW := ("laser", "flow_ok")

  /** The laser in use and unlatched, with these readings. */
  ghost predicate LaserIs(s: Store, readings: map<(string, string), Reading>) {
    && s.snapshot == Some([MASKED_TOOL]) && s.latched == map[]
    && "laser" in s.localSessions && s.localSessions["laser"].endsAt.None?
    && s.readings == readings
  }

  /** What the laser decides from its two rules. */
  lemma LaserDecides(s: Store, readings: map<(string, string), Reading>, now: int, timeout: int)
    requires LaserIs(s, readings)
    ensures var rules := MASKED_TOOL.interlocks;
            Evaluate(s, "laser", now, timeout)
            == if RuleDenial(s, "laser", rules[0], now).Some? then Deny(RuleDenial(s, "laser", rules[0], now).value)
               else if RuleDenial(s, "laser", rules[1], now).Some? then Deny(RuleDenial(s, "laser", rules[1],
                   now).value)
               else Allow
  {
    var rules := MASKED_TOOL.interlocks;
    assert rules[1..] == [rules[1]] && rules[1..][1..] == [];
    assert Resolve([MASKED_TOOL], "laser") == Some(MASKED_TOOL);
    assert FirstRuleDenial(s, "laser", rules[1..], now) == RuleDenial(s, "laser", rules[1], now);
  }

  lemma LaserObserves(s: Store, readings: map<(string, string), Reading>, condition: string, asserted: bool, now: int)
    requires LaserIs(s, readings)
         && (("laser", condition) in readings ==> readings[("laser", condition)].asserted != asserted)
    ensures LaserIs(Next(s, Observed("laser", condition, asserted, now)),
                    readings[("laser", condition) := Reading(asserted, now)])
  {
  }

  lemma LaserFires(s: Store, timeout: int)
    requires LaserIs(s, map[SMOKE := Reading(true, 2)])
    ensures Satisfied(s, "laser", MASKED_TOOL.interlocks[1], 10) == Some(false)
    ensures Evaluate(s, "laser", 10, timeout) == Deny(Unobserved("flow_ok"))
    ensures LaserIs(Next(s, Renewed("laser", 5, timeout, 10)), map[SMOKE := Reading(true, 2)])
  {
    assert |"flow_ok"| == 7 && |"smoke"| == 5 && |"authorized"| == 10;
    LaserDecides(s, map[SMOKE := Reading(true, 2)], 10, timeout);
    RenewWrites(s, "laser", 10, 5, timeout);
  }

  lemma LaserClears(s: Store, timeout: int)
    requires LaserIs(s, map[SMOKE := Reading(false, 20), FLOW := Reading(true, 30)])
    ensures Evaluate(s, "laser", 40, timeout) == Allow
  {
    assert |"flow_ok"| == 7 && |"smoke"| == 5 && |"authorized"| == 10;
    LaserDecides(s, map[SMOKE := Reading(false, 20), FLOW := Reading(true, 30)], 40, timeout);
  }

  lemma LaserStarts() returns (h: History)
    ensures IsRun(h) && |h| == 3 && LaserIs(Final(h), map[SMOKE := Reading(true, 2)])
    ensures forall j :: 0 <= j < |h| ==> !h[j].step.LatchReset?
  {
    var m0 := Moment(INITIAL, StateApplied([MASKED_TOOL], None, 0));
    assert Resolve([MASKED_TOOL], "laser") == Some(MASKED_TOOL);
    var m1 := Moment(m0.After(), Opened("laser", None, 1));
    var m2 := Moment(m1.After(), Observed("laser", "smoke", true, 2));
    assert LaserIs(m1.After(), map[]);
    LaserObserves(m1.After(), map[], "smoke", true, 2);
    ExtendRun([], m0);
    ExtendRun([] + [m0], m1);
    ExtendRun([] + [m0] + [m1], m2);
    h := [] + [m0] + [m1] + [m2];
  }

  /** A history in which a latching trip that fires behind a gate no one has reported
      leaves no latch: the renewal is refused for the gate, and once the smoke has
      gone and the gate is met the tool runs again with nothing reset. */
  lemma AMaskedTripIsForgotten(timeout: int) returns (h: History)
    ensures IsRun(h) && |h| == 6 && h[3].step == Renewed("laser", 5, timeout, 10)
    ensures Satisfied(h[3].before, "laser", MASKED_TOOL.interlocks[1], 10) == Some(false)
    ensures DecisionAt(h[3]) == Deny(Unobserved("flow_ok")) && h[3].After().latched == map[]
    ensures forall j :: 0 <= j < |h| ==> !h[j].step.LatchReset?
    ensures Evaluate(Final(h), "laser", 40, timeout) == Allow
  {
    var p := LaserStarts();
    var m3 := Moment(Final(p), Renewed("laser", 5, timeout, 10));
    LaserFires(m3.before, timeout);
    var m4 := Moment(m3.After(), Observed("laser", "smoke", false, 20));
    LaserObserves(m4.before, map[SMOKE := Reading(true, 2)], "smoke", false, 20);
    var m5 := Moment(m4.After(), Observed("laser", "flow_ok", true, 30));
    assert FLOW != SMOKE;
    LaserObserves(m5.before, map[SMOKE := Reading(false, 20)], "flow_ok", true, 30);
    LaserClears(m5.After(), timeout);
    ExtendRun(p, m3);
    ExtendRun(p + [m3], m4);
    ExtendRun(p + [m3] + [m4], m5);
    h := p + [m3] + [m4] + [m5];
  }

  // ----- leases over a run ----------------------------------------------

  predicate RenewsKey(m: Moment, key: string) {
    (m.step.Renewed? || m.step.Ticked?) && ToolKey(m.before, m.step.tool) == key
  }

  ghost predicate LastRenewal(h: History, i: int, key: string) {
    && 0 <= i < |h| && RenewsKey(h[i], key)
    && forall j :: i < j < |h| ==> !RenewsKey(h[j], key)
  }

  lemma StepWritesLease(s: Store, step: Step, key: string)
    ensures var t := Next(s, step).leases;
            if RenewsKey(Moment(s, step), key) then
              t == (if DecisionAt(Moment(s, step)).Allow? then s.leases[key := step.now + step.ttl]
                    else s.leases - {key})
            else
              (key in t <==> key in s.leases) && (key in t ==> t[key] == s.leases[key])
  {
    WhatAStepWrites(s, step);
    if step.Renewed? || step.Ticked? {
      RenewWrites(s, step.tool, step.now, step.ttl, step.timeout);
      TickWrites(s, step.tool, step.now, step.ttl, step.timeout);
    }
  }

  /** The lease a run leaves: the last renewal's expiry if it was allowed, and
      none if it was not or there never was one. */
  lemma {:induction false} LeaseIsLastRenewal(h: History, key: string)
    requires IsRun(h)
    ensures var leases := Final(h).leases;
            && (key in leases ==> exists i :: LastRenewal(h, i, key))
            && (forall i :: LastRenewal(h, i, key) ==>
                  (key in leases <==> DecisionAt(h[i]).Allow?)
                  && (key in leases ==> leases[key] == h[i].step.now + h[i].step.ttl))
  {
    if |h| > 0 {
      var p, m := h[..|h| - 1], h[|h| - 1];
      LeaseIsLastRenewal(p, key);
      StepWritesLease(m.before, m.step, key);
      if RenewsKey(m, key) {
        assert LastRenewal(h, |h| - 1, key);
      } else {
        assert forall i :: LastRenewal(h, i, key) ==> LastRenewal(p, i, key);
        if key in m.before.leases {
          var i :| LastRenewal(p, i, key);
          assert LastRenewal(h, i, key);
        }
      }
    }
  }

  /** The dead-man's switch: whatever has been called, a lease is good exactly when
      the tool's last renewal was allowed and is younger than its ttl. */
  lemma LeaseIsADeadMansSwitch(h: History, name: string, now: int)
    requires IsRun(h)
    ensures LeaseValid(Final(h), name, now) <==>
            exists i :: LastRenewal(h, i, ToolKey(Final(h), name))
                        && DecisionAt(h[i]).Allow? && now - h[i].step.now < h[i].step.ttl
  {
    LeaseIsLastRenewal(h, ToolKey(Final(h), name));
  }

  // ----- latches over a run ---------------------------------------------

  /** A renewal or a tick of the wired tool that tripped on a latching condition. */
  predicate LatchesAt(m: Moment, key: string, condition: string) {
    && (m.step.Ticked? || m.step.Renewed?)
    && Wiring(m.before, m.step.tool).Some? && Wiring(m.before, m.step.tool).value.toolId == key
    && DecisionAt(m) == Deny(Tripped(condition))
    && exists r :: r in Wiring(m.before, m.step.tool).value.interlocks
                   && r.kind == KIND_TRIP && r.condition == condition && r.latch
  }

  predicate ResetsKey(m: Moment, key: string) {
    m.step.LatchReset? && m.step.tool == key
  }

  /** The condition tripped the tool at `i`, and its id has not been reset since. */
  ghost predicate LatchedFrom(h: History, i: int, key: string, condition: string) {
    && 0 <= i < |h| && LatchesAt(h[i], key, condition)
    && forall j :: i < j < |h| ==> !ResetsKey(h[j], key)
  }

  lemma StepOnLatch(m: Moment, key: string, condition: string)
    ensures var s, t := m.before.latched, m.After().latched;
            (key in t && t[key] == condition) <==>
              || LatchesAt(m, key, condition)
              || (key in s && s[key] == condition && !ResetsKey(m, key))
  {
    WhatAStepWrites(m.before, m.step);
    if m.step.Renewed? || m.step.Ticked? {
      TripMeansUnlatched(m.before, m.step.tool, m.step.now, m.step.timeout);
      TickWrites(m.before, m.step.tool, m.step.now, m.step.ttl, m.step.timeout);
    }
  }

  /** Whatever has been called, a tool's id is latched on a condition exactly when
      some renewal or tick tripped on it, that trip latching, and no reset has named
      the id since. */
  lemma {:induction false} LatchLaw(h: History, key: string, condition: string)
    requires IsRun(h)
    ensures (key in Final(h).latched && Final(h).latched[key] == condition) <==>
            exists i :: LatchedFrom(h, i, key, condition)
  {
    if |h| > 0 {
      var n := |h| - 1;
      var p, m := h[..n], h[n];
      assert h == p + [m];
      LatchLaw(p, key, condition);
      StepOnLatch(m, key, condition);
      if LatchesAt(m, key, condition) {
        assert LatchedFrom(h, n, key, condition);
      } else if key in m.before.latched && m.before.latched[key] == condition && !ResetsKey(m, key) {
        var i :| LatchedFrom(p, i, key, condition);
        assert LatchedFrom(h, i, key, condition);
      }
      if i :| LatchedFrom(h, i, key, condition) {
        if i < n {
          assert LatchedFrom(p, i, key, condition);
        }
      }
    }
  }

  /** No wiring the history is sent gives the tool with this id a trip rule on the
      condition that latches. */
  ghost predicate NeverWiredToLatch(h: History, key: string, condition: string) {
    forall m, t, r :: m in h && m.step.StateApplied? && t in m.step.tools && t.toolId == key && r in t.interlocks ==>
      !(r.kind == KIND_TRIP && r.condition == condition && r.latch)
  }

  lemma {:induction false} WiredFromHistory(h: History, name: string)
    requires IsRun(h) && Wiring(Final(h), name).Some?
    ensures exists m :: m in h && m.step.StateApplied? && Wiring(Final(h), name).value in m.step.tools
  {
    var n := |h| - 1;
    WhatAStepWrites(h[n].before, h[n].step);
    assert h[n] in h;
    if h[n].step.StateApplied? {
      ResolveMeans(h[n].step.tools, name);
    } else {
      WiredFromHistory(h[..n], name);
    }
  }

  /** A trip that does not latch is over when its condition is: a tool none of whose
      rules on a condition has ever latched is never held latched on it. */
  lemma {:induction false} OnlyLatchingRulesLatch(h: History, key: string, condition: string)
    requires IsRun(h) && NeverWiredToLatch(h, key, condition)
    ensures !(key in Final(h).latched && Final(h).latched[key] == condition)
  {
    LatchLaw(h, key, condition);
    forall i | 0 <= i < |h| ensures !LatchesAt(h[i], key, condition) {
      PrefixIsRun(h, i);
      if (h[i].step.Ticked? || h[i].step.Renewed?) && Wiring(h[i].before, h[i].step.tool).Some? {
        WiredFromHistory(h[..i], h[i].step.tool);
      }
    }
  }

  lemma TickFindsTheLatch(h: History, i: int, j: int, key: string, condition: string)
    requires IsRun(h) && LatchedFrom(h, i, key, condition) && i < j < |h|
    requires h[j].step.Ticked? && TicksTool(h[j], key)
    ensures DecisionAt(h[j]) == Deny(Latched(condition))
  {
    PrefixIsRun(h, j);
    assert LatchedFrom(h[..j], i, key, condition);
    LatchLaw(h[..j], key, condition);
  }

  /** So once a latching trip is reported, the wired tool is refused for that latch at
      every decision that follows, until a reset names its id. */
  lemma LatchPersists(h: History, i: nat, key: string, condition: string)
    requires IsRun(h) && i < |h| && LatchesAt(h[i], key, condition)
    requires forall j :: i < j < |h| ==> !ResetsKey(h[j], key)
    ensures key in Final(h).latched && Final(h).latched[key] == condition
    ensures forall name, now, timeout ::
              Wiring(Final(h), name).Some? && Wiring(Final(h), name).value.toolId == key
              ==> Evaluate(Final(h), name, now, timeout) == Deny(Latched(condition))
    ensures forall j :: i < j < |h| && h[j].step.Ticked? && TicksTool(h[j], key) ==>
              DecisionAt(h[j]) == Deny(Latched(condition))
  {
    assert LatchedFrom(h, i, key, condition);
    LatchLaw(h, key, condition);
    forall j | i < j < |h| && h[j].step.Ticked? && TicksTool(h[j], key)
      ensures DecisionAt(h[j]) == Deny(Latched(condition))
    {
      TickFindsTheLatch(h, i, j, key, condition);
    }
  }
}
