/** Readings and debounce: what the engine remembers of a condition is where its
    present value's unbroken run began, whatever was observed and in what order; and
    when each module was last heard from. */
module LeaseReadings {
  import opened Wrappers
  import opened Wire
  import opened LeaseEngine
  import opened LeaseRuns

  /** One report of a condition. */
  datatype Observation = Observation(asserted: bool, at: int)

  predicate Observes(m: Moment, tool: string, condition: string) {
    m.step.Observed? && m.step.tool == tool && m.step.condition == condition
  }

  /** Everything a run observed of one condition of one tool, in order. */
  function Observations(h: History, tool: string, condition: string): seq<Observation> {
    if |h| == 0 then []
    else
      var n := |h| - 1;
      Observations(h[..n], tool, condition)
      + if Observes(h[n], tool, condition) then [Observation(h[n].step.asserted, h[n].step.now)] else []
  }

  /** The latest value has held since the report at `k`, and not before it. */
  ghost predicate SteadyFrom(seen: seq<Observation>, k: int) {
    && 0 <= k < |seen|
    && (forall j :: k <= j < |seen| ==> seen[j].asserted == seen[|seen| - 1].asserted)
    && (k > 0 ==> seen[k - 1].asserted != seen[|seen| - 1].asserted)
  }

  /** The stored reading is the latest value and the start of its unbroken run;
      repeats move nothing, and what was never observed has no reading. */
  lemma {:induction false} ReadingIsMaximalRun(h: History, tool: string, condition: string) returns (k: int)
    requires IsRun(h)
    ensures var seen := Observations(h, tool, condition);
            var readings := Final(h).readings;
            && ((tool, condition) in readings <==> |seen| > 0)
            && (|seen| > 0 ==>
                  && SteadyFrom(seen, k)
                  && readings[(tool, condition)] == Reading(seen[|seen| - 1].asserted, seen[k].at))
  {
    k := 0;
    if |h| > 0 {
      var n := |h| - 1;
      var p, m := h[..n], h[n];
      k := ReadingIsMaximalRun(p, tool, condition);
      var before := Observations(p, tool, condition);
      WhatAStepWrites(m.before, m.step);
      if Observes(m, tool, condition) {
        var seen := before + [Observation(m.step.asserted, m.step.now)];
        assert Observations(h, tool, condition) == seen;
        if |before| == 0 || before[|before| - 1].asserted != m.step.asserted {
          k := |before|;
        }
        assert SteadyFrom(seen, k);
      }
    }
  }

  /** Where the latest value began is one place. */
  lemma SteadyFromIsUnique(seen: seq<Observation>, k: int, l: int)
    requires SteadyFrom(seen, k) && SteadyFrom(seen, l)
    ensures k == l
  {
  }

  /** A rule takes a new value for its negation until the debounce is over, and for
      itself from then on; a condition never observed is not met. Flow and authorization
      are met when they hold, every other condition when it does not. */
  lemma RuleReadsTheDebouncedValue(h: History, key: string, rule: InterlockRule, now: int, k: int)
    requires IsRun(h)
    requires var seen := Observations(h, key, rule.condition);
             |seen| > 0 ==> SteadyFrom(seen, k)
    ensures var seen := Observations(h, key, rule.condition);
            Satisfied(Final(h), key, rule, now) ==
            if |seen| == 0 then None
            else
              var held := now - seen[k].at >= rule.debounceMs && now >= seen[k].at;
              var latest := seen[|seen| - 1].asserted;
              var isHazard := rule.condition != "flow_ok" && rule.condition != "authorized";
              Some(if isHazard then latest != held else latest == held)
  {
    var seen := Observations(h, key, rule.condition);
    var l := ReadingIsMaximalRun(h, key, rule.condition);
    if |seen| > 0 {
      SteadyFromIsUnique(seen, k, l);
    }
  }

  // ----- who was heard from -----------------------------------------------

  /** The call is word from the module: its own, or its device's while some tool of the
      wiring binds the two. */
  ghost predicate HearsFrom(m: Moment, id: string) {
    match m.step
    case ModuleNoted(moduleId, _) => moduleId == id
    case DeviceNoted(deviceId, _) =>
      m.before.snapshot.Some?
      && exists t, b :: t in m.before.snapshot.value && b in t.modules && b.id == id && b.deviceId == deviceId
    case _ => false
  }

  ghost predicate LastHeardAt(h: History, i: int, id: string) {
    0 <= i < |h| && HearsFrom(h[i], id) && forall j :: i < j < |h| ==> !HearsFrom(h[j], id)
  }

  lemma StepOnHeard(m: Moment, id: string)
    ensures var s, t := m.before.moduleSeen, m.After().moduleSeen;
            if HearsFrom(m, id) then id in t && t[id] == m.step.now
            else (id in t <==> id in s) && (id in t ==> t[id] == s[id])
  {
    if m.step.DeviceNoted? {
      DeviceMarks(m.before, m.step.deviceId, m.step.now, id);
    } else {
      WhatAStepWrites(m.before, m.step);
    }
  }

  /** Word from a device is word from every module it is bound as. */
  lemma DeviceMarks(s: Store, deviceId: string, now: int, id: string)
    ensures var t := NoteDeviceSeen(s, deviceId, now).moduleSeen;
            if s.snapshot.Some?
               && exists w, b :: w in s.snapshot.value && b in w.modules && b.id == id && b.deviceId == deviceId
            then id in t && t[id] == now
            else (id in t <==> id in s.moduleSeen) && (id in t ==> t[id] == s.moduleSeen[id])
  {
  }

  /** A module was last heard from when the latest such call came, and never if none did. */
  lemma {:induction false} HeardIsTheLatestWord(h: History, id: string)
    requires IsRun(h)
    ensures id in Final(h).moduleSeen <==> exists i :: LastHeardAt(h, i, id)
    ensures forall i :: LastHeardAt(h, i, id) ==> id in Final(h).moduleSeen && Final(h).moduleSeen[id] == h[i].step.now
  {
    if |h| > 0 {
      var n := |h| - 1;
      var p, m := h[..n], h[n];
      HeardIsTheLatestWord(p, id);
      StepOnHeard(m, id);
      if HearsFrom(m, id) {
        assert LastHeardAt(h, n, id);
      } else {
        assert forall i :: LastHeardAt(p, i, id) ==> LastHeardAt(h, i, id);
        assert forall i :: LastHeardAt(h, i, id) ==> LastHeardAt(p, i, id);
      }
    }
  }

  /** So a tool is refused for silence exactly when a module of its that must speak has
      not been heard from, in any of these ways, within the timeout. */
  lemma SilenceDenies(h: History, b: DeviceBinding, now: int, timeout: int)
    requires IsRun(h)
    ensures IsOffline(Final(h), b, now, timeout) <==>
            && b.role != "edge" && b.onDisconnect == "fail_off"
            && !exists i :: LastHeardAt(h, i, b.id) && now - h[i].step.now <= timeout
  {
    HeardIsTheLatestWord(h, b.id);
  }
}
