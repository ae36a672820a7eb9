/** Start sequencing: which power bindings are granted when a tool is allowed, told
    from the relay reports and ticks of the history so far. */
module LeaseSequencing {
  import opened Wrappers
  import opened Ordering
  import opened Wire
  import opened LeaseEngine
  import opened LeaseRuns

  // ----- what a tick sends is its rulings -------------------------------

  lemma StageThenNameOrders()
    ensures TotalPreorder(ByStageThenName) && TotalPreorder(ByName)
  {
    forall a: DeviceBinding, b: DeviceBinding
      ensures ByStageThenName(a, b) || ByStageThenName(b, a)
      ensures ByName(a, b) || ByName(b, a)
    {
      BeforeIsTotal(a.name, b.name);
    }
    forall a: DeviceBinding, b: DeviceBinding, c: DeviceBinding
      ensures ByStageThenName(a, b) && ByStageThenName(b, c) ==> ByStageThenName(a, c)
      ensures ByName(a, b) && ByName(b, c) ==> ByName(a, c)
    {
      if Before(a.name, b.name) && Before(b.name, c.name) {
        BeforeIsTransitive(a.name, b.name, c.name);
      }
    }
  }

  lemma {:induction false} WithRoleKeeps(modules: seq<DeviceBinding>, role: string, b: DeviceBinding)
    ensures multiset(WithRole(modules, role))[b] == if b.role == role then multiset(modules)[b] else 0
  {
    if |modules| > 0 {
      WithRoleKeeps(modules[1..], role, b);
      assert modules == [modules[0]] + modules[1..];
    }
  }

  /** The bindings of a role stand in the order they are wired in. */
  lemma {:induction false} WithRoleJoins(a: seq<DeviceBinding>, b: seq<DeviceBinding>, role: string)
    ensures WithRole(a + b, role) == WithRole(a, role) + WithRole(b, role)
  {
    if a == [] {
      assert a + b == b;
    } else {
      assert (a + b)[1..] == a[1..] + b;
      WithRoleJoins(a[1..], b, role);
    }
  }

  /** The commands go out by stage, then by name, and by the order they are wired in where
      these are the same, to exactly the power bindings and then the sensors of the tool,
      each as often as it is wired. */
  lemma CommandOrder(w: Tool)
    ensures forall i, j :: 0 <= i < j < |PowerOf(w)| ==>
              var a, b := PowerOf(w)[i], PowerOf(w)[j];
              a.startStage < b.startStage || (a.startStage == b.startStage && NotAfter(a.name, b.name))
    ensures forall i, j :: 0 <= i < j < |SensorsOf(w)| ==> NotAfter(SensorsOf(w)[i].name, SensorsOf(w)[j].name)
    ensures forall b :: multiset(PowerOf(w))[b] == if b.role == "power" then multiset(w.modules)[b] else 0
    ensures forall b :: multiset(SensorsOf(w))[b] == if b.role == "sensor" then multiset(w.modules)[b] else 0
    ensures forall b :: Equals(ByStageThenName, b, PowerOf(w))
                     == Equals(ByStageThenName, b, WithRole(w.modules, ROLE_POWER))
    ensures forall b :: Equals(ByName, b, SensorsOf(w)) == Equals(ByName, b, WithRole(w.modules, ROLE_SENSOR))
    ensures forall b :: b in PowerOf(w) <==> b in w.modules && b.role == ROLE_POWER
    ensures forall b :: b in SensorsOf(w) <==> b in w.modules && b.role == ROLE_SENSOR
  {
    forall b: DeviceBinding
      ensures multiset(WithRole(w.modules, ROLE_POWER))[b] == if b.role == "power" then multiset(w.modules)[b] else 0
      ensures multiset(WithRole(w.modules, ROLE_SENSOR))[b] == if b.role == "sensor" then multiset(w.modules)[b] else 0
    {
      WithRoleKeeps(w.modules, ROLE_POWER, b);
      WithRoleKeeps(w.modules, ROLE_SENSOR, b);
    }
    RolesKeepTheirOrder(w);
    StageThenNameOrders();
    SortSorts(ByStageThenName, WithRole(w.modules, ROLE_POWER));
    SortSorts(ByName, WithRole(w.modules, ROLE_SENSOR));
    SortIsPermutation(ByStageThenName, WithRole(w.modules, ROLE_POWER));
    SortIsPermutation(ByName, WithRole(w.modules, ROLE_SENSOR));
  }

  lemma RolesKeepTheirOrder(w: Tool)
    ensures forall b :: Equals(ByStageThenName, b, PowerOf(w))
                     == Equals(ByStageThenName, b, WithRole(w.modules, ROLE_POWER))
    ensures forall b :: Equals(ByName, b, SensorsOf(w)) == Equals(ByName, b, WithRole(w.modules, ROLE_SENSOR))
  {
    StageThenNameOrders();
    forall b: DeviceBinding
      ensures Equals(ByStageThenName, b, PowerOf(w)) == Equals(ByStageThenName, b, WithRole(w.modules, ROLE_POWER))
      ensures Equals(ByName, b, SensorsOf(w)) == Equals(ByName, b, WithRole(w.modules, ROLE_SENSOR))
    {
      SortIsStable(ByStageThenName, WithRole(w.modules, ROLE_POWER), b);
      SortIsStable(ByName, WithRole(w.modules, ROLE_SENSOR), b);
    }
  }

  /** When nothing is withheld, every binding gets one action, in its place. */
  lemma {:induction false} OneActionEach(tool: string, bindings: seq<DeviceBinding>, rulings: seq<Ruling>,
                                         d: Decision, ttlMs: int)
    requires |bindings| == |rulings| && forall i :: 0 <= i < |rulings| ==> rulings[i] != Withheld
    ensures var out := ActionsFor(tool, bindings, rulings, d, ttlMs);
            && |out| == |bindings|
            && forall i :: 0 <= i < |bindings| ==>
                 && out[i].toolId == tool && out[i].deviceId == bindings[i].deviceId && out[i].ttlMs == ttlMs
                 && out[i].grant == rulings[i].Granted?
                 && out[i].reason == if rulings[i].Refused? && d.Deny? then Some(d.denial) else None
  {
    if |bindings| > 0 {
      var n := |bindings| - 1;
      OneActionEach(tool, bindings[..n], rulings[..n], d, ttlMs);
    }
  }

  /** How many bindings got a ruling. */
  function Tally(rulings: seq<Ruling>, r: Ruling): nat {
    if |rulings| == 0 then 0
    else Tally(rulings[..|rulings| - 1], r) + if rulings[|rulings| - 1] == r then 1 else 0
  }

  lemma {:induction false} TallyBefore(rulings: seq<Ruling>, r: Ruling, i: nat)
    requires i < |rulings| && rulings[i] == r
    ensures Tally(rulings[..i], r) < Tally(rulings, r)
  {
    var n := |rulings| - 1;
    if i < n {
      TallyBefore(rulings[..n], r, i);
      assert rulings[..n][..i] == rulings[..i];
    }
  }

  /** The binding's action stands after those of the bindings granted before it. */
  lemma {:induction false} GrantInItsPlace(tool: string, bindings: seq<DeviceBinding>, rulings: seq<Ruling>,
                                           d: Decision, ttlMs: int, i: nat)
    requires |bindings| == |rulings| && forall j :: 0 <= j < |rulings| ==> rulings[j] != Refused
    requires i < |rulings| && rulings[i] == Granted
    ensures var out, k := ActionsFor(tool, bindings, rulings, d, ttlMs), Tally(rulings[..i], Granted);
            && |out| == Tally(rulings, Granted)
            && k < |out| && out[k] == LeaseAction(tool, bindings[i].deviceId, true, ttlMs, None)
  {
    var n := |rulings| - 1;
    GrantsOnly(tool, bindings, rulings, d, ttlMs);
    GrantsOnly(tool, bindings[..n], rulings[..n], d, ttlMs);
    TallyBefore(rulings, Granted, i);
    if i < n {
      GrantInItsPlace(tool, bindings[..n], rulings[..n], d, ttlMs, i);
      assert rulings[..n][..i] == rulings[..i];
    }
  }

  /** When nothing is refused, the actions are the grants, one for each binding granted. */
  lemma {:induction false} GrantsOnly(tool: string, bindings: seq<DeviceBinding>, rulings: seq<Ruling>,
                                      d: Decision, ttlMs: int)
    requires |bindings| == |rulings| && forall i :: 0 <= i < |rulings| ==> rulings[i] != Refused
    ensures var out := ActionsFor(tool, bindings, rulings, d, ttlMs);
            && |out| == Tally(rulings, Granted)
            && (forall i :: 0 <= i < |bindings| && rulings[i] == Granted ==>
                  LeaseAction(tool, bindings[i].deviceId, true, ttlMs, None) in out)
            && (forall a :: a in out ==>
                  exists i :: 0 <= i < |bindings| && rulings[i] == Granted
                              && a == LeaseAction(tool, bindings[i].deviceId, true, ttlMs, None))
  {
    if |bindings| > 0 {
      var n := |bindings| - 1;
      GrantsOnly(tool, bindings[..n], rulings[..n], d, ttlMs);
      var before := ActionsFor(tool, bindings[..n], rulings[..n], d, ttlMs);
      var out := ActionsFor(tool, bindings, rulings, d, ttlMs);
      assert out == before + Emit(tool, bindings[n], rulings[n], d, ttlMs);
      forall a | a in out
        ensures exists i :: 0 <= i < |bindings| && rulings[i] == Granted
                            && a == LeaseAction(tool, bindings[i].deviceId, true, ttlMs, None)
      {
        if a in before {
          var i :| 0 <= i < n && rulings[..n][i] == Granted
                   && a == LeaseAction(tool, bindings[..n][i].deviceId, true, ttlMs, None);
          assert rulings[i] == Granted && bindings[i] == bindings[..n][i];
        } else {
          assert rulings[n] == Granted;
        }
      }
    }
  }

  // ----- the run of allows ----------------------------------------------

  /** From this tick of the tool on, every tick of it has been an allow. */
  ghost predicate UnbrokenFrom(h: History, i: int, key: string) {
    && 0 <= i < |h| && TicksTool(h[i], key)
    && forall j :: i <= j < |h| && TicksTool(h[j], key) ==> AllowTick(h[j], key)
  }

  /** Where the run of allows that is still going on began. */
  ghost predicate BeginsAllowRun(h: History, i: int, key: string) {
    && UnbrokenFrom(h, i, key)
    && forall j :: 0 <= j < i ==> !UnbrokenFrom(h, j, key)
  }

  lemma StepWritesAllowedSince(m: Moment, key: string)
    ensures var s, t := m.before.allowedSince, m.After().allowedSince;
            if AllowTick(m, key) then
              key in t && t[key] == if key in s then s[key] else m.step.now
            else if DenyTick(m, key) then key !in t
            else (key in t <==> key in s) && (key in t ==> t[key] == s[key])
  {
    WhatAStepWrites(m.before, m.step);
    if m.step.Ticked? {
      TickWrites(m.before, m.step.tool, m.step.now, m.step.ttl, m.step.timeout);
    } else if m.step.Settled? {
      SettleWrites(m.before, m.step.tool, m.step.decision, m.step.now);
    }
  }

  lemma UnbrokenGrows(p: History, m: Moment, key: string)
    ensures forall i :: 0 <= i < |p| ==>
              (UnbrokenFrom(p + [m], i, key) <==> UnbrokenFrom(p, i, key) && !DenyTick(m, key))
    ensures UnbrokenFrom(p + [m], |p|, key) <==> AllowTick(m, key)
  {
    var h := p + [m];
    assert forall j :: 0 <= j < |p| ==> h[j] == p[j];
    forall i | 0 <= i < |p| && UnbrokenFrom(h, i, key)
      ensures UnbrokenFrom(p, i, key) && !DenyTick(m, key)
    {
      assert h[|p|] == m;
      forall j | i <= j < |p| && TicksTool(p[j], key) ensures AllowTick(p[j], key) {
        assert TicksTool(h[j], key);
      }
    }
  }

  /** The engine's clock for a tool is the first tick of its current run of
      allows, and runs exactly while there is one. */
  lemma {:induction false} AllowedSinceBeginsTheRun(h: History, key: string)
    requires IsRun(h)
    ensures var since := Final(h).allowedSince;
            && (key in since <==> exists i :: BeginsAllowRun(h, i, key))
            && (forall i :: BeginsAllowRun(h, i, key) ==> since[key] == h[i].step.now)
  {
    if |h| > 0 {
      var n := |h| - 1;
      var p, m := h[..n], h[n];
      assert h == p + [m];
      AllowedSinceBeginsTheRun(p, key);
      StepWritesAllowedSince(m, key);
      UnbrokenGrows(p, m, key);
      if exists i :: BeginsAllowRun(p, i, key) {
        var i :| BeginsAllowRun(p, i, key);
        if !DenyTick(m, key) {
          assert BeginsAllowRun(h, i, key);
        }
      } else if AllowTick(m, key) {
        NoRunNoUnbroken(p, n, key);
        assert BeginsAllowRun(h, n, key);
      }
      forall i | BeginsAllowRun(h, i, key)
        ensures Final(h).allowedSince[key] == h[i].step.now
        ensures key in Final(h).allowedSince
      {
        if i < n {
          assert BeginsAllowRun(p, i, key);
        } else {
          assert forall j :: 0 <= j < n ==> !UnbrokenFrom(p, j, key);
          assert !exists j :: BeginsAllowRun(p, j, key);
        }
      }
    }
  }

  /** If no tick begins a run, none of the first `n` is in one. */
  lemma {:induction false} NoRunNoUnbroken(h: History, n: nat, key: string)
    requires forall i :: !BeginsAllowRun(h, i, key)
    ensures forall j :: 0 <= j < n ==> !UnbrokenFrom(h, j, key)
  {
    if n > 0 {
      NoRunNoUnbroken(h, n - 1, key);
      assert !BeginsAllowRun(h, n - 1, key);
    }
  }

  // ----- relay reports --------------------------------------------------

  ghost predicate LatestReport(h: History, i: int, deviceId: string) {
    && 0 <= i < |h| && h[i].step.RelayNoted? && h[i].step.deviceId == deviceId
    && forall j :: i < j < |h| && h[j].step.RelayNoted? ==> h[j].step.deviceId != deviceId
  }

  lemma StepWritesRelay(m: Moment, deviceId: string)
    ensures var s, t := m.before.relayState, m.After().relayState;
            if m.step.RelayNoted? && m.step.deviceId == deviceId then
              deviceId in t && t[deviceId] == RelayReport(m.step.on, m.step.now)
            else
              (deviceId in t <==> deviceId in s) && (deviceId in t ==> t[deviceId] == s[deviceId])
  {
    WhatAStepWrites(m.before, m.step);
  }

  lemma {:induction false} RelayStateIsLatestReport(h: History, deviceId: string)
    requires IsRun(h)
    ensures var relays := Final(h).relayState;
            && (deviceId in relays ==> exists i :: LatestReport(h, i, deviceId))
            && (forall i :: LatestReport(h, i, deviceId) ==>
                  deviceId in relays && relays[deviceId] == RelayReport(h[i].step.on, h[i].step.now))
  {
    if |h| > 0 {
      var n := |h| - 1;
      var p, m := h[..n], h[n];
      RelayStateIsLatestReport(p, deviceId);
      StepWritesRelay(m, deviceId);
      if m.step.RelayNoted? && m.step.deviceId == deviceId {
        assert LatestReport(h, n, deviceId);
      } else {
        assert forall i :: LatestReport(h, i, deviceId) ==> LatestReport(p, i, deviceId);
        assert forall i :: LatestReport(p, i, deviceId) ==> LatestReport(h, i, deviceId);
      }
    }
  }

  // ----- sequencing -----------------------------------------------------

  /** A binding in a lower stage has confirmed since the allow, at `at`. */
  predicate Confirms(relays: map<string, RelayReport>, e: DeviceBinding, since: int) {
    e.deviceId in relays && relays[e.deviceId].on && relays[e.deviceId].at >= since
  }

  lemma {:induction false} StageBaseMeans(relays: map<string, RelayReport>, power: seq<DeviceBinding>,
                                          stage: int, since: int, delay: int, now: int)
    ensures var base := StageBase(relays, power, stage, since);
            (base.Some? && now >= base.value + delay) <==>
              && now >= since + delay
              && forall e :: e in power && e.startStage < stage ==>
                   Confirms(relays, e, since) && now >= relays[e.deviceId].at + delay
  {
    if |power| > 0 {
      var n := |power| - 1;
      StageBaseMeans(relays, power[..n], stage, since, delay, now);
      assert power == power[..n] + [power[n]];
    }
  }

  /** The binding's turn has come: of every device in a lower stage the last report says
      on and came after the allow began, and the binding has waited out its delay both
      from the allow and from each of those reports. */
  ghost predicate TurnHasCome(h: History, w: Tool, b: DeviceBinding, since: int, now: int) {
    && now >= since + Max(b.startDelayMs, 0)
    && forall e :: e in w.modules && e.role == ROLE_POWER && e.startStage < b.startStage ==>
         exists j :: LatestReport(h, j, e.deviceId) && h[j].step.on && h[j].step.now >= since
                     && now >= h[j].step.now + Max(b.startDelayMs, 0)
  }

  lemma ReadyMeansTurnHasCome(h: History, w: Tool, b: DeviceBinding, since: int, now: int)
    requires IsRun(h)
    ensures IsReady(Final(h).relayState, PowerOf(w), b, since, now) <==> TurnHasCome(h, w, b, since, now)
  {
    var relays, delay := Final(h).relayState, Max(b.startDelayMs, 0);
    CommandOrder(w);
    StageBaseMeans(relays, PowerOf(w), b.startStage, since, delay, now);
    forall e | e in w.modules && e.role == ROLE_POWER
      ensures (Confirms(relays, e, since) && now >= relays[e.deviceId].at + delay) <==>
              exists j :: LatestReport(h, j, e.deviceId) && h[j].step.on && h[j].step.now >= since
                          && now >= h[j].step.now + delay
    {
      RelayStateIsLatestReport(h, e.deviceId);
    }
  }

  /** An allow is always part of a run of allows. */
  lemma AllowTickIsInARun(h: History, m: Moment, key: string) returns (i: int)
    requires IsRun(h) && m.before == Final(h) && AllowTick(m, key)
    ensures BeginsAllowRun(h + [m], i, key)
    ensures (h + [m])[i].step.now == AllowSince(m.before, TickedTool(m), m.step.now)
  {
    ExtendRun(h, m);
    AllowedSinceBeginsTheRun(h + [m], key);
    StepWritesAllowedSince(m, key);
    i :| BeginsAllowRun(h + [m], i, key);
  }

  /** Start sequencing: when the tool is allowed, a power binding is granted exactly if
      its turn has come and is otherwise sent nothing. */
  lemma AllowTickGrantsInTurn(h: History, m: Moment, key: string, i: int)
    requires IsRun(h) && m.before == Final(h) && AllowTick(m, key)
    requires BeginsAllowRun(h + [m], i, key)
    ensures var w, since, now := TickedTool(m), (h + [m])[i].step.now, m.step.now;
            forall b :: b in PowerOf(w) ==>
              RulingAt(m, b) == if TurnHasCome(h, w, b, since, now) then Granted else Withheld
  {
    var j := AllowTickIsInARun(h, m, key);
    assert i == j;
    forall b | b in PowerOf(TickedTool(m))
      ensures RulingAt(m, b)
           == if TurnHasCome(h, TickedTool(m), b, (h + [m])[i].step.now, m.step.now) then Granted else Withheld
    {
      ReadyMeansTurnHasCome(h, TickedTool(m), b, (h + [m])[i].step.now, m.step.now);
    }
  }

  lemma PowerGrants(s: Store, name: string, w: Tool, now: int, ttlMs: int)
    ensures var out := ActionsFor(name, PowerOf(w), PowerRulings(s, w, Allow, now), Allow, ttlMs);
            && (forall b :: b in PowerOf(w) && PowerRuling(s, w, b, Allow, now) == Granted ==>
                  LeaseAction(name, b.deviceId, true, ttlMs, None) in out)
            && (forall a :: a in out ==>
                  exists b :: b in PowerOf(w) && PowerRuling(s, w, b, Allow, now) == Granted
                              && a == LeaseAction(name, b.deviceId, true, ttlMs, None))
            && |out| == Tally(PowerRulings(s, w, Allow, now), Granted)
  {
    var power, rulings := PowerOf(w), PowerRulings(s, w, Allow, now);
    assert forall k :: 0 <= k < |power| ==> rulings[k] == PowerRuling(s, w, power[k], Allow, now);
    GrantsOnly(name, power, rulings, Allow, ttlMs);
  }

  lemma SensorGrants(name: string, w: Tool, ttlMs: int)
    ensures var out := ActionsFor(name, SensorsOf(w), SensorRulings(w, Allow), Allow, ttlMs);
            && |out| == |SensorsOf(w)|
            && (forall b :: b in SensorsOf(w) ==> LeaseAction(name, b.deviceId, true, ttlMs, None) in out)
            && (forall a :: a in out ==>
                  exists b :: b in SensorsOf(w) && a == LeaseAction(name, b.deviceId, true, ttlMs, None))
  {
    OneActionEach(name, SensorsOf(w), SensorRulings(w, Allow), Allow, ttlMs);
  }

  /** What is sent when a tool is allowed, by its rulings. */
  lemma AllowActions(s: Store, name: string, w: Tool, now: int, ttl: int)
    requires Wiring(s, name) == Some(w)
    ensures var out, ttlMs := ActionsOf(s, name, Allow, now, ttl), Max(ttl, 0);
            && (forall b :: b in SensorsOf(w) || (b in PowerOf(w) && PowerRuling(s, w, b, Allow, now) == Granted) ==>
                  LeaseAction(name, b.deviceId, true, ttlMs, None) in out)
            && (forall a :: a in out ==>
                  exists b :: (b in SensorsOf(w) || (b in PowerOf(w) && PowerRuling(s, w, b, Allow, now) == Granted))
                              && a == LeaseAction(name, b.deviceId, true, ttlMs, None))
            && |out| == Tally(PowerRulings(s, w, Allow, now), Granted) + |SensorsOf(w)|
  {
    PowerGrants(s, name, w, now, Max(ttl, 0));
    SensorGrants(name, w, Max(ttl, 0));
  }

  /** An allow sends a grant to each power binding ruled granted and then to each sensor,
      in their order, with its device and the ttl in whole milliseconds, and no more. */
  ghost predicate GrantsInOrder(m: Moment, out: seq<LeaseAction>)
    requires Settles(m.step) && Wiring(m.before, m.step.tool).Some? && DecisionAt(m).Allow?
  {
    var w, ttlMs := TickedTool(m), Max(m.step.ttl, 0);
    var power, sensors, rulings := PowerOf(w), SensorsOf(w), PowerRulings(m.before, w, Allow, m.step.now);
    && |out| == Tally(rulings, Granted) + |sensors|
    && (forall i :: 0 <= i < |power| && RulingAt(m, power[i]) == Granted ==>
          var k := Tally(rulings[..i], Granted);
          k < |out| && out[k] == LeaseAction(m.step.tool, power[i].deviceId, true, ttlMs, None))
    && forall i :: 0 <= i < |sensors| ==>
         out[Tally(rulings, Granted) + i] == LeaseAction(m.step.tool, sensors[i].deviceId, true, ttlMs, None)
  }

  lemma PowerGrantsInOrder(name: string, power: seq<DeviceBinding>, rulings: seq<Ruling>, ttlMs: int)
    requires |rulings| == |power| && forall i :: 0 <= i < |rulings| ==> rulings[i] != Refused
    ensures var out := ActionsFor(name, power, rulings, Allow, ttlMs);
            && |out| == Tally(rulings, Granted)
            && forall i :: 0 <= i < |power| && rulings[i] == Granted ==>
                 var k := Tally(rulings[..i], Granted);
                 k < |out| && out[k] == LeaseAction(name, power[i].deviceId, true, ttlMs, None)
  {
    GrantsOnly(name, power, rulings, Allow, ttlMs);
    forall i | 0 <= i < |power| && rulings[i] == Granted
      ensures var out, k := ActionsFor(name, power, rulings, Allow, ttlMs), Tally(rulings[..i], Granted);
              k < |out| && out[k] == LeaseAction(name, power[i].deviceId, true, ttlMs, None)
    {
      GrantInItsPlace(name, power, rulings, Allow, ttlMs, i);
    }
  }

  lemma SensorGrantsInOrder(name: string, w: Tool, ttlMs: int)
    ensures var out := ActionsFor(name, SensorsOf(w), SensorRulings(w, Allow), Allow, ttlMs);
            && |out| == |SensorsOf(w)|
            && forall i :: 0 <= i < |out| ==> out[i] == LeaseAction(name, SensorsOf(w)[i].deviceId, true, ttlMs, None)
  {
    OneActionEach(name, SensorsOf(w), SensorRulings(w, Allow), Allow, ttlMs);
  }

  lemma GrantsStandInOrder(m: Moment, key: string)
    requires AllowTick(m, key)
    ensures GrantsInOrder(m, ActionsAt(m))
  {
    var w, ttlMs, name := TickedTool(m), Max(m.step.ttl, 0), m.step.tool;
    var power, rulings := PowerOf(w), PowerRulings(m.before, w, Allow, m.step.now);
    assert forall k :: 0 <= k < |power| ==> rulings[k] == RulingAt(m, power[k]);
    PowerGrantsInOrder(name, power, rulings, ttlMs);
    SensorGrantsInOrder(name, w, ttlMs);
    assert ActionsAt(m) == ActionsFor(name, power, rulings, Allow, ttlMs)
                           + ActionsFor(name, SensorsOf(w), SensorRulings(w, Allow), Allow, ttlMs);
  }

  /** The same, of the commands themselves: the power grants are those whose turn
      has come, each sent once, and the sensors' follow, all of them, in their order. */
  lemma AllowTickActions(h: History, m: Moment, key: string, i: int)
    requires IsRun(h) && m.before == Final(h) && AllowTick(m, key)
    requires BeginsAllowRun(h + [m], i, key)
    ensures var w, since, now, out := TickedTool(m), (h + [m])[i].step.now, m.step.now, ActionsAt(m);
            var ttlMs := Max(m.step.ttl, 0);
            && (forall a :: a in out ==> a.grant)
            && (forall b :: b in SensorsOf(w) || (b in PowerOf(w) && TurnHasCome(h, w, b, since, now)) ==>
                  LeaseAction(m.step.tool, b.deviceId, true, ttlMs, None) in out)
            && (forall a :: a in out ==>
                  exists b :: (b in SensorsOf(w) || (b in PowerOf(w) && TurnHasCome(h, w, b, since, now)))
                              && a == LeaseAction(m.step.tool, b.deviceId, true, ttlMs, None))
            && GrantsInOrder(m, out)
  {
    AllowTickGrantsInTurn(h, m, key, i);
    GrantsStandInOrder(m, key);
    AllowActions(m.before, m.step.tool, TickedTool(m), m.step.now, m.step.ttl);
  }
}
