/** The lease engine as the edge runs it: one mutable store, one method a call.
    Every method is proved to do what LeaseEngine says its call does, and to add
    exactly that call to the ghost history, so the theorems about runs are
    theorems about every object of this class. */
module ModuleState {
  import opened Wrappers
  import opened Wire
  import opened LeaseEngine
  import opened LeaseRuns
  import opened LeaseSessions
  import opened LeaseSequencing
  import opened LeaseRunOn

  function MinStage(power: seq<DeviceBinding>): (r: int)
    requires |power| > 0
    ensures exists b :: b in power && b.startStage == r
    ensures forall b :: b in power ==> r <= b.startStage
  {
    if |power| == 1 then power[0].startStage
    else Min(power[0].startStage, MinStage(power[1..]))
  }

  /** Nothing precedes the lowest stage, so its clock starts at the allow. */
  lemma {:induction false} FirstStageBase(relays: map<string, RelayReport>, power: seq<DeviceBinding>, stage: int,
                                          since: int)
    requires forall b :: b in power ==> b.startStage >= stage
    ensures StageBase(relays, power, stage, since) == Some(since)
  {
    if |power| > 0 {
      FirstStageBase(relays, power[..|power| - 1], stage, since);
    }
  }

  /** For each of these ticks of a wired tool the actions hold, side by side, what is due:
      its grants in order if it was allowed, and its refusals in order if not. */
  ghost predicate AnswersEach(h: History, out: seq<LeaseAction>) {
    forall m :: m in h && m.step.Ticked? && Wiring(m.before, m.step.tool).Some? ==>
      exists i, j :: 0 <= i <= j <= |out| &&
        if DecisionAt(m).Allow? then GrantsInOrder(m, out[i..j]) else RefusesInOrder(m, out[i..j])
  }

  class ModuleState {
    var snapshot: Option<seq<Tool>>
    var readings: map<(string, string), Reading>
    var latched: map<string, string>
    var leases: map<string, int>
    var moduleSeen: map<string, int>
    var localSessions: map<string, Session>
    var syncedInUse: set<string>
    var grace: int
    var localStops: map<string, int>
    var allowedSince: map<string, int>
    var relayState: map<string, RelayReport>
    var grantedSince: map<string, int>
    var runOnUntil: map<string, int>
    ghost var history: History

    function View(): Store
      reads this
    {
      Store(snapshot, readings, latched, leases, moduleSeen, localSessions, syncedInUse, grace, localStops,
            allowedSince, relayState, grantedSince, runOnUntil)
    }

    ghost predicate Valid()
      reads this
    {
      IsRun(history) && View() == Final(history)
    }

    constructor ()
      ensures Valid() && history == [] && View() == INITIAL && grace == 30_000
    {
      snapshot, readings, latched, leases, moduleSeen := None, map[], map[], map[], map[];
      localSessions, syncedInUse, grace, localStops := map[], {}, DEFAULT_GRACE_MS, map[];
      allowedSince, relayState, grantedSince, runOnUntil := map[], map[], map[], map[];
      history := [];
    }

    /** Adds a call that has just been carried out to the history. */
    ghost method Record(before: Store, step: Step)
      requires IsRun(history) && before == Final(history) && View() == Next(before, step)
      modifies this`history
      ensures Valid() && history == old(history) + [Moment(before, step)]
    {
      ExtendRun(history, Moment(before, step));
      history := history + [Moment(before, step)];
    }

    method SetLocalSessionGrace(grace: int, ghost now: int)
      requires Valid()
      modifies this
      ensures Valid() && history == old(history) + [Moment(old(View()), SetGrace(grace, now))]
      ensures View() == old(View()).(grace := grace)
    {
      this.grace := grace;
      Record(old(View()), SetGrace(grace, now));
    }

    // ----- sessions -----------------------------------------------------

    /** The wired tool's id, or the name itself while nothing is wired to it. */
    method Key(name: string) returns (key: string)
      ensures key == ToolKey(View(), name)
    {
      if snapshot.Some? {
        var wiring := Resolve(snapshot.value, name);
        if wiring.Some? {
          return wiring.value.toolId;
        }
      }
      return name;
    }

    method OpenSession(resource: string, now: int, endsAt: Option<int>)
      requires Valid()
      modifies this
      ensures Valid() && history == old(history) + [Moment(old(View()), Opened(resource, endsAt, now))]
      ensures View() == LeaseEngine.OpenSession(old(View()), resource, now, endsAt)
    {
      var key := Key(resource);
      localStops := localStops - {key};
      localSessions := localSessions[key := Session(now, endsAt)];
      Record(old(View()), Opened(resource, endsAt, now));
    }

    method CloseSession(resource: string, now: int)
      requires Valid()
      modifies this
      ensures Valid() && history == old(history) + [Moment(old(View()), Closed(resource, now))]
      ensures View() == LeaseEngine.CloseSession(old(View()), resource, now)
    {
      var key := Key(resource);
      localSessions := localSessions - {key};
      syncedInUse := syncedInUse - {key};
      localStops := localStops[key := now];
      Record(old(View()), Closed(resource, now));
    }

    /** The reconcile itself, for one source's tracked resources. */
    method ReconcileTracked(inUse: seq<string>, tracked: seq<string>, now: int, asOf: int)
      modifies this`localStops, this`localSessions, this`syncedInUse
      ensures View() == LeaseEngine.ReconcileTracked(old(View()), inUse, tracked, now, asOf)
    {
      localStops := map k | k in localStops && now - localStops[k] < grace :: localStops[k];
      assert localStops == RecentStops(old(localStops), grace, now);
      var claimed := Keys(inUse);
      var synced := set k | k in claimed && !(k in localStops && localStops[k] > asOf);
      assert synced == Believed(claimed, localStops, asOf);
      var trackedKeys := Keys(tracked);
      localSessions := map k | k in localSessions && (
                                 var session := localSessions[k];
                                 if session.endsAt.Some? && now >= session.endsAt.value then false
                                 else k !in trackedKeys || k in synced || now - session.openedAt < grace)
                       :: localSessions[k];
      assert localSessions == Survivors(old(localSessions), synced, trackedKeys, grace, now);
      syncedInUse := set k | k in syncedInUse && k !in trackedKeys;
      syncedInUse := syncedInUse + synced;
      assert syncedInUse == (old(syncedInUse) - trackedKeys) + synced;
    }

    method Keys(names: seq<string>) returns (keys: set<string>)
      ensures keys == KeysIn(snapshot, names)
    {
      keys := {};
      for i := 0 to |names|
        invariant keys == KeysIn(snapshot, names[..i])
      {
        var key := Key(names[i]);
        assert names[..i + 1] == names[..i] + [names[i]];
        keys := keys + {key};
      }
      assert names[..|names|] == names;
    }

    method ReconcileSessions(inUse: seq<string>, tracked: seq<string>, now: int, asOf: int)
      requires Valid()
      modifies this
      ensures Valid() && history == old(history) + [Moment(old(View()), Reconciled(inUse, tracked, asOf, now))]
      ensures View() == LeaseEngine.ReconcileTracked(old(View()), inUse, tracked, now, asOf)
    {
      ReconcileTracked(inUse, tracked, now, asOf);
      Record(old(View()), Reconciled(inUse, tracked, asOf, now));
    }

    method ApplyStateAt(tools: seq<Tool>, requestedAt: Option<int>, now: int)
      requires Valid()
      modifies this
      ensures Valid() && history == old(history) + [Moment(old(View()), StateApplied(tools, requestedAt, now))]
      ensures View() == LeaseEngine.ApplyState(old(View()), tools, requestedAt, now)
      ensures snapshot == Some(tools)
      ensures forall t, at :: t in tools && t.kind == "door" && t.sessionProfile == "until_stopped"
                              && t.toolId !in localStops && t.toolId !in localSessions ==>
                (LeaseEngine.InUse(View(), t.toolId, at) <==>
                 exists u :: u in tools && u.toolId == t.toolId && u.kind == "door"
                             && u.sessionProfile == "until_stopped" && u.inUse)
    {
      snapshot := Some(tools);
      ReconcileTracked(Rooms(tools, true), Rooms(tools, false), now, requestedAt.GetOr(now));
      Record(old(View()), StateApplied(tools, requestedAt, now));
      forall t, at | t in tools && t.kind == "door" && t.sessionProfile == "until_stopped"
                     && t.toolId !in localStops && t.toolId !in localSessions
        ensures LeaseEngine.InUse(View(), t.toolId, at) <==>
                exists u :: u in tools && u.toolId == t.toolId && u.kind == "door"
                            && u.sessionProfile == "until_stopped" && u.inUse
      {
        SnapshotDecidesItsRooms(history[|history| - 1], t.toolId, at);
      }
    }

    // ----- reports ------------------------------------------------------

    method NoteRelayState(deviceId: string, on: bool, now: int)
      requires Valid()
      modifies this
      ensures Valid() && history == old(history) + [Moment(old(View()), RelayNoted(deviceId, on, now))]
      ensures View() == old(View()).(relayState := old(relayState)[deviceId := RelayReport(on, now)])
    {
      relayState := relayState[deviceId := RelayReport(on, now)];
      Record(old(View()), RelayNoted(deviceId, on, now));
    }

    method Observe(tool: string, condition: string, asserted: bool, now: int)
      requires Valid()
      modifies this
      ensures Valid() && history == old(history) + [Moment(old(View()), Observed(tool, condition, asserted, now))]
      ensures View() == LeaseEngine.Observe(old(View()), tool, condition, asserted, now)
    {
      var k := (tool, condition);
      if k !in readings || readings[k].asserted != asserted {
        readings := readings[k := Reading(asserted, now)];
      }
      Record(old(View()), Observed(tool, condition, asserted, now));
    }

    method NoteModuleSeen(moduleId: string, now: int)
      requires Valid()
      modifies this
      ensures Valid() && history == old(history) + [Moment(old(View()), ModuleNoted(moduleId, now))]
      ensures View() == old(View()).(moduleSeen := old(moduleSeen)[moduleId := now])
    {
      moduleSeen := moduleSeen[moduleId := now];
      Record(old(View()), ModuleNoted(moduleId, now));
    }

    /** The ids of the bindings a device holds, in snapshot order. */
    static method CollectBindings(tools: seq<Tool>, deviceId: string) returns (ids: seq<string>)
      ensures ids == HeldBy(tools, deviceId)
    {
      ids := [];
      for i := 0 to |tools|
        invariant ids == HeldBy(tools[..i], deviceId)
      {
        var modules := tools[i].modules;
        ghost var before := ids;
        for j := 0 to |modules|
          invariant ids == before + HeldIn(modules[..j], deviceId)
        {
          assert modules[..j + 1][..j] == modules[..j];
          if modules[j].deviceId == deviceId {
            ids := ids + [modules[j].id];
          }
        }
        assert modules[..|modules|] == modules && tools[..i + 1][..i] == tools[..i];
      }
      assert tools[..|tools|] == tools;
    }

    static lemma MarkedAre(tools: seq<Tool>, deviceId: string, seen: map<string, int>, now: int)
      ensures var ids, held := HeldBy(tools, deviceId), BindingsOf(tools, deviceId);
              && seen + (map id | id in ids :: now) == seen + (map id | id in held :: now)
              && (ids == [] ==> held == {})
    {
      forall id ensures id in HeldBy(tools, deviceId) <==> id in BindingsOf(tools, deviceId) {
        HeldByMeans(tools, deviceId, id);
      }
    }

    method MarkBindings(deviceId: string, now: int) returns (marked: nat)
      modifies this`moduleSeen
      ensures View() == LeaseEngine.NoteDeviceSeen(old(View()), deviceId, now)
      ensures marked == if snapshot.Some? then |HeldBy(snapshot.value, deviceId)| else 0
      ensures marked == 0 ==> View() == old(View())
    {
      if snapshot.None? {
        return 0;
      }
      var ids := CollectBindings(snapshot.value, deviceId);
      MarkedAre(snapshot.value, deviceId, moduleSeen, now);
      moduleSeen := moduleSeen + (map id | id in ids :: now);
      marked := |ids|;
    }

    /** Marks every binding the device holds as heard from, and counts them. */
    method NoteDeviceSeen(deviceId: string, now: int) returns (marked: nat)
      requires Valid()
      modifies this
      ensures Valid() && history == old(history) + [Moment(old(View()), DeviceNoted(deviceId, now))]
      ensures View() == LeaseEngine.NoteDeviceSeen(old(View()), deviceId, now)
      ensures marked == if old(snapshot).Some? then |HeldBy(old(snapshot).value, deviceId)| else 0
      ensures marked == 0 ==> View() == old(View())
    {
      marked := MarkBindings(deviceId, now);
      Record(old(View()), DeviceNoted(deviceId, now));
    }

    method ResetLatch(tool: string, ghost now: int)
      requires Valid()
      modifies this
      ensures Valid() && history == old(history) + [Moment(old(View()), LatchReset(tool, now))]
      ensures View() == old(View()).(latched := old(latched) - {tool})
    {
      latched := latched - {tool};
      Record(old(View()), LatchReset(tool, now));
    }

    // ----- the decision and the lease -----------------------------------

    method Evaluate(tool: string, now: int, timeout: int) returns (d: Decision)
      ensures d == LeaseEngine.Evaluate(View(), tool, now, timeout)
    {
      if snapshot.None? {
        return Deny(Unknown);
      }
      var wiring := Resolve(snapshot.value, tool);
      if wiring.None? {
        return Allow;
      }
      var w := wiring.value;
      if w.toolId in latched {
        return Deny(Latched(latched[w.toolId]));
      }
      var offline := FirstOffline(View(), w.modules, now, timeout);
      if offline.Some? {
        return Deny(ModuleOffline(offline.value));
      }
      for i := 0 to |w.interlocks|
        invariant FirstRuleDenial(View(), w.toolId, w.interlocks, now)
               == FirstRuleDenial(View(), w.toolId, w.interlocks[i..], now)
      {
        var rule := w.interlocks[i];
        match Satisfied(View(), w.toolId, rule, now) {
          case None => return Deny(Unobserved(rule.condition));
          case Some(met) =>
            if !met {
              return Deny(if rule.kind == KIND_TRIP then Tripped(rule.condition) else Gate(rule.condition));
            }
        }
      }
      if !InUse(View(), w.toolId, now) {
        return Deny(NotInUse);
      }
      return Allow;
    }

    /** Renews the tool's lease or lets it go, latching a trip that latches. */
    method RenewLease(tool: string, now: int, ttl: int, timeout: int) returns (d: Decision)
      modifies this`leases, this`latched
      ensures d == LeaseEngine.Evaluate(old(View()), tool, now, timeout)
      ensures View() == LeaseEngine.Renew(old(View()), tool, now, ttl, timeout)
    {
      d := Evaluate(tool, now, timeout);
      var key := Key(tool);
      match d
      case Allow =>
        leases := leases[key := now + ttl];
      case Deny(denial) =>
        leases := leases - {key};
        if denial.Tripped? && snapshot.Some? {
          var wiring := Resolve(snapshot.value, tool);
          if wiring.Some? && LatchesTrip(wiring.value, denial.condition) {
            latched := latched[key := denial.condition];
          }
        }
    }

    method Renew(tool: string, now: int, ttl: int, timeout: int) returns (d: Decision)
      requires Valid()
      modifies this
      ensures Valid() && history == old(history) + [Moment(old(View()), Renewed(tool, ttl, timeout, now))]
      ensures d == LeaseEngine.Evaluate(old(View()), tool, now, timeout)
      ensures View() == LeaseEngine.Renew(old(View()), tool, now, ttl, timeout)
    {
      d := RenewLease(tool, now, ttl, timeout);
      Record(old(View()), Renewed(tool, ttl, timeout, now));
    }

    method LeaseValid(tool: string, now: int) returns (valid: bool)
      ensures valid == LeaseEngine.LeaseValid(View(), tool, now)
    {
      var key := Key(tool);
      valid := key in leases && leases[key] > now;
    }

    // ----- the tick -----------------------------------------------------

    /** The instant a binding's start delay counts from, as far as its stage goes. */
    method StartBase(power: seq<DeviceBinding>, b: DeviceBinding, since: int) returns (base: Option<int>)
      requires b in power
      ensures base == StageBase(relayState, power, b.startStage, since)
    {
      if b.startStage <= MinStage(power) {
        FirstStageBase(relayState, power, b.startStage, since);
        return Some(since);
      }
      var latest := since;
      for i := 0 to |power|
        invariant StageBase(relayState, power[..i], b.startStage, since) == Some(latest)
      {
        assert power[..i + 1][..i] == power[..i];
        if power[i].startStage < b.startStage {
          var at := ConfirmedOnAt(relayState, power[i], since);
          if at.None? {
            BlockedStays(relayState, power, b.startStage, since, i + 1);
            return None;
          }
          latest := Max(latest, at.value);
        }
      }
      assert power[..|power|] == power;
      return Some(latest);
    }

    static lemma {:induction false} BlockedStays(relays: map<string, RelayReport>, power: seq<DeviceBinding>,
                                                 stage: int, since: int, n: nat)
      requires n <= |power| && StageBase(relays, power[..n], stage, since).None?
      ensures StageBase(relays, power, stage, since).None?
      decreases |power|
    {
      if n < |power| {
        var p := power[..|power| - 1];
        assert p[..n] == power[..n];
        BlockedStays(relays, p, stage, since, n);
      } else {
        assert power[..n] == power;
      }
    }

    /** An allow grants every power binding whose turn has come. */
    method GrantReady(tool: string, power: seq<DeviceBinding>, since: int, now: int, ttlMs: int,
                      ghost rulings: seq<Ruling>)
      returns (out: seq<LeaseAction>)
      requires |rulings| == |power|
      requires forall i :: 0 <= i < |power| ==>
                 rulings[i] == if IsReady(relayState, power, power[i], since, now) then Granted else Withheld
      modifies this`grantedSince
      ensures out == ActionsFor(tool, power, rulings, Allow, ttlMs)
      ensures grantedSince == GrantAll(old(grantedSince), RuledIds(power, rulings, Granted), now)
    {
      out := [];
      for i := 0 to |power|
        invariant out == ActionsFor(tool, power[..i], rulings[..i], Allow, ttlMs)
        invariant grantedSince == GrantAll(old(grantedSince), RuledIds(power[..i], rulings[..i], Granted), now)
      {
        var b := power[i];
        OneMore(power, rulings, i);
        assert RuledIds(power[..i], rulings[..i], Granted) + {} == RuledIds(power[..i], rulings[..i], Granted);
        var base := StartBase(power, b, since);
        GrantOneMore(old(grantedSince), RuledIds(power[..i], rulings[..i], Granted), b.id, now);
        if base.Some? && now >= base.value + Max(b.startDelayMs, 0) {
          if b.id !in grantedSince {
            grantedSince := grantedSince[b.id := now];
          }
          out := out + [LeaseAction(tool, b.deviceId, true, ttlMs, None)];
        }
      }
      WholeSeq(power, rulings);
    }

    static lemma GrantOneMore(granted: map<string, int>, ids: set<string>, id: string, now: int)
      ensures var g := GrantAll(granted, ids, now);
              GrantAll(granted, ids + {id}, now) == if id in g then g else g[id := now]
    {
    }

    static lemma OneMore<S, T>(s: seq<S>, t: seq<T>, i: nat)
      requires i < |s| == |t|
      ensures s[..i + 1][..i] == s[..i] && t[..i + 1][..i] == t[..i]
      ensures s[..i + 1][i] == s[i] && t[..i + 1][i] == t[i]
    {
    }

    static lemma WholeSeq<S, T>(s: seq<S>, t: seq<T>)
      ensures s[..|s|] == s && t[..|t|] == t
    {
    }

    /** The transition out of an allow: what was on and has a run-on time gets it. */
    method BeginRunOn(power: seq<DeviceBinding>, now: int)
      modifies this`runOnUntil
      ensures runOnUntil == StartRunOn(old(runOnUntil), grantedSince, power, now)
    {
      for i := 0 to |power|
        invariant runOnUntil == StartRunOn(old(runOnUntil), grantedSince, power[..i], now)
      {
        assert power[..i + 1][..i] == power[..i];
        var b := power[i];
        if b.runOnMs > 0 && b.id in grantedSince {
          runOnUntil := runOnUntil[b.id := now + b.runOnMs];
        }
      }
      assert power[..|power|] == power;
    }

    /** A denial keeps what is running on and refuses the rest. */
    method RefuseRest(tool: string, power: seq<DeviceBinding>, d: Decision, now: int, ttlMs: int,
                      ghost rulings: seq<Ruling>)
      returns (out: seq<LeaseAction>)
      requires d.Deny? && |rulings| == |power|
      requires forall i :: 0 <= i < |power| ==>
                 rulings[i] == if RunsOn(runOnUntil, power[i], now) then Granted else Refused
      modifies this`runOnUntil, this`grantedSince
      ensures out == ActionsFor(tool, power, rulings, d, ttlMs)
      ensures runOnUntil == old(runOnUntil) - RuledIds(power, rulings, Refused)
      ensures grantedSince == old(grantedSince) - RuledIds(power, rulings, Refused)
    {
      out := [];
      for i := 0 to |power|
        invariant out == ActionsFor(tool, power[..i], rulings[..i], d, ttlMs)
        invariant runOnUntil == old(runOnUntil) - RuledIds(power[..i], rulings[..i], Refused)
        invariant grantedSince == old(grantedSince) - RuledIds(power[..i], rulings[..i], Refused)
        invariant forall id :: id in RuledIds(power[..i], rulings[..i], Refused) ==>
                    !(id in old(runOnUntil) && now < old(runOnUntil)[id])
      {
        var b := power[i];
        OneMore(power, rulings, i);
        if b.id in runOnUntil && now < runOnUntil[b.id] {
          out := out + [LeaseAction(tool, b.deviceId, true, ttlMs, None)];
        } else {
          runOnUntil := runOnUntil - {b.id};
          grantedSince := grantedSince - {b.id};
          out := out + [LeaseAction(tool, b.deviceId, false, ttlMs, Some(d.denial))];
        }
      }
      WholeSeq(power, rulings);
    }

    method LeaseSensors(tool: string, sensors: seq<DeviceBinding>, d: Decision, ttlMs: int, ghost rulings: seq<Ruling>)
      returns (out: seq<LeaseAction>)
      requires |rulings| == |sensors| && forall i :: 0 <= i < |sensors| ==> rulings[i] == SensorRuling(d)
      ensures out == ActionsFor(tool, sensors, rulings, d, ttlMs)
    {
      out := [];
      for i := 0 to |sensors|
        invariant out == ActionsFor(tool, sensors[..i], rulings[..i], d, ttlMs)
      {
        OneMore(sensors, rulings, i);
        var reason := if d.Deny? then Some(d.denial) else None;
        out := out + [LeaseAction(tool, sensors[i].deviceId, d.Allow?, ttlMs, reason)];
      }
      WholeSeq(sensors, rulings);
    }

    /** An allowed tool's bindings. */
    method SettleAllow(tool: string, w: Tool, power: seq<DeviceBinding>, now: int, ttlMs: int)
      returns (out: seq<LeaseAction>)
      requires power == PowerOf(w)
      modifies this`allowedSince, this`runOnUntil, this`grantedSince
      ensures View() == LeaseEngine.Settle(old(View()), w, Allow, now)
      ensures out == ActionsFor(tool, power, PowerRulings(old(View()), w, Allow, now), Allow, ttlMs)
    {
      ghost var s := View();
      if w.toolId !in allowedSince {
        allowedSince := allowedSince[w.toolId := now];
      }
      var since := allowedSince[w.toolId];
      assert allowedSince == s.allowedSince[w.toolId := AllowSince(s, w, now)];
      runOnUntil := runOnUntil - IdsOf(power);
      out := GrantReady(tool, power, since, now, ttlMs, PowerRulings(s, w, Allow, now));
    }

    /** A denied tool's bindings. */
    method SettleDeny(tool: string, w: Tool, power: seq<DeviceBinding>, d: Decision, now: int, ttlMs: int)
      returns (out: seq<LeaseAction>)
      requires power == PowerOf(w) && d.Deny?
      modifies this`allowedSince, this`runOnUntil, this`grantedSince
      ensures View() == LeaseEngine.Settle(old(View()), w, d, now)
      ensures out == ActionsFor(tool, power, PowerRulings(old(View()), w, d, now), d, ttlMs)
    {
      ghost var s := View();
      if w.toolId in allowedSince {
        allowedSince := allowedSince - {w.toolId};
        BeginRunOn(power, now);
      }
      assert allowedSince == s.allowedSince - {w.toolId};
      out := RefuseRest(tool, power, d, now, ttlMs, PowerRulings(s, w, d, now));
    }

    /** One tool's share of a tick: renew its lease, then settle its bindings. */
    method RenewAndSettle(tool: string, now: int, ttl: int, timeout: int) returns (out: seq<LeaseAction>)
      modifies this`leases, this`latched, this`allowedSince, this`runOnUntil, this`grantedSince
      ensures View() == LeaseEngine.TickTool(old(View()), tool, now, ttl, timeout)
      ensures out == ActionsAt(Moment(old(View()), Ticked(tool, ttl, timeout, now)))
    {
      ghost var s := View();
      var d := RenewLease(tool, now, ttl, timeout);
      ghost var renewed := View();
      var wiring := if snapshot.Some? then Resolve(snapshot.value, tool) else None;
      if wiring.None? {
        return [];
      }
      out := Settle(tool, wiring.value, d, now, Max(ttl, 0));
      SettleIgnoresLeases(s, renewed, wiring.value, d, now);
    }

    method Settle(tool: string, w: Tool, d: Decision, now: int, ttlMs: int) returns (out: seq<LeaseAction>)
      modifies this`allowedSince, this`runOnUntil, this`grantedSince
      ensures View() == LeaseEngine.Settle(old(View()), w, d, now)
      ensures out == ActionsFor(tool, PowerOf(w), PowerRulings(old(View()), w, d, now), d, ttlMs)
                     + ActionsFor(tool, SensorsOf(w), SensorRulings(w, d), d, ttlMs)
    {
      if d.Allow? {
        out := SettleAllow(tool, w, PowerOf(w), now, ttlMs);
      } else {
        out := SettleDeny(tool, w, PowerOf(w), d, now, ttlMs);
      }
      var metered := LeaseSensors(tool, SensorsOf(w), d, ttlMs, SensorRulings(w, d));
      out := out + metered;
    }

    method TickTool(tool: string, now: int, ttl: int, timeout: int) returns (out: seq<LeaseAction>)
      requires Valid()
      modifies this
      ensures Valid() && history == old(history) + [Moment(old(View()), Ticked(tool, ttl, timeout, now))]
      ensures View() == LeaseEngine.TickTool(old(View()), tool, now, ttl, timeout)
      ensures out == ActionsAt(history[|history| - 1])
      ensures var m := history[|history| - 1];
              Wiring(old(View()), tool).Some? ==>
                if DecisionAt(m).Allow? then GrantsInOrder(m, out) else RefusesInOrder(m, out)
    {
      out := RenewAndSettle(tool, now, ttl, timeout);
      Record(old(View()), Ticked(tool, ttl, timeout, now));
      AnswersInOrder(history[|history| - 1]);
    }

    /** A wired tool's share is told of all its bindings, by what was decided. */
    static lemma AnswersInOrder(m: Moment)
      requires m.step.Ticked?
      ensures Wiring(m.before, m.step.tool).Some? ==>
                if DecisionAt(m).Allow? then GrantsInOrder(m, ActionsAt(m)) else RefusesInOrder(m, ActionsAt(m))
    {
      if Wiring(m.before, m.step.tool).Some? {
        var key := TickedTool(m).toolId;
        if DecisionAt(m).Allow? {
          GrantsStandInOrder(m, key);
        } else {
          DenyTickActions(m, key);
        }
      }
    }

    /** One pass of the watchdog over every wired tool: each in turn, and for each that
        is denied its refusals, for each that is allowed its grants. */
    method Tick(now: int, ttl: int, timeout: int) returns (out: seq<LeaseAction>)
      requires Valid()
      modifies this
      ensures Valid()
      ensures history == old(history) + TicksFrom(old(View()), WiredIds(old(snapshot)), now, ttl, timeout)
      ensures out == Sent(TicksFrom(old(View()), WiredIds(old(snapshot)), now, ttl, timeout))
      ensures AnswersEach(TicksFrom(old(View()), WiredIds(old(snapshot)), now, ttl, timeout), out)
    {
      out := [];
      var ids := WiredIds(snapshot);
      for i := 0 to |ids|
        invariant Valid()
        invariant history + TicksFrom(View(), ids[i..], now, ttl, timeout)
               == old(history) + TicksFrom(old(View()), ids, now, ttl, timeout)
        invariant out + Sent(TicksFrom(View(), ids[i..], now, ttl, timeout))
               == Sent(TicksFrom(old(View()), ids, now, ttl, timeout))
      {
        ghost var before, earlier, sent := View(), history, out;
        var actions := TickTool(ids[i], now, ttl, timeout);
        out := out + actions;
        OneShare(earlier, sent, before, ids, i, now, ttl, timeout);
      }
      SharesAreInOrder(TicksFrom(old(View()), ids, now, ttl, timeout), out);
    }

    static lemma SharesAreInOrder(h: History, out: seq<LeaseAction>)
      requires (forall m :: m in h ==> m.step.Ticked?) && out == Sent(h)
      ensures AnswersEach(h, out)
    {
      forall m | m in h && Wiring(m.before, m.step.tool).Some?
        ensures exists i, j :: 0 <= i <= j <= |out| &&
                  if DecisionAt(m).Allow? then GrantsInOrder(m, out[i..j]) else RefusesInOrder(m, out[i..j])
      {
        var at := SentInTurn(h, m);
        AnswersInOrder(m);
        assert out[at..at + |ActionsAt(m)|] == ActionsAt(m);
      }
    }

    static lemma FirstShare(s: Store, ids: seq<string>, i: nat, now: int, ttl: int, timeout: int)
      requires i < |ids|
      ensures var after := LeaseEngine.TickTool(s, ids[i], now, ttl, timeout);
              && TicksFrom(s, ids[i..], now, ttl, timeout)
                 == [Moment(s, Ticked(ids[i], ttl, timeout, now))] + TicksFrom(after, ids[i + 1..], now, ttl, timeout)
              && Sent(TicksFrom(s, ids[i..], now, ttl, timeout))
                 == ActionsAt(Moment(s, Ticked(ids[i], ttl, timeout, now)))
                    + Sent(TicksFrom(after, ids[i + 1..], now, ttl, timeout))
    {
    }

    /** The first share is taken off what is still to come and put to what has been. */
    static lemma OneShare(earlier: History, sent: seq<LeaseAction>, s: Store, ids: seq<string>, i: nat, now: int,
                          ttl: int, timeout: int)
      requires i < |ids|
      ensures var m := Moment(s, Ticked(ids[i], ttl, timeout, now));
              var after := LeaseEngine.TickTool(s, ids[i], now, ttl, timeout);
              var rest := TicksFrom(after, ids[i + 1..], now, ttl, timeout);
              && (earlier + [m]) + rest == earlier + TicksFrom(s, ids[i..], now, ttl, timeout)
              && (sent + ActionsAt(m)) + Sent(rest) == sent + Sent(TicksFrom(s, ids[i..], now, ttl, timeout))
    {
      var m := Moment(s, Ticked(ids[i], ttl, timeout, now));
      var rest := TicksFrom(LeaseEngine.TickTool(s, ids[i], now, ttl, timeout), ids[i + 1..], now, ttl, timeout);
      FirstShare(s, ids, i, now, ttl, timeout);
      Regroup(earlier, [m], rest);
      Regroup(sent, ActionsAt(m), Sent(rest));
    }

    static lemma Regroup<T>(a: seq<T>, b: seq<T>, c: seq<T>)
      ensures (a + b) + c == a + (b + c)
    {
    }
  }
}
