/** Run-on of one binding, whatever else is rewired: what a tick does to it, what a
    denial sends, and that a refusal stands until the next allow. */
module LeaseRunOn {
  import opened Wrappers
  import opened Wire
  import opened LeaseEngine
  import opened LeaseRuns
  import opened LeaseSequencing

  // ----- one binding, whatever else is rewired ---------------------------

  ghost predicate OnlyOwner(power: seq<DeviceBinding>, b: DeviceBinding) {
    b in power && forall c :: c in power && c.id == b.id ==> c == b
  }

  /** The tool with this id switches the binding with that id, with this run-on time,
      and no other tool switches it. Nothing else about either is fixed. */
  ghost predicate KeepsBinding(t: Tool, key: string, id: string, runOnMs: int) {
    if t.toolId == key then exists b :: OnlyOwner(PowerOf(t), b) && b.id == id && b.runOnMs == runOnMs
    else forall c :: c in PowerOf(t) ==> c.id != id
  }

  /** In every wiring the history is sent. */
  ghost predicate BindingKept(h: History, key: string, id: string, runOnMs: int) {
    forall m, t :: m in h && m.step.StateApplied? && t in m.step.tools ==> KeepsBinding(t, key, id, runOnMs)
  }

  ghost predicate KeptIn(s: Store, key: string, id: string, runOnMs: int) {
    s.snapshot.Some? ==> forall t :: t in s.snapshot.value ==> KeepsBinding(t, key, id, runOnMs)
  }

  lemma {:induction false} WiringKeeps(h: History, key: string, id: string, runOnMs: int)
    requires IsRun(h) && BindingKept(h, key, id, runOnMs)
    ensures KeptIn(Final(h), key, id, runOnMs)
  {
    if |h| > 0 {
      var p, m := h[..|h| - 1], h[|h| - 1];
      WiringKeeps(p, key, id, runOnMs);
      WhatAStepWrites(m.before, m.step);
      assert m in h;
    }
  }

  /** The binding with this id, among these. */
  function BindingOf(power: seq<DeviceBinding>, id: string): Option<DeviceBinding> {
    if |power| == 0 then None else if power[0].id == id then Some(power[0]) else BindingOf(power[1..], id)
  }

  lemma {:induction false} BindingOfOwner(power: seq<DeviceBinding>, b: DeviceBinding)
    requires OnlyOwner(power, b)
    ensures BindingOf(power, b.id) == Some(b)
  {
    if power[0].id != b.id {
      assert b in power[1..];
      BindingOfOwner(power[1..], b);
    } else {
      assert power[0] in power;
    }
  }

  /** What a tick ruled for the binding with this id, as it was then wired. */
  function RulingOf(m: Moment, id: string): Ruling
    requires Settles(m.step) && Wiring(m.before, m.step.tool).Some?
  {
    match BindingOf(PowerOf(TickedTool(m)), id)
    case Some(b) => RulingAt(m, b)
    case None => if DecisionAt(m).Allow? then Withheld else Refused
  }

  lemma TickedToolKeeps(m: Moment, key: string, id: string, runOnMs: int)
    requires Settles(m.step) && Wiring(m.before, m.step.tool).Some? && KeptIn(m.before, key, id, runOnMs)
    ensures KeepsBinding(TickedTool(m), key, id, runOnMs)
  {
    ResolveMeans(m.before.snapshot.value, m.step.tool);
  }

  // ----- what one tick does to one binding ------------------------------

  lemma {:induction false} RuledIdsMean(bindings: seq<DeviceBinding>, rulings: seq<Ruling>, r: Ruling, id: string)
    requires |bindings| == |rulings|
    ensures id in RuledIds(bindings, rulings, r) <==>
            exists i :: 0 <= i < |bindings| && bindings[i].id == id && rulings[i] == r
  {
    if |bindings| > 0 {
      var n := |bindings| - 1;
      RuledIdsMean(bindings[..n], rulings[..n], r, id);
      if id in RuledIds(bindings[..n], rulings[..n], r) {
        var i :| 0 <= i < n && bindings[..n][i].id == id && rulings[..n][i] == r;
        assert bindings[i].id == id && rulings[i] == r;
      }
      forall i | 0 <= i < n && bindings[i].id == id && rulings[i] == r
        ensures id in RuledIds(bindings[..n], rulings[..n], r)
      {
        assert bindings[..n][i].id == id && rulings[..n][i] == r;
      }
    }
  }

  lemma RuledIdsOfOwner(s: Store, w: Tool, b: DeviceBinding, d: Decision, now: int, r: Ruling)
    requires OnlyOwner(PowerOf(w), b)
    ensures b.id in RuledIds(PowerOf(w), PowerRulings(s, w, d, now), r) <==> PowerRuling(s, w, b, d, now) == r
  {
    var power, rulings := PowerOf(w), PowerRulings(s, w, d, now);
    RuledIdsMean(power, rulings, r, b.id);
    var i :| 0 <= i < |power| && power[i] == b;
    assert rulings[i] == PowerRuling(s, w, b, d, now);
  }

  lemma RuledIdsOfStranger(s: Store, w: Tool, id: string, d: Decision, now: int, r: Ruling)
    requires forall c :: c in PowerOf(w) ==> c.id != id
    ensures id !in RuledIds(PowerOf(w), PowerRulings(s, w, d, now), r)
  {
    RuledIdsMean(PowerOf(w), PowerRulings(s, w, d, now), r, id);
  }

  lemma {:induction false} StartRunOnOfStranger(runOn: map<string, int>, granted: map<string, int>,
                                                power: seq<DeviceBinding>, now: int, id: string)
    requires forall c :: c in power ==> c.id != id
    ensures var table := StartRunOn(runOn, granted, power, now);
            (id in table <==> id in runOn) && (id in table ==> table[id] == runOn[id])
  {
    if |power| > 0 {
      StartRunOnOfStranger(runOn, granted, power[..|power| - 1], now, id);
    }
  }

  lemma {:induction false} StartRunOnOfOwner(runOn: map<string, int>, granted: map<string, int>,
                                             power: seq<DeviceBinding>, now: int, b: DeviceBinding)
    requires OnlyOwner(power, b)
    ensures var table := StartRunOn(runOn, granted, power, now);
            if b.runOnMs > 0 && b.id in granted then b.id in table && table[b.id] == now + b.runOnMs
            else (b.id in table <==> b.id in runOn) && (b.id in table ==> table[b.id] == runOn[b.id])
  {
    var n := |power| - 1;
    var rest := power[..n];
    assert power == rest + [power[n]];
    if b in rest {
      StartRunOnOfOwner(runOn, granted, rest, now, b);
    } else {
      StartRunOnOfStranger(runOn, granted, rest, now, b.id);
    }
  }

  /** The binding's run-on and grant are as they were. */
  ghost predicate SameFor(s: Store, t: Store, id: string) {
    && (id in t.runOnUntil <==> id in s.runOnUntil)
    && (id in t.runOnUntil ==> t.runOnUntil[id] == s.runOnUntil[id])
    && (id in t.grantedSince <==> id in s.grantedSince)
  }

  ghost predicate AfterAllow(s: Store, t: Store, id: string, ruling: Ruling) {
    && id !in t.runOnUntil
    && (id in t.grantedSince <==> id in s.grantedSince || ruling == Granted)
  }

  /** A refusal forgets the binding; a grant is run-on, either starting now or
      already running, that has not ended. */
  ghost predicate AfterDeny(s: Store, t: Store, key: string, id: string, runOnMs: int, ruling: Ruling, now: int) {
    var starts := key in s.allowedSince && runOnMs > 0 && id in s.grantedSince;
    && ruling != Withheld
    && (ruling == Refused ==> id !in t.runOnUntil && id !in t.grantedSince)
    && (ruling == Granted ==>
          && id in t.runOnUntil
          && (id in t.grantedSince <==> id in s.grantedSince)
          && (starts || id in s.runOnUntil)
          && t.runOnUntil[id] == (if starts then now + runOnMs else s.runOnUntil[id])
          && now < t.runOnUntil[id])
  }

  ghost predicate StepEffect(m: Moment, key: string, id: string, runOnMs: int) {
    if AllowTick(m, key) then AfterAllow(m.before, m.After(), id, RulingOf(m, id))
    else if DenyTick(m, key) then AfterDeny(m.before, m.After(), key, id, runOnMs, RulingOf(m, id), m.step.now)
    else SameFor(m.before, m.After(), id)
  }

  /** A tick of the tool writes the binding's grant and run-on by its ruling, and
      nothing else touches them. */
  lemma {:induction false} StepOnBinding(m: Moment, key: string, id: string, runOnMs: int)
    requires KeptIn(m.before, key, id, runOnMs)
    ensures StepEffect(m, key, id, runOnMs)
  {
    if Settles(m.step) && Wiring(m.before, m.step.tool).Some? {
      var t := TickedTool(m);
      TickedToolKeeps(m, key, id, runOnMs);
      if t.toolId == key {
        var b :| OnlyOwner(PowerOf(t), b) && b.id == id && b.runOnMs == runOnMs;
        OwnTickOnBinding(m, t, b);
      } else {
        StrangerTickOnBinding(m, t, id);
      }
    } else {
      OtherStepOnBinding(m, id);
    }
  }

  lemma OtherStepOnBinding(m: Moment, id: string)
    requires !(Settles(m.step) && Wiring(m.before, m.step.tool).Some?)
    ensures SameFor(m.before, m.After(), id)
  {
    WhatAStepWrites(m.before, m.step);
    if m.step.Ticked? {
      TickWrites(m.before, m.step.tool, m.step.now, m.step.ttl, m.step.timeout);
    }
  }

  lemma TickSettles(m: Moment, w: Tool)
    requires Settles(m.step) && Wiring(m.before, m.step.tool) == Some(w)
    ensures var t := Settle(m.before, w, DecisionAt(m), m.step.now);
            && m.After().runOnUntil == t.runOnUntil
            && m.After().grantedSince == t.grantedSince
  {
  }

  lemma OwnTickOnBinding(m: Moment, w: Tool, b: DeviceBinding)
    requires Settles(m.step) && Wiring(m.before, m.step.tool) == Some(w) && OnlyOwner(PowerOf(w), b)
    ensures StepEffect(m, w.toolId, b.id, b.runOnMs)
  {
    BindingOfOwner(PowerOf(w), b);
    TickSettles(m, w);
    SettleOwn(m.before, w, b, DecisionAt(m), m.step.now);
  }

  lemma SettleOwn(s: Store, w: Tool, b: DeviceBinding, d: Decision, now: int)
    requires OnlyOwner(PowerOf(w), b)
    ensures var t, ruling := Settle(s, w, d, now), PowerRuling(s, w, b, d, now);
            if d.Allow? then AfterAllow(s, t, b.id, ruling)
            else AfterDeny(s, t, w.toolId, b.id, b.runOnMs, ruling, now)
  {
    if d.Allow? {
      RuledIdsOfOwner(s, w, b, d, now, Granted);
    } else {
      RuledIdsOfOwner(s, w, b, d, now, Refused);
      StartRunOnOfOwner(s.runOnUntil, s.grantedSince, PowerOf(w), now, b);
    }
  }

  lemma StrangerTickOnBinding(m: Moment, w: Tool, id: string)
    requires Settles(m.step) && Wiring(m.before, m.step.tool) == Some(w)
    requires forall c :: c in PowerOf(w) ==> c.id != id
    ensures SameFor(m.before, m.After(), id)
  {
    TickSettles(m, w);
    SettleStranger(m.before, w, id, DecisionAt(m), m.step.now);
  }

  lemma SettleStranger(s: Store, w: Tool, id: string, d: Decision, now: int)
    requires forall c :: c in PowerOf(w) ==> c.id != id
    ensures SameFor(s, Settle(s, w, d, now), id)
  {
    if d.Allow? {
      RuledIdsOfStranger(s, w, id, d, now, Granted);
    } else {
      RuledIdsOfStranger(s, w, id, d, now, Refused);
      StartRunOnOfStranger(s.runOnUntil, s.grantedSince, PowerOf(w), now, id);
    }
  }

  // ----- the run --------------------------------------------------------

  /** The tool's last allow was at `a`, and `d` is its first denial after that. */
  ghost predicate StoppedAt(h: History, a: int, d: int, key: string) {
    && 0 <= a < d < |h| && AllowTick(h[a], key) && DenyTick(h[d], key)
    && forall j :: a < j < |h| && TicksTool(h[j], key) ==> d <= j && DenyTick(h[j], key)
  }

  /** The binding was granted at `g` by an allow, and has not been refused since. */
  ghost predicate GrantedUnrefused(h: History, g: int, key: string, id: string) {
    && 0 <= g < |h| && AllowTick(h[g], key) && RulingOf(h[g], id) == Granted
    && forall j :: g < j < |h| && TicksTool(h[j], key) ==> RulingOf(h[j], id) != Refused
  }

  lemma {:induction false} LastTickFrom(h: History, i: int, key: string) returns (a: int)
    requires 0 <= i < |h| && TicksTool(h[i], key)
    ensures i <= a < |h| && TicksTool(h[a], key)
    ensures forall j :: a < j < |h| ==> !TicksTool(h[j], key)
  {
    var n := |h| - 1;
    if TicksTool(h[n], key) {
      a := n;
    } else {
      a := LastTickFrom(h[..n], i, key);
    }
  }

  /** A denial that finds the tool's run of allows still open is the first after it. */
  lemma FirstDenial(p: History, m: Moment, key: string) returns (a: int)
    requires IsRun(p) && m.before == Final(p) && DenyTick(m, key) && key in m.before.allowedSince
    ensures StoppedAt(p + [m], a, |p|, key)
  {
    AllowedSinceBeginsTheRun(p, key);
    var i :| BeginsAllowRun(p, i, key);
    a := LastTickFrom(p, i, key);
    assert AllowTick(p[a], key);
  }

  lemma StoppedAtGrows(p: History, m: Moment, a: int, d: int, key: string)
    requires StoppedAt(p, a, d, key) && !AllowTick(m, key)
    ensures StoppedAt(p + [m], a, d, key)
  {
  }

  lemma GrantedUnrefusedGrows(p: History, m: Moment, g: int, key: string, id: string)
    requires GrantedUnrefused(p, g, key, id) && (TicksTool(m, key) ==> RulingOf(m, id) != Refused)
    ensures GrantedUnrefused(p + [m], g, key, id)
  {
  }

  /** Nothing is left to grant the binding by until the tool is allowed again. */
  ghost predicate AtRest(s: Store, key: string, id: string) {
    key !in s.allowedSince && id !in s.runOnUntil
  }

  lemma RefusalRests(m: Moment, key: string, id: string, runOnMs: int)
    requires StepEffect(m, key, id, runOnMs) && DenyTick(m, key) && RulingOf(m, id) == Refused
    ensures AtRest(m.After(), key, id)
  {
  }

  lemma {:induction false} RestStands(m: Moment, key: string, id: string, runOnMs: int)
    requires StepEffect(m, key, id, runOnMs) && AtRest(m.before, key, id) && !AllowTick(m, key)
    ensures AtRest(m.After(), key, id)
    ensures TicksTool(m, key) ==> RulingOf(m, id) == Refused
  {
    StepWritesAllowedSince(m, key);
  }

  lemma {:induction false} RefusedBindingRests(h: History, i: nat, j: nat, key: string, id: string, runOnMs: int)
    requires IsRun(h) && BindingKept(h, key, id, runOnMs)
    requires i <= j < |h| && DenyTick(h[i], key) && RulingOf(h[i], id) == Refused
    requires forall k :: i < k <= j ==> !AllowTick(h[k], key)
    ensures AtRest(h[j].After(), key, id)
    decreases j
  {
    EffectAt(h, j, key, id, runOnMs);
    if i < j {
      RefusedBindingRests(h, i, j - 1, key, id, runOnMs);
      RunIsAChain(h, j);
      RestStands(h[j], key, id, runOnMs);
    } else {
      RefusalRests(h[j], key, id, runOnMs);
    }
  }

  lemma {:induction false} EffectAt(h: History, j: nat, key: string, id: string, runOnMs: int)
    requires IsRun(h) && BindingKept(h, key, id, runOnMs) && j < |h|
    ensures StepEffect(h[j], key, id, runOnMs)
  {
    PrefixIsRun(h, j);
    WiringKeeps(h[..j], key, id, runOnMs);
    StepOnBinding(h[j], key, id, runOnMs);
  }

  /** Run-on never restarts: a power binding refused by a denial is refused by
      every later tick of the tool until one allows it. */
  lemma RefusalStandsUntilAllow(h: History, i: nat, j: nat, key: string, id: string, runOnMs: int)
    requires IsRun(h) && BindingKept(h, key, id, runOnMs)
    requires i < j < |h| && DenyTick(h[i], key) && RulingOf(h[i], id) == Refused
    requires forall k :: i < k <= j ==> !AllowTick(h[k], key)
    requires TicksTool(h[j], key)
    ensures RulingOf(h[j], id) == Refused
  {
    RefusedBindingRests(h, i, j - 1, key, id, runOnMs);
    RunIsAChain(h, j);
    EffectAt(h, j, key, id, runOnMs);
    RestStands(h[j], key, id, runOnMs);
  }

  /** A denial sends one command to each power binding and then to each sensor, in their
      order, with its device and the ttl in whole milliseconds: a grant to a power
      binding that still runs on, and to every other a refusal that gives the reason. */
  ghost predicate RefusesInOrder(m: Moment, out: seq<LeaseAction>)
    requires Settles(m.step) && Wiring(m.before, m.step.tool).Some? && DecisionAt(m).Deny?
  {
    var w, denial, ttlMs := TickedTool(m), DecisionAt(m).denial, Max(m.step.ttl, 0);
    var power, sensors := PowerOf(w), SensorsOf(w);
    && |out| == |power| + |sensors|
    && (forall i :: 0 <= i < |power| ==>
          out[i] == if RulingAt(m, power[i]) == Granted
                    then LeaseAction(m.step.tool, power[i].deviceId, true, ttlMs, None)
                    else LeaseAction(m.step.tool, power[i].deviceId, false, ttlMs, Some(denial)))
    && forall i :: 0 <= i < |sensors| ==>
         out[|power| + i] == LeaseAction(m.step.tool, sensors[i].deviceId, false, ttlMs, Some(denial))
  }

  lemma CommandEach(name: string, power: seq<DeviceBinding>, rulings: seq<Ruling>, d: Decision, ttlMs: int)
    requires d.Deny? && |rulings| == |power| && forall i :: 0 <= i < |rulings| ==> rulings[i] != Withheld
    ensures var out := ActionsFor(name, power, rulings, d, ttlMs);
            && |out| == |power|
            && forall i :: 0 <= i < |power| ==>
                 out[i] == if rulings[i] == Granted then LeaseAction(name, power[i].deviceId, true, ttlMs, None)
                           else LeaseAction(name, power[i].deviceId, false, ttlMs, Some(d.denial))
  {
  }

  /** What a denial sends is just that. */
  lemma DenyTickActions(m: Moment, key: string)
    requires DenyTick(m, key)
    ensures RefusesInOrder(m, ActionsAt(m))
  {
    var w, d, ttlMs, name := TickedTool(m), DecisionAt(m), Max(m.step.ttl, 0), m.step.tool;
    var power, rulings := PowerOf(w), PowerRulings(m.before, w, d, m.step.now);
    assert forall k :: 0 <= k < |power| ==> rulings[k] == RulingAt(m, power[k]);
    CommandEach(name, power, rulings, d, ttlMs);
    CommandEach(name, SensorsOf(w), SensorRulings(w, d), d, ttlMs);
    assert ActionsAt(m) == ActionsFor(name, power, rulings, d, ttlMs)
                           + ActionsFor(name, SensorsOf(w), SensorRulings(w, d), d, ttlMs);
  }
}
