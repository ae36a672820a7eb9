/** Runs of the lease engine: every call anyone makes, in any order, from a
    fresh start. A moment pairs a call with the store it found; a run is a
    sequence of moments in which each store is what the call before it left.
    A settling is the part of a tick that acts on bindings, by whatever decision
    it was handed; laws proved of runs that may hold settlings carry over to ticks
    that other calls interrupt. */
module LeaseRuns {
  import opened Wrappers
  import opened Wire
  import opened LeaseEngine

  datatype Step =
    | SetGrace(grace: int, now: int)
    | Observed(tool: string, condition: string, asserted: bool, now: int)
    | Opened(resource: string, endsAt: Option<int>, now: int)
    | Closed(resource: string, now: int)
    | Reconciled(inUse: seq<string>, tracked: seq<string>, asOf: int, now: int)
    | StateApplied(tools: seq<Tool>, requestedAt: Option<int>, now: int)
    | RelayNoted(deviceId: string, on: bool, now: int)
    | ModuleNoted(moduleId: string, now: int)
    | DeviceNoted(deviceId: string, now: int)
    | LatchReset(tool: string, now: int)
    | Renewed(tool: string, ttl: int, timeout: int, now: int)
    | Ticked(tool: string, ttl: int, timeout: int, now: int)
    | Settled(tool: string, decision: Decision, ttl: int, now: int)

  function Next(s: Store, step: Step): Store {
    match step
    case SetGrace(grace, _) => s.(grace := grace)
    case Observed(tool, condition, asserted, now) => Observe(s, tool, condition, asserted, now)
    case Opened(resource, endsAt, now) => OpenSession(s, resource, now, endsAt)
    case Closed(resource, now) => CloseSession(s, resource, now)
    case Reconciled(inUse, tracked, asOf, now) => ReconcileTracked(s, inUse, tracked, now, asOf)
    case StateApplied(tools, requestedAt, now) => ApplyState(s, tools, requestedAt, now)
    case RelayNoted(deviceId, on, now) => s.(relayState := s.relayState[deviceId := RelayReport(on, now)])
    case ModuleNoted(moduleId, now) => s.(moduleSeen := s.moduleSeen[moduleId := now])
    case DeviceNoted(deviceId, now) => NoteDeviceSeen(s, deviceId, now)
    case LatchReset(tool, _) => s.(latched := s.latched - {tool})
    case Renewed(tool, ttl, timeout, now) => Renew(s, tool, now, ttl, timeout)
    case Ticked(tool, ttl, timeout, now) => TickTool(s, tool, now, ttl, timeout)
    case Settled(tool, decision, _, now) => SettleTool(s, tool, decision, now)
  }

  /** A tick, or the settling of one that decided earlier. */
  predicate Settles(step: Step) {
    step.Ticked? || step.Settled?
  }

  /** What a step leaves as it was. */
  predicate Keeps(step: Step, s: Store, t: Store) {
    && (!step.StateApplied? ==> t.snapshot == s.snapshot)
    && (!step.Observed? ==> t.readings == s.readings)
    && (!step.LatchReset? && !step.Renewed? && !step.Ticked? ==> t.latched == s.latched)
    && (!step.Renewed? && !step.Ticked? ==> t.leases == s.leases)
    && (!step.Opened? && !step.Closed? && !step.Reconciled? && !step.StateApplied? ==>
          && t.localSessions == s.localSessions
          && t.syncedInUse == s.syncedInUse
          && t.localStops == s.localStops)
    && (!step.SetGrace? ==> t.grace == s.grace)
    && (!step.ModuleNoted? && !step.DeviceNoted? ==> t.moduleSeen == s.moduleSeen)
    && (!step.RelayNoted? ==> t.relayState == s.relayState)
    && (!Settles(step) ==>
          && t.allowedSince == s.allowedSince
          && t.grantedSince == s.grantedSince
          && t.runOnUntil == s.runOnUntil)
  }

  lemma SessionStepKeeps(s: Store, step: Step)
    requires step.Opened? || step.Closed? || step.Reconciled? || step.StateApplied?
    ensures Keeps(step, s, Next(s, step))
  {
  }

  lemma NoteKeeps(s: Store, step: Step)
    requires step.SetGrace? || step.Observed? || step.RelayNoted? || step.ModuleNoted? || step.DeviceNoted?
          || step.LatchReset?
    ensures Keeps(step, s, Next(s, step))
  {
  }

  /** Which calls write which part of the store. */
  lemma WhatAStepWrites(s: Store, step: Step)
    ensures Keeps(step, s, Next(s, step))
  {
    if step.Renewed? {
      RenewWrites(s, step.tool, step.now, step.ttl, step.timeout);
    } else if step.Ticked? {
      TickWrites(s, step.tool, step.now, step.ttl, step.timeout);
    } else if step.Settled? {
      SettleWrites(s, step.tool, step.decision, step.now);
    } else if step.Opened? || step.Closed? || step.Reconciled? || step.StateApplied? {
      SessionStepKeeps(s, step);
    } else {
      NoteKeeps(s, step);
    }
  }

  lemma TripMeansUnlatched(s: Store, name: string, now: int, timeout: int)
    ensures var d := Evaluate(s, name, now, timeout);
            d.Deny? && d.denial.Tripped? ==> Wiring(s, name).Some? && ToolKey(s, name) !in s.latched
  {
  }

  /** A renewal writes its own key's lease, and at most adds its own key's latch. */
  lemma RenewWrites(s: Store, name: string, now: int, ttl: int, timeout: int)
    ensures var t, key, d := Renew(s, name, now, ttl, timeout), ToolKey(s, name), Evaluate(s, name, now, timeout);
            && t == s.(leases := t.leases, latched := t.latched)
            && t.leases == (if d.Allow? then s.leases[key := now + ttl] else s.leases - {key})
            && (t.latched == s.latched ||
                (key !in s.latched && d.Deny? && d.denial.Tripped? && t.latched
                    == s.latched[key := d.denial.condition]))
  {
  }

  lemma TickWrites(s: Store, name: string, now: int, ttl: int, timeout: int)
    ensures var t, r := TickTool(s, name, now, ttl, timeout), Renew(s, name, now, ttl, timeout);
            && t == s.(leases := r.leases, latched := r.latched, allowedSince := t.allowedSince,
                       grantedSince := t.grantedSince, runOnUntil := t.runOnUntil)
            && (Wiring(s, name).None? ==>
                  t.allowedSince == s.allowedSince && t.grantedSince == s.grantedSince && t.runOnUntil == s.runOnUntil)
            && (Wiring(s, name).Some? ==>
                  var settled := Settle(s, Wiring(s, name).value, Evaluate(s, name, now, timeout), now);
                  && t.allowedSince == settled.allowedSince
                  && t.grantedSince == settled.grantedSince
                  && t.runOnUntil == settled.runOnUntil)
  {
  }

  /** Settling writes the clocks of the sequencing and nothing else. */
  lemma SettleWrites(s: Store, name: string, d: Decision, now: int)
    ensures var t := SettleTool(s, name, d, now);
            && t == s.(allowedSince := t.allowedSince, grantedSince := t.grantedSince, runOnUntil := t.runOnUntil)
            && (Wiring(s, name).None? ==> t == s)
            && (Wiring(s, name).Some? ==> t == Settle(s, Wiring(s, name).value, d, now))
  {
    match d
    case Allow =>
    case Deny(_) =>
  }

  datatype Moment = Moment(before: Store, step: Step) {
    function After(): Store {
      Next(before, step)
    }
  }

  type History = seq<Moment>

  function Final(h: History): Store {
    if |h| == 0 then INITIAL else h[|h| - 1].After()
  }

  ghost predicate IsRun(h: History) {
    |h| == 0 ||
    (IsRun(h[..|h| - 1]) && h[|h| - 1].before == Final(h[..|h| - 1]))
  }

  /** No call's clock reading is earlier than one already taken. */
  ghost predicate Chronological(h: History) {
    forall i, j :: 0 <= i <= j < |h| ==> h[i].step.now <= h[j].step.now
  }

  /** Every settling is part of a whole tick. */
  ghost predicate WholeTicks(h: History) {
    forall j :: 0 <= j < |h| ==> !h[j].step.Settled?
  }

  lemma {:induction false} PrefixIsRun(h: History, n: nat)
    requires IsRun(h) && n <= |h|
    ensures IsRun(h[..n])
    ensures n < |h| ==> h[n].before == Final(h[..n])
    decreases |h|
  {
    if n == |h| {
      assert h[..n] == h;
    } else if n == |h| - 1 {
    } else {
      var p := h[..|h| - 1];
      PrefixIsRun(p, n);
      assert p[..n] == h[..n];
    }
  }

  /** Each call finds what the call before it left. */
  lemma RunIsAChain(h: History, j: nat)
    requires IsRun(h) && 0 < j < |h|
    ensures h[j].before == h[j - 1].After()
  {
    PrefixIsRun(h, j);
    assert h[..j][j - 1] == h[j - 1];
  }

  lemma ExtendRun(h: History, m: Moment)
    requires IsRun(h) && m.before == Final(h)
    ensures IsRun(h + [m]) && Final(h + [m]) == m.After()
    ensures WholeTicks(h) && !m.step.Settled? ==> WholeTicks(h + [m])
  {
  }

  /** The moment settles the wired tool with this id, in a tick or after one. */
  predicate TicksTool(m: Moment, key: string) {
    Settles(m.step) && Wiring(m.before, m.step.tool).Some? && Wiring(m.before, m.step.tool).value.toolId == key
  }

  function TickedTool(m: Moment): Tool
    requires Settles(m.step) && Wiring(m.before, m.step.tool).Some?
  {
    Wiring(m.before, m.step.tool).value
  }

  /** The decision a renewal or a tick came to, or a settling was handed. */
  function DecisionAt(m: Moment): Decision
    requires Settles(m.step) || m.step.Renewed?
  {
    if m.step.Settled? then m.step.decision else Evaluate(m.before, m.step.tool, m.step.now, m.step.timeout)
  }

  predicate AllowTick(m: Moment, key: string) {
    TicksTool(m, key) && DecisionAt(m).Allow?
  }

  predicate DenyTick(m: Moment, key: string) {
    TicksTool(m, key) && DecisionAt(m).Deny?
  }

  /** What a tick's moment ruled for a power binding of the ticked tool. */
  function RulingAt(m: Moment, b: DeviceBinding): Ruling
    requires Settles(m.step) && Wiring(m.before, m.step.tool).Some?
  {
    PowerRuling(m.before, TickedTool(m), b, DecisionAt(m), m.step.now)
  }

  function ActionsAt(m: Moment): seq<LeaseAction>
    requires Settles(m.step)
  {
    ActionsOf(m.before, m.step.tool, DecisionAt(m), m.step.now, m.step.ttl)
  }

  // ----- a whole tick is a run of its tools' shares ----------------------

  function TickIds(tools: seq<Tool>): (r: seq<string>)
    ensures |r| == |tools| && forall i :: 0 <= i < |tools| ==> r[i] == tools[i].toolId
  {
    if |tools| == 0 then [] else [tools[0].toolId] + TickIds(tools[1..])
  }

  /** Every tool of the wiring, in its order. */
  function WiredIds(snapshot: Option<seq<Tool>>): (r: seq<string>)
    ensures |r| == if snapshot.Some? then |snapshot.value| else 0
    ensures forall i :: 0 <= i < |r| ==> r[i] == snapshot.value[i].toolId
  {
    if snapshot.Some? then TickIds(snapshot.value) else []
  }

  /** The shares of these tools in turn, each on the store the one before it left. */
  function TicksFrom(s: Store, ids: seq<string>, now: int, ttl: int, timeout: int): (h: History)
    ensures |h| == |ids| && forall i :: 0 <= i < |ids| ==> h[i].step == Ticked(ids[i], ttl, timeout, now)
    decreases |ids|
  {
    if |ids| == 0 then []
    else
      var m := Moment(s, Ticked(ids[0], ttl, timeout, now));
      [m] + TicksFrom(m.After(), ids[1..], now, ttl, timeout)
  }

  lemma {:induction false} EachFromTheLast(s: Store, ids: seq<string>, now: int, ttl: int, timeout: int, i: nat)
    requires i < |ids|
    ensures var h := TicksFrom(s, ids, now, ttl, timeout);
            h[i].before == if i == 0 then s else h[i - 1].After()
    decreases |ids|
  {
    var m := Moment(s, Ticked(ids[0], ttl, timeout, now));
    if i > 0 {
      EachFromTheLast(m.After(), ids[1..], now, ttl, timeout, i - 1);
    }
  }

  lemma {:induction false} TicksKeepTheWiring(s: Store, ids: seq<string>, now: int, ttl: int, timeout: int, i: nat)
    requires i < |ids|
    ensures TicksFrom(s, ids, now, ttl, timeout)[i].before.snapshot == s.snapshot
    decreases |ids|
  {
    if i > 0 {
      var m := Moment(s, Ticked(ids[0], ttl, timeout, now));
      WhatAStepWrites(s, m.step);
      TicksKeepTheWiring(m.After(), ids[1..], now, ttl, timeout, i - 1);
    }
  }

  /** A pass over the wiring ticks every tool of it, and each finds itself wired. */
  lemma EveryToolIsTicked(s: Store, tools: seq<Tool>, now: int, ttl: int, timeout: int, i: nat)
    requires s.snapshot == Some(tools) && i < |tools|
    ensures var m := TicksFrom(s, WiredIds(s.snapshot), now, ttl, timeout)[i];
            && m.step == Ticked(tools[i].toolId, ttl, timeout, now)
            && Wiring(m.before, tools[i].toolId).Some? && TickedTool(m).toolId == tools[i].toolId
  {
    TicksKeepTheWiring(s, WiredIds(s.snapshot), now, ttl, timeout, i);
    ResolveMeans(tools, tools[i].toolId);
    assert tools[i] in tools;
  }

  /** What a run of ticks and settlings sends, one after the other. */
  function Sent(h: History): seq<LeaseAction>
    requires forall m :: m in h ==> Settles(m.step)
  {
    if |h| == 0 then [] else ActionsAt(h[0]) + Sent(h[1..])
  }

  ghost predicate StandsAt<T>(part: seq<T>, at: nat, whole: seq<T>) {
    at + |part| <= |whole| && whole[at..at + |part|] == part
  }

  lemma StandsAfter<T>(a: seq<T>, b: seq<T>, n: nat, part: seq<T>)
    requires StandsAt(part, n, b)
    ensures StandsAt(part, |a| + n, a + b)
  {
  }

  lemma StandsFirst<T>(a: seq<T>, b: seq<T>)
    ensures StandsAt(a, 0, a + b)
  {
  }

  /** What each of them sends stands together in it. */
  lemma {:induction false} SentInTurn(h: History, m: Moment) returns (at: nat)
    requires (forall x :: x in h ==> Settles(x.step)) && m in h
    ensures StandsAt(ActionsAt(m), at, Sent(h))
  {
    var first, rest := ActionsAt(h[0]), Sent(h[1..]);
    if m == h[0] {
      at := 0;
      StandsFirst(first, rest);
    } else {
      var n := SentInTurn(h[1..], m);
      at := |first| + n;
      StandsAfter(first, rest, n, ActionsAt(m));
    }
  }
}
