/** The one resource cache as the edge runs it, over the lease engine and the
    power lockouts. Its clock is in whole milliseconds. */
module ResourceCache {
  import opened Wrappers
  import opened ResourcePolicy
  import opened HoldPulses
  import LeaseEngine
  import LeaseRuns
  import LeaseSessions
  import ModuleState
  import PowerState
  import Wire

  /** A command a pass leaves to be sent. */
  datatype TickAction = Lease(action: LeaseEngine.LeaseAction) | HoldDoor(pulse: HoldPulse)

  function WiredAs(w: Option<LeaseEngine.ResourceWiring>): Option<Wired> {
    match w
    case None => None
    case Some(r) => Some(Wired(r.id, r.kind, r.sessionProfile, r.strikePulseMs))
  }

  class ResourceCache {
    const wiring: ModuleState.ModuleState
    const power: PowerState.PowerState
    /** The card digest; a cache with no pepper has none to give. */
    const digest: string -> Option<string>
    var entries: seq<Entry>
    var members: seq<Member>
    var appliedAt: Option<int>
    var holdSent: map<Uuid, int>

    function View(): Policy
      reads this
    {
      Policy(entries, members, appliedAt)
    }

    ghost predicate Valid()
      reads this, wiring
    {
      wiring.Valid()
    }

    constructor (wiring: ModuleState.ModuleState, power: PowerState.PowerState, digest: string -> Option<string>)
      requires wiring.Valid()
      ensures Valid() && View() == EMPTY && holdSent == map[]
      ensures this.wiring == wiring && this.power == power && this.digest == digest
    {
      this.wiring, this.power, this.digest := wiring, power, digest;
      entries, members, appliedAt, holdSent := [], [], None, map[];
    }

    // ----- ingest -------------------------------------------------------

    method ApplyPolicy(payload: PolicyPayload)
      modifies this`entries, this`members, this`appliedAt
      ensures View() == ResourcePolicy.ApplyPolicy(old(View()), payload)
    {
      if payload.asOf.Some? {
        if appliedAt.Some? && payload.asOf.value < appliedAt.value {
          return;
        }
        appliedAt := payload.asOf;
      }
      var parsed: seq<Entry> := [];
      for i := 0 to |payload.resources|
        invariant parsed == EntriesOf(payload.resources[..i])
      {
        assert payload.resources[..i + 1][..i] == payload.resources[..i];
        var e := FromPolicy(payload.resources[i]);
        if e.Some? {
          parsed := parsed + [e.value];
        }
      }
      assert payload.resources[..|payload.resources|] == payload.resources;
      entries := parsed;
      members := MapSeq(FromPrincipal, payload.principals);
    }

    /** Keeps the other kind's entries, in their order, and adds these. */
    method ReplaceKind(kind: Kind, with: seq<Entry>)
      modifies this`entries
      ensures entries == ResourcePolicy.ReplaceKind(old(entries), kind, with)
    {
      var kept: seq<Entry> := [];
      for i := 0 to |entries|
        invariant kept == OfKind(entries[..i], OtherKind(kind))
      {
        assert entries[..i + 1][..i] == entries[..i];
        if entries[i].kind != kind {
          kept := kept + [entries[i]];
        }
      }
      assert entries[..|entries|] == entries;
      entries := kept + with;
    }

    method ApplySyncAlias(payload: SyncPayload)
      modifies this`entries, this`members
      ensures View() == ResourcePolicy.ApplySyncAlias(old(View()), payload)
    {
      ReplaceKind(ToolKind, MapSeq(FromSyncTool, payload.tools));
      members := MapSeq(FromSyncUser, payload.users);
    }

    method ApplyDoorsAlias(snapshot: DoorSnapshot)
      modifies this`entries, this`appliedAt
      ensures View() == ResourcePolicy.ApplyDoorsAlias(old(View()), snapshot)
    {
      if appliedAt.Some? && snapshot.snapshotAt < appliedAt.value {
        return;
      }
      appliedAt := Some(snapshot.snapshotAt);
      ReplaceKind(DoorKind, MapSeq(FromCompiledDoor, snapshot.doors));
    }

    // ----- reading ------------------------------------------------------

    function WiredName(name: string): Option<Wired>
      reads wiring
    {
      WiredAs(LeaseEngine.ResourceIn(wiring.View(), name))
    }

    method Resolve(name: string) returns (r: Option<Resolved>)
      ensures r == ResolvedFrom(entries, WiredName(name), name)
    {
      var wired := WiredName(name);
      r := ResolvedFrom(entries, wired, name);
    }

    /** Whether this card opens this resource, early return by early return. */
    method Decide(name: string, card: string, now: int) returns (d: ScanDecision)
      ensures d == ResourcePolicy.Decide(View(), PowerState.IsLocked(power.View(), name), WiredName(name), name,
                                         digest(card).GetOr(""), now)
    {
      var locked := power.AskLocked(name);
      if locked {
        return Deny(LOCKED_OUT);
      }
      var wired := WiredName(name);
      var token := digest(card).GetOr("");
      var entry := Find(entries, name);
      var resolved := ResolvedFrom(entries, wired, name);
      var strikeMs := if resolved.Some? then resolved.value.pulseMs else None;
      if entry.Some? {
        var e := entry.value;
        if !e.enabled {
          return Deny(DISABLED);
        }
        if token in e.deny {
          return Deny(DENIED_BY_RULE);
        }
        if e.holdUntil.Some? && now < e.holdUntil.value {
          return Allow(strikeMs);
        }
        if token in e.allow {
          return Allow(strikeMs);
        }
        if e.requiresOnline {
          return AskServer;
        }
      }
      var member := FindMember(members, token);
      if member.None? {
        return Deny(UNKNOWN_CARD);
      }
      if !member.value.isActive {
        return Deny(USER_INACTIVE);
      }
      if entry.None? || entry.value.id !in member.value.authorized {
        return Deny(NOT_AUTHORIZED);
      }
      if entry.value.status != "" && entry.value.status != "idle" {
        return Deny(UNAVAILABLE_PREFIX + entry.value.status);
      }
      return Allow(strikeMs);
    }

    // ----- sessions -----------------------------------------------------

    method OpenSession(name: string, now: int)
      requires Valid()
      modifies wiring
      ensures Valid()
      ensures wiring.View() == LeaseEngine.OpenSession(old(wiring.View()), name, now,
                                 SessionEnd(old(ResolvedFrom(entries, WiredName(name), name)), now))
    {
      var resolved := Resolve(name);
      wiring.OpenSession(name, now, SessionEnd(resolved, now));
    }

    method CloseSession(name: string, now: int)
      requires Valid()
      modifies wiring
      ensures Valid() && wiring.View() == LeaseEngine.CloseSession(old(wiring.View()), name, now)
    {
      wiring.CloseSession(name, now);
    }

    /** The server's view of its sessions, from an allow-list sync. */
    method Reconcile(payload: SyncPayload, now: int, requestedAt: Option<int>)
      requires Valid()
      modifies wiring
      ensures Valid()
      ensures wiring.View() == LeaseEngine.ReconcileTracked(old(wiring.View()), InUseIds(payload.tools),
                                 MapSeq(ToolId, payload.tools), now, requestedAt.GetOr(now))
      ensures forall t, at :: t in payload.tools ==>
                var s := wiring.View();
                var key := LeaseEngine.ToolKey(s, t.id);
                key !in s.localStops && key !in s.localSessions ==>
                  (LeaseEngine.InUse(s, key, at) <==>
                   exists u :: u in payload.tools && u.status == InUse && LeaseEngine.ToolKey(s, u.id) == key)
    {
      ghost var before := wiring.View();
      wiring.ReconcileSessions(InUseIds(payload.tools), MapSeq(ToolId, payload.tools), now, requestedAt.GetOr(now));
      forall t, at | t in payload.tools
        ensures var s := wiring.View();
                var key := LeaseEngine.ToolKey(s, t.id);
                key !in s.localStops && key !in s.localSessions ==>
                  (LeaseEngine.InUse(s, key, at) <==>
                   exists u :: u in payload.tools && u.status == InUse && LeaseEngine.ToolKey(s, u.id) == key)
      {
        SyncDecidesItsTools(before, payload.tools, t, now, requestedAt.GetOr(now), at);
      }
    }

    // ----- the loop -----------------------------------------------------

    method HoldPulsesAt(now: int, refresh: int) returns (held: seq<HoldPulse>)
      ensures held == HeldNow(entries, now, refresh, 1)
    {
      held := [];
      for i := 0 to |entries|
        invariant held == HeldNow(entries[..i], now, refresh, 1)
      {
        assert entries[..i + 1][..i] == entries[..i];
        if entries[i].enabled {
          var ms := HoldPulseMs(entries[i].holdUntil, now, refresh, 1);
          if ms.Some? {
            held := held + [HoldPulse(entries[i].id, ms.value)];
          }
        }
      }
      assert entries[..|entries|] == entries;
    }

    method SendHolds(now: int, refresh: int) returns (out: seq<HoldPulse>)
      modifies this`holdSent
      ensures Outgoing(holdSent, out) == HoldTick(old(holdSent), entries, now, refresh, 1)
    {
      var held := HoldPulsesAt(now, refresh);
      holdSent := map d | d in holdSent && (exists h :: h in held && h.door == d) :: holdSent[d];
      assert holdSent == Retain(old(holdSent), DoorsIn(held));
      out := [];
      ghost var retained := holdSent;
      for i := 0 to |held|
        invariant Outgoing(holdSent, out) == SendDue(retained, held[..i], now, refresh)
      {
        assert held[..i + 1][..i] == held[..i];
        var h := held[i];
        if h.door !in holdSent || now - holdSent[h.door] >= refresh {
          holdSent := holdSent[h.door := now];
          out := out + [h];
        }
      }
      assert held[..|held|] == held;
    }

    /** One pass: every lease the engine decides, then every hold pulse due. */
    method Tick(now: int, ttl: int, timeout: int, refresh: int) returns (out: seq<TickAction>)
      requires Valid()
      modifies this`holdSent, wiring
      ensures Valid()
      ensures var ids := LeaseRuns.WiredIds(old(wiring.snapshot));
              var leases := LeaseRuns.Sent(LeaseRuns.TicksFrom(old(wiring.View()), ids, now, ttl, timeout));
              var holds := HoldTick(old(holdSent), entries, now, refresh, 1);
              && wiring.history == old(wiring.history) + LeaseRuns.TicksFrom(old(wiring.View()), ids, now, ttl, timeout)
              && holdSent == holds.sent
              && out == MapSeq(a => Lease(a), leases) + MapSeq(p => HoldDoor(p), holds.out)
    {
      var leases := wiring.Tick(now, ttl, timeout);
      var holds := SendHolds(now, refresh);
      out := MapSeq(a => Lease(a), leases) + MapSeq(p => HoldDoor(p), holds);
    }
  }

  // ----- what a name resolves to ------------------------------------------

  /** The first strike among these with a pulse to give. */
  ghost predicate FirstStrike(modules: seq<Wire.DeviceBinding>, i: int) {
    && 0 <= i < |modules| && modules[i].role == Wire.ROLE_STRIKE && modules[i].pulseMs > 0
    && forall j :: 0 <= j < i ==> !(modules[j].role == Wire.ROLE_STRIKE && modules[j].pulseMs > 0)
  }

  lemma {:induction false} StrikePulseMeans(modules: seq<Wire.DeviceBinding>)
    ensures forall i :: FirstStrike(modules, i) ==> LeaseEngine.StrikePulse(modules) == Some(modules[i].pulseMs)
    ensures LeaseEngine.StrikePulse(modules).None? ==>
              forall b :: b in modules ==> !(b.role == Wire.ROLE_STRIKE && b.pulseMs > 0)
  {
    if |modules| > 0 && !(modules[0].role == Wire.ROLE_STRIKE && modules[0].pulseMs > 0) {
      var rest := modules[1..];
      StrikePulseMeans(rest);
      assert modules == [modules[0]] + rest;
      forall i | FirstStrike(modules, i) ensures LeaseEngine.StrikePulse(modules) == Some(modules[i].pulseMs) {
        assert rest[i - 1] == modules[i];
        assert forall j :: 0 <= j < i - 1 ==> rest[j] == modules[j + 1];
        assert FirstStrike(rest, i - 1);
      }
    }
  }

  /** What a wiring snapshot answers to. */
  ghost predicate WiringKnows(snapshot: Option<seq<Wire.Tool>>, name: string) {
    snapshot.Some? && exists t :: t in snapshot.value && (t.toolId == name || t.externalId == Some(name))
  }

  ghost predicate PolicyKnows(entries: seq<Entry>, name: string) {
    exists e :: e in entries && (e.externalId == Some(name) || e.id == name)
  }

  /** A name resolves unless neither the wiring nor the policy knows it. What the
      wiring knows is called by the wiring's id, kind and profile, whatever the policy
      holds of it; what only the policy knows, by those of its first entry so named.
      The pulse is the policy's if it has one, and the strike's otherwise. */
  lemma ResolveMeans(s: LeaseEngine.Store, entries: seq<Entry>, name: string)
    ensures LeaseEngine.Wiring(s, name).Some? <==> WiringKnows(s.snapshot, name)
    ensures var r := ResolvedFrom(entries, WiredAs(LeaseEngine.ResourceIn(s, name)), name);
            && (r.None? <==> !WiringKnows(s.snapshot, name) && !PolicyKnows(entries, name))
            && (WiringKnows(s.snapshot, name) ==>
                  var t := LeaseEngine.Wiring(s, name).value;
                  && t in s.snapshot.value
                  && r.value.id == t.toolId
                  && (r.value.kind == DoorKind <==> t.kind == DOOR)
                  && (r.value.profile == Momentary <==>
                        t.sessionProfile == "momentary" || (t.sessionProfile != "until_stopped" && t.kind == DOOR)))
            && (forall i :: FirstNamed(entries, name, i) ==>
                  var e := entries[i];
                  && (e.pulseMs.Some? ==> r.value.pulseMs == e.pulseMs)
                  && (!WiringKnows(s.snapshot, name) ==>
                        && r.value.id == e.id && r.value.kind == e.kind && r.value.pulseMs == e.pulseMs
                        && (r.value.profile == Momentary <==>
                              e.sessionProfile == "momentary"
                              || (e.sessionProfile != "until_stopped" && e.kind == DoorKind))))
            && (WiringKnows(s.snapshot, name)
                && (forall i :: FirstNamed(entries, name, i) ==> entries[i].pulseMs.None?) ==>
                  r.value.pulseMs == LeaseEngine.StrikePulse(LeaseEngine.Wiring(s, name).value.modules))
  {
    if s.snapshot.Some? {
      LeaseEngine.ResolveMeans(s.snapshot.value, name);
    }
    FindMeans(entries, name);
    SomeoneIsFirst(entries, name);
    assert |"momentary"| != |"until_stopped"|;
  }

  lemma {:induction false} SomeoneIsFirst(entries: seq<Entry>, name: string)
    ensures PolicyKnows(entries, name) ==> exists i :: FirstNamed(entries, name, i)
  {
    if |entries| > 0 {
      var rest := entries[1..];
      assert entries == [entries[0]] + rest;
      if entries[0].Named(name) {
        assert FirstNamed(entries, name, 0);
      } else if PolicyKnows(entries, name) {
        SomeoneIsFirst(rest, name);
        var i :| FirstNamed(rest, name, i);
        assert forall j :: 0 < j <= i + 1 ==> entries[j] == rest[j - 1];
        assert FirstNamed(entries, name, i + 1);
      }
    }
  }

  // ----- what a sync claims, and how long a pulse lasts ---------------------

  function ToolId(t: SyncTool): string {
    t.id
  }

  function InUseIds(tools: seq<SyncTool>): seq<string> {
    if |tools| == 0 then []
    else (if tools[0].status == InUse then [tools[0].id] else []) + InUseIds(tools[1..])
  }

  lemma {:induction false} InUseIdsMean(tools: seq<SyncTool>, id: Uuid)
    ensures id in InUseIds(tools) <==> exists t :: t in tools && t.id == id && t.status == InUse
  {
    if |tools| > 0 {
      InUseIdsMean(tools[1..], id);
      assert tools == [tools[0]] + tools[1..];
    }
  }

  lemma KeysInUse(snapshot: Option<seq<Wire.Tool>>, tools: seq<SyncTool>, key: string)
    ensures key in LeaseEngine.KeysIn(snapshot, InUseIds(tools)) <==>
            exists t :: t in tools && t.status == InUse && LeaseEngine.KeyIn(snapshot, t.id) == key
  {
  }

  lemma TrackedIds(tools: seq<SyncTool>, t: SyncTool)
    requires t in tools
    ensures t.id in MapSeq(ToolId, tools)
  {
    var i :| 0 <= i < |tools| && tools[i] == t;
    assert MapSeq(ToolId, tools)[i] == t.id;
  }

  /** After a sync is reconciled a tool it lists, with no stop remembered and no session
      of the edge's own, is in use exactly when the sync says it is in use. */
  lemma SyncDecidesItsTools(s: LeaseEngine.Store, tools: seq<SyncTool>, t: SyncTool, now: int, asOf: int, at: int)
    requires t in tools
    ensures var after := LeaseEngine.ReconcileTracked(s, InUseIds(tools), MapSeq(ToolId, tools), now, asOf);
            var key := LeaseEngine.ToolKey(after, t.id);
            key !in after.localStops && key !in after.localSessions ==>
              (LeaseEngine.InUse(after, key, at) <==>
               exists u :: u in tools && u.status == InUse && LeaseEngine.ToolKey(after, u.id) == key)
  {
    var after := LeaseEngine.ReconcileTracked(s, InUseIds(tools), MapSeq(ToolId, tools), now, asOf);
    var m := LeaseRuns.Moment(s, LeaseRuns.Reconciled(InUseIds(tools), MapSeq(ToolId, tools), asOf, now));
    var key := LeaseEngine.ToolKey(after, t.id);
    TrackedIds(tools, t);
    KeysInUse(s.snapshot, tools, key);
    if key !in after.localStops && key !in after.localSessions {
      LeaseSessions.AnswerDecidesWhatItTracks(m, key, at);
    }
  }

  /** The tools a sync is reconciled as tracking contain those it says are in use,
      so a sync too leaves every other resource alone. */
  lemma {:induction false} SyncClaimsOnlyWhatItTracks(tools: seq<SyncTool>)
    ensures forall id :: id in InUseIds(tools) ==> id in MapSeq(ToolId, tools)
  {
    if |tools| > 0 {
      SyncClaimsOnlyWhatItTracks(tools[1..]);
      assert MapSeq(ToolId, tools) == [tools[0].id] + MapSeq(ToolId, tools[1..]);
    }
  }

  /** A session on a resource that is not momentary, or that nothing knows, lasts until it
      is stopped. */
  lemma OtherSessionsLast(s: LeaseEngine.Store, entries: seq<Entry>, name: string, now: int, at: int)
    requires var r := ResolvedFrom(entries, WiredAs(LeaseEngine.ResourceIn(s, name)), name);
             r.None? || r.value.profile == UntilStopped
    ensures var r := ResolvedFrom(entries, WiredAs(LeaseEngine.ResourceIn(s, name)), name);
            var after := LeaseEngine.OpenSession(s, name, now, SessionEnd(r, now));
            LeaseEngine.InUse(after, LeaseEngine.ToolKey(after, name), at)
  {
  }

  /** A momentary session nobody else claims is in use for exactly the strike pulse. */
  lemma MomentarySessionLastsThePulse(s: LeaseEngine.Store, entries: seq<Entry>, name: string, now: int, at: int)
    requires var r := ResolvedFrom(entries, WiredAs(LeaseEngine.ResourceIn(s, name)), name);
             r.Some? && r.value.profile == Momentary
    requires LeaseEngine.ToolKey(s, name) !in s.syncedInUse
    ensures var r := ResolvedFrom(entries, WiredAs(LeaseEngine.ResourceIn(s, name)), name);
            var after := LeaseEngine.OpenSession(s, name, now, SessionEnd(r, now));
            LeaseEngine.InUse(after, LeaseEngine.ToolKey(after, name), at)
            <==> at < now + Max(r.value.pulseMs.GetOr(0), 0)
  {
  }
}
