/** The lease engine on values: what one call does to everything an edge
    remembers. The class in ModuleState is proved against these definitions; the
    theorems about whole runs are proved about them. */
module LeaseEngine {
  import opened Wrappers
  import opened Ordering
  import opened Wire

  /** The grounds of a refusal. */
  datatype Denial =
    | Gate(condition: string)
    | Latched(condition: string)
    | Tripped(condition: string)
    | Unobserved(condition: string)
    | ModuleOffline(name: string)
    | NotInUse
    | Unknown

  datatype Decision = Allow | Deny(denial: Denial)

  /** What a tick tells one device about its lease. */
  datatype LeaseAction = LeaseAction(
    toolId: string,
    deviceId: string,
    grant: bool,
    ttlMs: int,
    reason: Option<Denial>)

  datatype Session = Session(openedAt: int, endsAt: Option<int>)

  datatype Reading = Reading(asserted: bool, since: int)

  datatype RelayReport = RelayReport(on: bool, at: int)

  /** Everything the engine remembers between calls. */
  datatype Store = Store(
    snapshot: Option<seq<Tool>>,
    readings: map<(string, string), Reading>,
    latched: map<string, string>,
    leases: map<string, int>,
    moduleSeen: map<string, int>,
    localSessions: map<string, Session>,
    syncedInUse: set<string>,
    grace: int,
    localStops: map<string, int>,
    allowedSince: map<string, int>,
    relayState: map<string, RelayReport>,
    grantedSince: map<string, int>,
    runOnUntil: map<string, int>)

  const DEFAULT_GRACE_MS := 30_000

  const INITIAL: Store :=
    Store(None, map[], map[], map[], map[], map[], {}, DEFAULT_GRACE_MS, map[], map[], map[], map[], map[])

  // ----- names ----------------------------------------------------------

  function FindById(tools: seq<Tool>, name: string): Option<Tool> {
    if |tools| == 0 then None
    else if tools[0].toolId == name then Some(tools[0])
    else FindById(tools[1..], name)
  }

  function FindByExternalId(tools: seq<Tool>, name: string): Option<Tool> {
    if |tools| == 0 then None
    else if tools[0].externalId == Some(name) then Some(tools[0])
    else FindByExternalId(tools[1..], name)
  }

  /** By server id first, then by external id. */
  function Resolve(tools: seq<Tool>, name: string): Option<Tool> {
    match FindById(tools, name)
    case Some(t) => Some(t)
    case None => FindByExternalId(tools, name)
  }

  lemma {:induction false} FoundById(tools: seq<Tool>, name: string)
    ensures var r := FindById(tools, name);
            if r.Some? then r.value in tools && r.value.toolId == name
            else forall t :: t in tools ==> t.toolId != name
  {
    if |tools| > 0 && tools[0].toolId != name {
      FoundById(tools[1..], name);
      assert tools == [tools[0]] + tools[1..];
    }
  }

  lemma {:induction false} FoundByExternalId(tools: seq<Tool>, name: string)
    ensures var r := FindByExternalId(tools, name);
            if r.Some? then r.value in tools && r.value.externalId == Some(name)
            else forall t :: t in tools ==> t.externalId != Some(name)
  {
    if |tools| > 0 && tools[0].externalId != Some(name) {
      FoundByExternalId(tools[1..], name);
      assert tools == [tools[0]] + tools[1..];
    }
  }

  /** A name resolves to a tool of the snapshot with that id, or, when no tool has
      that id, to one with that external id; it resolves to nothing only when no
      tool answers to it at all. */
  lemma ResolveMeans(tools: seq<Tool>, name: string)
    ensures var r := Resolve(tools, name);
            && (r.Some? ==> r.value in tools)
            && (r.Some? <==> exists t :: t in tools && (t.toolId == name || t.externalId == Some(name)))
            && (r.Some? && r.value.toolId != name ==>
                  r.value.externalId == Some(name) && forall t :: t in tools ==> t.toolId != name)
  {
    FoundById(tools, name);
    FoundByExternalId(tools, name);
  }

  function WiringIn(snapshot: Option<seq<Tool>>, name: string): Option<Tool> {
    if snapshot.None? then None else Resolve(snapshot.value, name)
  }

  function Wiring(s: Store, name: string): Option<Tool> {
    WiringIn(s.snapshot, name)
  }

  /** The wired tool's id, or the name itself while nothing is wired to it. */
  function KeyIn(snapshot: Option<seq<Tool>>, name: string): string {
    match WiringIn(snapshot, name)
    case Some(t) => t.toolId
    case None => name
  }

  function ToolKey(s: Store, name: string): string {
    KeyIn(s.snapshot, name)
  }

  /** What the wiring says of a resource named either way. */
  datatype ResourceWiring = ResourceWiring(id: string, kind: string, sessionProfile: string, strikePulseMs: Option<int>)

  function StrikePulse(modules: seq<DeviceBinding>): Option<int> {
    if |modules| == 0 then None
    else if modules[0].role == ROLE_STRIKE && modules[0].pulseMs > 0 then Some(modules[0].pulseMs)
    else StrikePulse(modules[1..])
  }

  function ResourceIn(s: Store, name: string): Option<ResourceWiring> {
    match Wiring(s, name)
    case None => None
    case Some(w) => Some(ResourceWiring(w.toolId, w.kind, w.sessionProfile, StrikePulse(w.modules)))
  }

  // ----- the decision ---------------------------------------------------

  predicate IsHazard(condition: string) {
    condition != "flow_ok" && condition != "authorized"
  }

  /** Whether a rule's condition counts as satisfied; `None` when it has never
      been observed. */
  function Satisfied(s: Store, key: string, rule: InterlockRule, now: int): Option<bool> {
    if (key, rule.condition) !in s.readings then None
    else
      var reading := s.readings[(key, rule.condition)];
      var settled := now - reading.since >= Max(rule.debounceMs, 0);
      var effective := if settled then reading.asserted else !reading.asserted;
      Some(if IsHazard(rule.condition) then !effective else effective)
  }

  function RuleDenial(s: Store, key: string, rule: InterlockRule, now: int): Option<Denial> {
    match Satisfied(s, key, rule, now)
    case None => Some(Unobserved(rule.condition))
    case Some(true) => None
    case Some(false) =>
      Some(if rule.kind == KIND_TRIP then Tripped(rule.condition) else Gate(rule.condition))
  }

  function FirstRuleDenial(s: Store, key: string, rules: seq<InterlockRule>, now: int): Option<Denial> {
    if |rules| == 0 then None
    else
      var d := RuleDenial(s, key, rules[0], now);
      if d.Some? then d else FirstRuleDenial(s, key, rules[1..], now)
  }

  /** Silence from this binding denies, and it has been silent too long. The
      coordinator's own binding is exempt. */
  predicate IsOffline(s: Store, b: DeviceBinding, now: int, timeout: int) {
    && b.role != ROLE_EDGE
    && b.onDisconnect == ON_DISCONNECT_FAIL_OFF
    && (b.id in s.moduleSeen ==> now - s.moduleSeen[b.id] > timeout)
  }

  function FirstOffline(s: Store, modules: seq<DeviceBinding>, now: int, timeout: int): Option<string> {
    if |modules| == 0 then None
    else if IsOffline(s, modules[0], now, timeout) then Some(modules[0].name)
    else FirstOffline(s, modules[1..], now, timeout)
  }

  predicate InUse(s: Store, key: string, now: int) {
    || key in s.syncedInUse
    || (key in s.localSessions &&
        (s.localSessions[key].endsAt.Some? ==> now < s.localSessions[key].endsAt.value))
  }

  /** The decision for a tool whose wiring is known. */
  function EvaluateWired(s: Store, w: Tool, now: int, timeout: int): Decision {
    if w.toolId in s.latched then Deny(Latched(s.latched[w.toolId]))
    else
      var offline := FirstOffline(s, w.modules, now, timeout);
      if offline.Some? then Deny(ModuleOffline(offline.value))
      else
        var denial := FirstRuleDenial(s, w.toolId, w.interlocks, now);
        if denial.Some? then Deny(denial.value)
        else if !InUse(s, w.toolId, now) then Deny(NotInUse)
        else Allow
  }

  function Evaluate(s: Store, name: string, now: int, timeout: int): Decision {
    if s.snapshot.None? then Deny(Unknown)
    else
      match Wiring(s, name)
      case None => Allow
      case Some(w) => EvaluateWired(s, w, now, timeout)
  }

  // ----- leases and latches ---------------------------------------------

  predicate LatchesTrip(w: Tool, condition: string) {
    exists r :: r in w.interlocks && r.kind == KIND_TRIP && r.condition == condition && r.latch
  }

  /** The condition a decision latches, if any. */
  function LatchFor(w: Option<Tool>, d: Decision): Option<string> {
    if d.Deny? && d.denial.Tripped? && w.Some? && LatchesTrip(w.value, d.denial.condition)
    then Some(d.denial.condition)
    else None
  }

  /** A decision's mark on the tool's lease and latch. */
  function ActOn(s: Store, key: string, d: Decision, until: int, latch: Option<string>): Store {
    s.(leases := if d.Allow? then s.leases[key := until] else s.leases - {key},
       latched := if latch.Some? then s.latched[key := latch.value] else s.latched)
  }

  function Renew(s: Store, name: string, now: int, ttl: int, timeout: int): Store {
    var d := Evaluate(s, name, now, timeout);
    ActOn(s, ToolKey(s, name), d, now + ttl, LatchFor(Wiring(s, name), d))
  }

  predicate LeaseValid(s: Store, name: string, now: int) {
    var key := ToolKey(s, name);
    key in s.leases && s.leases[key] > now
  }

  // ----- sessions -------------------------------------------------------

  function OpenSession(s: Store, resource: string, now: int, endsAt: Option<int>): Store {
    var key := ToolKey(s, resource);
    s.(localStops := s.localStops - {key},
       localSessions := s.localSessions[key := Session(now, endsAt)])
  }

  function CloseSession(s: Store, resource: string, now: int): Store {
    var key := ToolKey(s, resource);
    s.(localSessions := s.localSessions - {key},
       syncedInUse := s.syncedInUse - {key},
       localStops := s.localStops[key := now])
  }

  /** A wired tool is known by its id, whichever name it is asked for by; any other
      name is its own key. */
  lemma KeyMeans(snapshot: Option<seq<Tool>>, name: string)
    ensures snapshot.None? || (forall t :: t in snapshot.value ==> t.toolId != name && t.externalId != Some(name)) ==>
              KeyIn(snapshot, name) == name
    ensures snapshot.Some? && (exists t :: t in snapshot.value && t.toolId == name) ==> KeyIn(snapshot, name) == name
    ensures snapshot.Some? && (exists t :: t in snapshot.value && t.externalId == Some(name)) ==>
              exists t :: t in snapshot.value && t.toolId == KeyIn(snapshot, name)
                          && (t.toolId == name || t.externalId == Some(name))
  {
    if snapshot.Some? {
      ResolveMeans(snapshot.value, name);
    }
  }

  function KeysIn(snapshot: Option<seq<Tool>>, names: seq<string>): set<string> {
    set n | n in names :: KeyIn(snapshot, n)
  }

  /** The stops still young enough to be weighed against an answer. */
  function RecentStops(stops: map<string, int>, grace: int, now: int): map<string, int> {
    map k | k in stops && now - stops[k] < grace :: stops[k]
  }

  /** The claims of use that stand: not those stopped after they were asked for. */
  function Believed(claimed: set<string>, stops: map<string, int>, asOf: int): set<string> {
    set k | k in claimed && !(k in stops && stops[k] > asOf)
  }

  predicate SurvivesReconcile(key: string, session: Session, believed: set<string>, tracked: set<string>,
                              grace: int, now: int)
  {
    && !(session.endsAt.Some? && now >= session.endsAt.value)
    && (key !in tracked || key in believed || now - session.openedAt < grace)
  }

  function Survivors(sessions: map<string, Session>, believed: set<string>, tracked: set<string>, grace: int, now: int)
    : map<string, Session>
  {
    map k | k in sessions && SurvivesReconcile(k, sessions[k], believed, tracked, grace, now) :: sessions[k]
  }

  /** What an answer is taken to say is in use. */
  function AnswerInUse(s: Store, inUse: seq<string>, now: int, asOf: int): set<string> {
    Believed(KeysIn(s.snapshot, inUse), RecentStops(s.localStops, s.grace, now), asOf)
  }

  function ReconcileTracked(s: Store, inUse: seq<string>, tracked: seq<string>, now: int, asOf: int): Store {
    var believed := AnswerInUse(s, inUse, now, asOf);
    var trackedKeys := KeysIn(s.snapshot, tracked);
    s.(localStops := RecentStops(s.localStops, s.grace, now),
       localSessions := Survivors(s.localSessions, believed, trackedKeys, s.grace, now),
       syncedInUse := (s.syncedInUse - trackedKeys) + believed)
  }

  predicate IsRoom(t: Tool) {
    t.kind == RESOURCE_DOOR && t.sessionProfile == PROFILE_UNTIL_STOPPED
  }

  /** The ids of the `until_stopped` doors, or of those the server says are in use. */
  function Rooms(tools: seq<Tool>, onlyInUse: bool): seq<string> {
    if |tools| == 0 then []
    else
      (if IsRoom(tools[0]) && (!onlyInUse || tools[0].inUse) then [tools[0].toolId] else [])
      + Rooms(tools[1..], onlyInUse)
  }

  /** They are the ids of those doors and of no other resource. */
  lemma {:induction false} RoomsMean(tools: seq<Tool>, onlyInUse: bool, id: string)
    ensures id in Rooms(tools, onlyInUse) <==>
            exists t :: t in tools && t.toolId == id && t.kind == "door" && t.sessionProfile == "until_stopped"
                        && (onlyInUse ==> t.inUse)
  {
    if |tools| > 0 {
      RoomsMean(tools[1..], onlyInUse, id);
      assert tools == [tools[0]] + tools[1..];
    }
  }

  function ApplyState(s: Store, tools: seq<Tool>, requestedAt: Option<int>, now: int): Store {
    ReconcileTracked(s.(snapshot := Some(tools)), Rooms(tools, true), Rooms(tools, false),
                     now, requestedAt.GetOr(now))
  }

  // ----- readings -------------------------------------------------------

  function Observe(s: Store, tool: string, condition: string, asserted: bool, now: int): Store {
    var k := (tool, condition);
    if k in s.readings && s.readings[k].asserted == asserted then s
    else s.(readings := s.readings[k := Reading(asserted, now)])
  }

  /** The bindings a device holds anywhere in the snapshot. */
  function BindingsOf(tools: seq<Tool>, deviceId: string): set<string> {
    set t, b | t in tools && b in t.modules && b.deviceId == deviceId :: b.id
  }

  /** The same bindings one by one, tool by tool. */
  function HeldIn(modules: seq<DeviceBinding>, deviceId: string): seq<string> {
    if |modules| == 0 then []
    else
      var last := modules[|modules| - 1];
      HeldIn(modules[..|modules| - 1], deviceId) + if last.deviceId == deviceId then [last.id] else []
  }

  function HeldBy(tools: seq<Tool>, deviceId: string): seq<string> {
    if |tools| == 0 then []
    else HeldBy(tools[..|tools| - 1], deviceId) + HeldIn(tools[|tools| - 1].modules, deviceId)
  }

  lemma {:induction false} HeldInMeans(modules: seq<DeviceBinding>, deviceId: string, id: string)
    ensures id in HeldIn(modules, deviceId) <==> exists b :: b in modules && b.deviceId == deviceId && b.id == id
  {
    if |modules| > 0 {
      HeldInMeans(modules[..|modules| - 1], deviceId, id);
      assert modules == modules[..|modules| - 1] + [modules[|modules| - 1]];
    }
  }

  lemma {:induction false} HeldByMeans(tools: seq<Tool>, deviceId: string, id: string)
    ensures id in HeldBy(tools, deviceId) <==> id in BindingsOf(tools, deviceId)
  {
    if |tools| > 0 {
      var rest, last := tools[..|tools| - 1], tools[|tools| - 1];
      HeldByMeans(rest, deviceId, id);
      HeldInMeans(last.modules, deviceId, id);
      assert tools == rest + [last];
      assert BindingsOf(tools, deviceId) == BindingsOf(rest, deviceId) + BindingsOf([last], deviceId);
    }
  }

  function NoteDeviceSeen(s: Store, deviceId: string, now: int): Store {
    var ids := if s.snapshot.Some? then BindingsOf(s.snapshot.value, deviceId) else {};
    s.(moduleSeen := s.moduleSeen + (map id | id in ids :: now))
  }

  // ----- one tool's share of a tick -------------------------------------

  function WithRole(modules: seq<DeviceBinding>, role: string): (r: seq<DeviceBinding>)
    ensures forall b :: b in r <==> b in modules && b.role == role
  {
    if |modules| == 0 then []
    else
      (if modules[0].role == role then [modules[0]] else []) + WithRole(modules[1..], role)
  }

  predicate ByStageThenName(a: DeviceBinding, b: DeviceBinding) {
    a.startStage < b.startStage || (a.startStage == b.startStage && NotAfter(a.name, b.name))
  }

  predicate ByName(a: DeviceBinding, b: DeviceBinding) {
    NotAfter(a.name, b.name)
  }

  function PowerOf(w: Tool): seq<DeviceBinding> {
    Sort(ByStageThenName, WithRole(w.modules, ROLE_POWER))
  }

  function SensorsOf(w: Tool): seq<DeviceBinding> {
    Sort(ByName, WithRole(w.modules, ROLE_SENSOR))
  }

  /** The time of the device's report, when that says on and is no older than `since`. */
  function ConfirmedOnAt(relays: map<string, RelayReport>, b: DeviceBinding, since: int): Option<int> {
    if b.deviceId in relays && relays[b.deviceId].on && relays[b.deviceId].at >= since
    then Some(relays[b.deviceId].at)
    else None
  }

  /** The instant a stage's delay counts from: the latest confirmation of every
      binding in a lower stage, or `None` while one of them is missing. */
  function StageBase(relays: map<string, RelayReport>, power: seq<DeviceBinding>, stage: int, since: int): Option<int> {
    if |power| == 0 then Some(since)
    else
      var last := power[|power| - 1];
      var base := StageBase(relays, power[..|power| - 1], stage, since);
      if last.startStage >= stage || base.None? then base
      else
        match ConfirmedOnAt(relays, last, since)
        case None => None
        case Some(at) => Some(Max(base.value, at))
  }

  predicate IsReady(relays: map<string, RelayReport>, power: seq<DeviceBinding>, b: DeviceBinding, since: int,
                    now: int)
  {
    var base := StageBase(relays, power, b.startStage, since);
    base.Some? && now >= base.value + Max(b.startDelayMs, 0)
  }

  /** The run-on table a denial starts: every granted binding with a run-on time
      is given that long. */
  function StartRunOn(runOn: map<string, int>, granted: map<string, int>, power: seq<DeviceBinding>, now: int)
    : map<string, int>
  {
    if |power| == 0 then runOn
    else
      var last := power[|power| - 1];
      var table := StartRunOn(runOn, granted, power[..|power| - 1], now);
      if last.runOnMs > 0 && last.id in granted then table[last.id := now + last.runOnMs] else table
  }

  /** The table a denial rules by: only the transition out of an allow starts one. */
  function RunOnTable(s: Store, w: Tool, now: int): map<string, int> {
    if w.toolId in s.allowedSince then StartRunOn(s.runOnUntil, s.grantedSince, PowerOf(w), now) else s.runOnUntil
  }

  predicate RunsOn(table: map<string, int>, b: DeviceBinding, now: int) {
    b.id in table && now < table[b.id]
  }

  /** What a tick says about one binding. */
  datatype Ruling = Granted | Refused | Withheld

  function AllowSince(s: Store, w: Tool, now: int): int {
    if w.toolId in s.allowedSince then s.allowedSince[w.toolId] else now
  }

  function PowerRuling(s: Store, w: Tool, b: DeviceBinding, d: Decision, now: int): Ruling {
    match d
    case Allow => if IsReady(s.relayState, PowerOf(w), b, AllowSince(s, w, now), now) then Granted else Withheld
    case Deny(_) => if RunsOn(RunOnTable(s, w, now), b, now) then Granted else Refused
  }

  function Emit(tool: string, b: DeviceBinding, ruling: Ruling, d: Decision, ttlMs: int): seq<LeaseAction> {
    match ruling
    case Granted => [LeaseAction(tool, b.deviceId, true, ttlMs, None)]
    case Refused => [LeaseAction(tool, b.deviceId, false, ttlMs, if d.Deny? then Some(d.denial) else None)]
    case Withheld => []
  }

  /** The ruling on every power binding of the tool, in command order. */
  function PowerRulings(s: Store, w: Tool, d: Decision, now: int): seq<Ruling> {
    var power := PowerOf(w);
    seq(|power|, i requires 0 <= i < |power| => PowerRuling(s, w, power[i], d, now))
  }

  function ActionsFor(tool: string, bindings: seq<DeviceBinding>, rulings: seq<Ruling>, d: Decision, ttlMs: int)
    : seq<LeaseAction>
    requires |bindings| == |rulings|
  {
    if |bindings| == 0 then []
    else
      var n := |bindings| - 1;
      ActionsFor(tool, bindings[..n], rulings[..n], d, ttlMs) + Emit(tool, bindings[n], rulings[n], d, ttlMs)
  }

  /** The ids of the bindings that got a ruling. */
  function RuledIds(bindings: seq<DeviceBinding>, rulings: seq<Ruling>, r: Ruling): set<string>
    requires |bindings| == |rulings|
  {
    if |bindings| == 0 then {}
    else
      var n := |bindings| - 1;
      RuledIds(bindings[..n], rulings[..n], r) + if rulings[n] == r then {bindings[n].id} else {}
  }

  function SensorRuling(d: Decision): Ruling {
    if d.Allow? then Granted else Refused
  }

  function SensorRulings(w: Tool, d: Decision): seq<Ruling> {
    seq(|SensorsOf(w)|, _ => SensorRuling(d))
  }

  function IdsOf(bindings: seq<DeviceBinding>): set<string> {
    set b | b in bindings :: b.id
  }

  /** A binding keeps the time it was first granted at. */
  function GrantAll(granted: map<string, int>, ids: set<string>, now: int): map<string, int> {
    granted + (map id | id in ids && id !in granted :: now)
  }

  /** What a tick does to the store once the decision on the tool is known. */
  function Settle(s: Store, w: Tool, d: Decision, now: int): Store {
    var power := PowerOf(w);
    match d
    case Allow =>
      var granted := RuledIds(power, PowerRulings(s, w, d, now), Granted);
      s.(allowedSince := s.allowedSince[w.toolId := AllowSince(s, w, now)],
         runOnUntil := s.runOnUntil - IdsOf(power),
         grantedSince := GrantAll(s.grantedSince, granted, now))
    case Deny(_) =>
      var refused := RuledIds(power, PowerRulings(s, w, d, now), Refused);
      s.(allowedSince := s.allowedSince - {w.toolId},
         runOnUntil := RunOnTable(s, w, now) - refused,
         grantedSince := s.grantedSince - refused)
  }

  /** Settling reads nothing a renewal writes. */
  lemma SettleIgnoresLeases(s: Store, t: Store, w: Tool, d: Decision, now: int)
    requires t == s.(leases := t.leases, latched := t.latched)
    ensures PowerRulings(t, w, d, now) == PowerRulings(s, w, d, now)
    ensures Settle(t, w, d, now) == Settle(s, w, d, now).(leases := t.leases, latched := t.latched)
  {
    var power := PowerOf(w);
    assert forall i :: 0 <= i < |power| ==> PowerRuling(t, w, power[i], d, now) == PowerRuling(s, w, power[i], d, now);
  }

  /** One tool's share of a tick: renew, which touches leases and latches only,
      then settle its bindings, which touches the other three. */
  function TickTool(s: Store, name: string, now: int, ttl: int, timeout: int): Store {
    var s1 := Renew(s, name, now, ttl, timeout);
    match Wiring(s, name)
    case None => s1
    case Some(w) =>
      var settled := Settle(s, w, Evaluate(s, name, now, timeout), now);
      s1.(allowedSince := settled.allowedSince,
          runOnUntil := settled.runOnUntil,
          grantedSince := settled.grantedSince)
  }

  /** The commands for a tool once its decision is known. */
  function ActionsOf(s: Store, name: string, d: Decision, now: int, ttl: int): seq<LeaseAction> {
    match Wiring(s, name)
    case None => []
    case Some(w) =>
      ActionsFor(name, PowerOf(w), PowerRulings(s, w, d, now), d, Max(ttl, 0))
      + ActionsFor(name, SensorsOf(w), SensorRulings(w, d), d, Max(ttl, 0))
  }

  /** What acting on a decision does to the store: nothing to a tool no longer wired. */
  function SettleTool(s: Store, name: string, d: Decision, now: int): Store {
    match Wiring(s, name)
    case None => s
    case Some(w) => Settle(s, w, d, now)
  }
}
