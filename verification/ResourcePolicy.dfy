/** The one resource cache on values: the policy store, the three payloads that
    feed it, and the one decision made from it. */
module ResourcePolicy {
  import opened Wrappers

  /** A UUID by its canonical text. */
  type Uuid = string

  datatype Kind = ToolKind | DoorKind

  const DOOR := "door"

  /** Only "door" names a door; every other word, a tool. */
  function ParseKind(named: string): Kind {
    if named == DOOR then DoorKind else ToolKind
  }

  /** One resource's policy as the edge holds it. */
  datatype Entry = Entry(
    id: Uuid,
    externalId: Option<string>,
    kind: Kind,
    sessionProfile: string,
    status: string,
    requiresOnline: bool,
    enabled: bool,
    pulseMs: Option<int>,
    allow: seq<string>,
    deny: seq<string>,
    holdUntil: Option<int>)
  {
    predicate Named(name: string) {
      externalId == Some(name) || id == name
    }
  }

  datatype Member = Member(digest: string, isActive: bool, authorized: seq<Uuid>)

  /** `appliedAt` is the greatest stamp that has come with doors. */
  datatype Policy = Policy(entries: seq<Entry>, members: seq<Member>, appliedAt: Option<int>)

  const EMPTY := Policy([], [], None)

  // ----- the payloads ---------------------------------------------------

  /** A resource as `resource/policy` carries it. An id that is not a UUID and a
      hold that is not an instant have been read as absent. */
  datatype WireResource = WireResource(
    id: Option<Uuid>,
    externalId: Option<string>,
    kind: string,
    sessionProfile: string,
    status: string,
    requiresOnline: bool,
    enabled: bool,
    pulseMs: Option<int>,
    allow: seq<string>,
    deny: seq<string>,
    holdUntil: Option<int>)

  datatype WirePrincipal = WirePrincipal(digest: string, isActive: bool, authorized: seq<Option<Uuid>>)

  /** `asOf` is absent when the stamp does not parse. */
  datatype PolicyPayload = PolicyPayload(asOf: Option<int>, resources: seq<WireResource>,
                                         principals: seq<WirePrincipal>)

  datatype ToolStatus = Idle | InUse | Maintenance | Broken | Repair | Retired

  datatype SyncTool = SyncTool(id: Uuid, externalId: Option<string>, status: ToolStatus, requiresOnline: bool)

  datatype SyncUser = SyncUser(digest: string, isActive: bool, authorized: seq<Uuid>)

  datatype SyncPayload = SyncPayload(tools: seq<SyncTool>, users: seq<SyncUser>)

  datatype CompiledDoor = CompiledDoor(
    id: Uuid,
    enabled: bool,
    unlockDurationMs: int,
    allowCards: seq<string>,
    denyCards: seq<string>,
    holdUnlockUntil: Option<int>)

  datatype DoorSnapshot = DoorSnapshot(snapshotAt: int, doors: seq<CompiledDoor>)

  function StatusWord(status: ToolStatus): string {
    match status
    case Idle => "idle"
    case InUse => "in_use"
    case Maintenance => "maintenance"
    case Broken => "broken"
    case Repair => "repair"
    case Retired => "retired"
  }

  function ParseStatus(word: string): ToolStatus {
    if word == "idle" then Idle
    else if word == "in_use" then InUse
    else if word == "maintenance" then Maintenance
    else if word == "broken" then Broken
    else if word == "repair" then Repair
    else Retired
  }

  function FromPolicy(r: WireResource): Option<Entry> {
    if r.id.None? then None
    else
      Some(Entry(r.id.value, r.externalId, ParseKind(r.kind), r.sessionProfile, r.status, r.requiresOnline,
                 r.enabled, r.pulseMs, r.allow, r.deny, r.holdUntil))
  }

  function FromSyncTool(t: SyncTool): Entry {
    Entry(t.id, t.externalId, ToolKind, "", StatusWord(t.status), t.requiresOnline, true, None, [], [], None)
  }

  function FromCompiledDoor(d: CompiledDoor): Entry {
    Entry(d.id, None, DoorKind, "", "", false, d.enabled, Some(d.unlockDurationMs), d.allowCards, d.denyCards,
          d.holdUnlockUntil)
  }

  function EntriesOf(resources: seq<WireResource>): seq<Entry> {
    if |resources| == 0 then []
    else
      var n := |resources| - 1;
      var e := FromPolicy(resources[n]);
      EntriesOf(resources[..n]) + if e.Some? then [e.value] else []
  }

  function Parsed(ids: seq<Option<Uuid>>): seq<Uuid> {
    if |ids| == 0 then []
    else (if ids[0].Some? then [ids[0].value] else []) + Parsed(ids[1..])
  }

  function FromPrincipal(p: WirePrincipal): Member {
    Member(p.digest, p.isActive, Parsed(p.authorized))
  }

  function FromSyncUser(u: SyncUser): Member {
    Member(u.digest, u.isActive, u.authorized)
  }

  function MapSeq<T, U>(f: T -> U, s: seq<T>): seq<U> {
    seq(|s|, i requires 0 <= i < |s| => f(s[i]))
  }

  // ----- ingest ---------------------------------------------------------

  predicate IsStale(p: Policy, stamp: int) {
    p.appliedAt.Some? && stamp < p.appliedAt.value
  }

  function OfKind(entries: seq<Entry>, kind: Kind): seq<Entry> {
    if |entries| == 0 then []
    else
      var n := |entries| - 1;
      OfKind(entries[..n], kind) + if entries[n].kind == kind then [entries[n]] else []
  }

  function OtherKind(kind: Kind): Kind {
    if kind == DoorKind then ToolKind else DoorKind
  }

  function ReplaceKind(entries: seq<Entry>, kind: Kind, with: seq<Entry>): seq<Entry> {
    OfKind(entries, OtherKind(kind)) + with
  }

  function ApplyPolicy(p: Policy, payload: PolicyPayload): Policy {
    if payload.asOf.Some? && IsStale(p, payload.asOf.value) then p
    else
      Policy(EntriesOf(payload.resources), MapSeq(FromPrincipal, payload.principals),
             if payload.asOf.Some? then payload.asOf else p.appliedAt)
  }

  function ApplySyncAlias(p: Policy, payload: SyncPayload): Policy {
    p.(entries := ReplaceKind(p.entries, ToolKind, MapSeq(FromSyncTool, payload.tools)),
       members := MapSeq(FromSyncUser, payload.users))
  }

  function ApplyDoorsAlias(p: Policy, snapshot: DoorSnapshot): Policy {
    if IsStale(p, snapshot.snapshotAt) then p
    else
      p.(entries := ReplaceKind(p.entries, DoorKind, MapSeq(FromCompiledDoor, snapshot.doors)),
         appliedAt := Some(snapshot.snapshotAt))
  }

  // ----- what an ingest leaves ------------------------------------------

  /** How many of these resources have an id that parses. */
  function Identified(resources: seq<WireResource>): nat {
    if |resources| == 0 then 0
    else Identified(resources[..|resources| - 1]) + if resources[|resources| - 1].id.Some? then 1 else 0
  }

  /** Each resource with an id is held, in its place, as it was sent; the others are left
      out. */
  lemma {:induction false} EntriesMean(resources: seq<WireResource>, i: nat)
    requires i < |resources|
    ensures |EntriesOf(resources)| == Identified(resources)
    ensures resources[i].id.Some? ==>
              var k, r := Identified(resources[..i]), resources[i];
              k < |EntriesOf(resources)| &&
              var e := EntriesOf(resources)[k];
              && e.id == r.id.value && e.externalId == r.externalId && (e.kind == DoorKind <==> r.kind == "door")
              && e.sessionProfile == r.sessionProfile && e.status == r.status
              && e.requiresOnline == r.requiresOnline && e.enabled == r.enabled && e.pulseMs == r.pulseMs
              && e.allow == r.allow && e.deny == r.deny && e.holdUntil == r.holdUntil
  {
    var n := |resources| - 1;
    if n > 0 {
      EntriesMean(resources[..n], if i < n then i else 0);
    }
    if i < n {
      assert resources[..n][..i] == resources[..i];
    }
  }

  lemma {:induction false} ParsedMeans(ids: seq<Option<Uuid>>, id: Uuid)
    ensures id in Parsed(ids) <==> Some(id) in ids
  {
    if |ids| > 0 {
      ParsedMeans(ids[1..], id);
      assert ids == [ids[0]] + ids[1..];
    }
  }

  /** What a policy leaves: nothing new if it is older than what is applied; otherwise
      exactly its resources, its principals with the ids of theirs that parse, and its
      stamp if it has one. */
  lemma ApplyPolicyMeans(p: Policy, payload: PolicyPayload)
    ensures var after := ApplyPolicy(p, payload);
            if payload.asOf.Some? && p.appliedAt.Some? && payload.asOf.value < p.appliedAt.value then after == p
            else
              && after.entries == EntriesOf(payload.resources)
              && after.appliedAt == (if payload.asOf.Some? then payload.asOf else p.appliedAt)
              && |after.members| == |payload.principals|
              && forall i :: 0 <= i < |payload.principals| ==>
                   var m, w := after.members[i], payload.principals[i];
                   && m.digest == w.digest && m.isActive == w.isActive
                   && forall id :: id in m.authorized <==> Some(id) in w.authorized
  {
    forall i, id | 0 <= i < |payload.principals|
      ensures MapSeq(FromPrincipal, payload.principals)[i] == FromPrincipal(payload.principals[i])
      ensures id in Parsed(payload.principals[i].authorized) <==> Some(id) in payload.principals[i].authorized
    {
      ParsedMeans(payload.principals[i].authorized, id);
    }
    var users := MapSeq(FromPrincipal, payload.principals);
    assert forall i :: 0 <= i < |users| ==> users[i] == FromPrincipal(payload.principals[i]);
  }

  /** The entry a synced tool is held as: its own id and names, the word for its status,
      enabled, with no lists, no pulse and no hold. */
  predicate IsSyncTool(e: Entry, t: SyncTool) {
    && e.id == t.id && e.externalId == t.externalId && e.kind == ToolKind && e.sessionProfile == ""
    && (t.status == Idle ==> e.status == "idle") && (t.status == InUse ==> e.status == "in_use")
    && (t.status == Maintenance ==> e.status == "maintenance") && (t.status == Broken ==> e.status == "broken")
    && (t.status == Repair ==> e.status == "repair") && (t.status == Retired ==> e.status == "retired")
    && e.requiresOnline == t.requiresOnline && e.enabled && e.pulseMs == None
    && e.allow == [] && e.deny == [] && e.holdUntil == None
  }

  lemma SyncToolMeans(t: SyncTool)
    ensures IsSyncTool(FromSyncTool(t), t)
  {
  }

  /** What a sync leaves: the doors as they were, then its tools, each with the word for
      its status, enabled, unlisted and unheld; and its users alone. */
  lemma ApplySyncMeans(p: Policy, payload: SyncPayload)
    ensures var after := ApplySyncAlias(p, payload);
            var doors := OfKind(p.entries, DoorKind);
            && after.appliedAt == p.appliedAt
            && |after.entries| == |doors| + |payload.tools| && after.entries[..|doors|] == doors
            && (forall i :: 0 <= i < |payload.tools| ==> IsSyncTool(after.entries[|doors| + i], payload.tools[i]))
            && |after.members| == |payload.users|
            && forall i :: 0 <= i < |payload.users| ==>
                 var m, u := after.members[i], payload.users[i];
                 m.digest == u.digest && m.isActive == u.isActive && m.authorized == u.authorized
  {
    var tools, users := MapSeq(FromSyncTool, payload.tools), MapSeq(FromSyncUser, payload.users);
    forall i | 0 <= i < |tools|
      ensures tools[i] == FromSyncTool(payload.tools[i]) && IsSyncTool(tools[i], payload.tools[i])
    {
      SyncToolMeans(payload.tools[i]);
    }
    assert forall i :: 0 <= i < |users| ==> users[i] == FromSyncUser(payload.users[i]);
  }


  /** What a door snapshot leaves: nothing new if it is older than what is applied;
      otherwise the tools as they were, then its doors as it compiled them, and its
      stamp; and the members as they were either way. */
  lemma ApplyDoorsMeans(p: Policy, snapshot: DoorSnapshot)
    ensures var after, tools := ApplyDoorsAlias(p, snapshot), OfKind(p.entries, ToolKind);
            if p.appliedAt.Some? && snapshot.snapshotAt < p.appliedAt.value then after == p
            else
              && after.members == p.members && after.appliedAt == Some(snapshot.snapshotAt)
              && |after.entries| == |tools| + |snapshot.doors| && after.entries[..|tools|] == tools
              && forall i :: 0 <= i < |snapshot.doors| ==>
                   var e, d := after.entries[|tools| + i], snapshot.doors[i];
                   && e.id == d.id && e.externalId == None && e.kind == DoorKind && e.sessionProfile == ""
                   && e.status == "" && !e.requiresOnline && e.enabled == d.enabled
                   && e.pulseMs == Some(d.unlockDurationMs) && e.allow == d.allowCards && e.deny == d.denyCards
                   && e.holdUntil == d.holdUnlockUntil
  {
    if !IsStale(p, snapshot.snapshotAt) {
      forall i | 0 <= i < |snapshot.doors|
        ensures ApplyDoorsAlias(p, snapshot).entries[|OfKind(p.entries, ToolKind)| + i]
             == FromCompiledDoor(snapshot.doors[i])
      {
      }
    }
  }

  // ----- the decision ---------------------------------------------------

  const LOCKED_OUT := "Tool is locked out (power)"
  const DISABLED := "Door is disabled"
  const DENIED_BY_RULE := "Denied by access rule"
  const UNKNOWN_CARD := "Unknown card"
  const USER_INACTIVE := "User is not active"
  const NOT_AUTHORIZED := "Card not authorized"
  const UNAVAILABLE_PREFIX := "Tool unavailable: "

  datatype ScanDecision = Allow(strikeMs: Option<int>) | Deny(reason: string) | AskServer

  function Find(entries: seq<Entry>, name: string): Option<Entry> {
    if |entries| == 0 then None
    else if entries[0].Named(name) then Some(entries[0])
    else Find(entries[1..], name)
  }

  /** The entry at `i` is the first that answers to the name. */
  ghost predicate FirstNamed(entries: seq<Entry>, name: string, i: int) {
    && 0 <= i < |entries| && (entries[i].externalId == Some(name) || entries[i].id == name)
    && forall j :: 0 <= j < i ==> entries[j].externalId != Some(name) && entries[j].id != name
  }

  lemma {:induction false} FindMeans(entries: seq<Entry>, name: string)
    ensures var r := Find(entries, name);
            if r.Some? then r.value in entries && r.value.Named(name)
            else forall e :: e in entries ==> e.externalId != Some(name) && e.id != name
    ensures forall i :: FirstNamed(entries, name, i) ==> Find(entries, name) == Some(entries[i])
  {
    if |entries| > 0 && !entries[0].Named(name) {
      var rest := entries[1..];
      FindMeans(rest, name);
      assert entries == [entries[0]] + rest;
      forall i | FirstNamed(entries, name, i) ensures Find(entries, name) == Some(entries[i]) {
        assert rest[i - 1] == entries[i];
        assert forall j :: 0 <= j < i - 1 ==> rest[j] == entries[j + 1];
        assert FirstNamed(rest, name, i - 1);
      }
    }
  }

  function FindMember(members: seq<Member>, token: string): Option<Member> {
    if |members| == 0 then None
    else if members[0].digest == token then Some(members[0])
    else FindMember(members[1..], token)
  }

  // ----- resolving a name -----------------------------------------------

  datatype SessionProfile = Momentary | UntilStopped

  /** An unknown or empty word falls back on the kind: doors end by themselves. */
  function ParseProfile(named: string, kind: Kind): SessionProfile {
    if named == "momentary" then Momentary
    else if named == "until_stopped" then UntilStopped
    else if kind == DoorKind then Momentary
    else UntilStopped
  }

  /** What the wiring knows of a resource: its id, kind, profile and strike pulse. */
  datatype Wired = Wired(id: string, kind: string, sessionProfile: string, strikePulseMs: Option<int>)

  datatype Resolved = Resolved(id: string, kind: Kind, profile: SessionProfile, pulseMs: Option<int>)

  function ResolvedFrom(entries: seq<Entry>, wired: Option<Wired>, name: string): Option<Resolved> {
    var entry := Find(entries, name);
    if wired.Some? then
      var kind := ParseKind(wired.value.kind);
      var pulse := if entry.Some? && entry.value.pulseMs.Some? then entry.value.pulseMs else wired.value.strikePulseMs;
      Some(Resolved(wired.value.id, kind, ParseProfile(wired.value.sessionProfile, kind), pulse))
    else if entry.Some? then
      Some(Resolved(entry.value.id, entry.value.kind, ParseProfile(entry.value.sessionProfile, entry.value.kind),
                    entry.value.pulseMs))
    else None
  }

  /** When a session opened on the resource ends by itself: a momentary one with
      the strike pulse, any other not at all. */
  function SessionEnd(resolved: Option<Resolved>, now: int): Option<int> {
    if resolved.Some? && resolved.value.profile == Momentary then Some(now + Max(resolved.value.pulseMs.GetOr(0), 0))
    else None
  }

  predicate IsAvailable(e: Entry) {
    e.status == "" || e.status == "idle"
  }

  predicate IsHeld(e: Entry, now: int) {
    e.holdUntil.Some? && now < e.holdUntil.value
  }

  function JudgeMember(members: seq<Member>, entry: Option<Entry>, token: string, strikeMs: Option<int>): ScanDecision {
    match FindMember(members, token)
    case None => Deny(UNKNOWN_CARD)
    case Some(m) =>
      if !m.isActive then Deny(USER_INACTIVE)
      else if entry.None? || entry.value.id !in m.authorized then Deny(NOT_AUTHORIZED)
      else if !IsAvailable(entry.value) then Deny(UNAVAILABLE_PREFIX + entry.value.status)
      else Allow(strikeMs)
  }

  /** The one decision, its arms in order. */
  function Decide(p: Policy, locked: bool, wired: Option<Wired>, name: string, token: string, now: int)
    : ScanDecision
  {
    if locked then Deny(LOCKED_OUT)
    else
      var entry := Find(p.entries, name);
      var resolved := ResolvedFrom(p.entries, wired, name);
      var strikeMs := if resolved.Some? then resolved.value.pulseMs else None;
      if entry.Some? && !entry.value.enabled then Deny(DISABLED)
      else if entry.Some? && token in entry.value.deny then Deny(DENIED_BY_RULE)
      else if entry.Some? && IsHeld(entry.value, now) then Allow(strikeMs)
      else if entry.Some? && token in entry.value.allow then Allow(strikeMs)
      else if entry.Some? && entry.value.requiresOnline then AskServer
      else JudgeMember(p.members, entry, token, strikeMs)
  }

  /** The first member with the card's digest may start the resource. */
  ghost predicate MayStart(p: Policy, e: Entry, token: string) {
    exists i :: 0 <= i < |p.members| && p.members[i].digest == token
                && (forall j :: 0 <= j < i ==> p.members[j].digest != token)
                && p.members[i].isActive && e.id in p.members[i].authorized
  }

  lemma {:induction false} FindMemberMeans(members: seq<Member>, token: string)
    ensures var m := FindMember(members, token);
            if m.Some? then exists i :: 0 <= i < |members| && members[i] == m.value && m.value.digest == token
                                        && forall j :: 0 <= j < i ==> members[j].digest != token
            else forall j :: 0 <= j < |members| ==> members[j].digest != token
  {
    if |members| > 0 && members[0].digest != token {
      FindMemberMeans(members[1..], token);
      if FindMember(members, token).Some? {
        var i :| 0 <= i < |members[1..]| && members[1..][i] == FindMember(members, token).value
                 && members[1..][i].digest == token
                 && forall j :: 0 <= j < i ==> members[1..][j].digest != token;
        assert members[i + 1] == members[1..][i];
        assert forall j :: 0 < j < i + 1 ==> members[j] == members[1..][j - 1];
      } else {
        assert forall j :: 0 < j < |members| ==> members[j] == members[1..][j - 1];
      }
    }
  }

  /** Who gets in without the server: nobody at a lockout, an unknown or a disabled
      resource or against its deny list; anybody while it is held; otherwise a card
      on its allow list or, unless the server decides it, an active member who may
      start it while it is available. */
  lemma DecideMeans(p: Policy, locked: bool, wired: Option<Wired>, name: string, token: string, now: int)
    ensures var d, found := Decide(p, locked, wired, name, token, now), Find(p.entries, name);
            && (d.Allow? <==>
                  && !locked && found.Some? && found.value.enabled && token !in found.value.deny
                  && (|| (found.value.holdUntil.Some? && now < found.value.holdUntil.value)
                      || token in found.value.allow
                      || (!found.value.requiresOnline && MayStart(p, found.value, token)
                          && (found.value.status == "" || found.value.status == "idle"))))
            && (d.AskServer? <==>
                  && !locked && found.Some? && found.value.enabled && token !in found.value.deny
                  && !(found.value.holdUntil.Some? && now < found.value.holdUntil.value)
                  && token !in found.value.allow && found.value.requiresOnline)
  {
    FindMemberMeans(p.members, token);
    var m := FindMember(p.members, token);
    var found := Find(p.entries, name);
    if found.Some? && m.Some? {
      var i :| 0 <= i < |p.members| && p.members[i] == m.value && m.value.digest == token
               && forall j :: 0 <= j < i ==> p.members[j].digest != token;
      assert MayStart(p, found.value, token) <==> m.value.isActive && found.value.id in m.value.authorized by {
        if MayStart(p, found.value, token) {
          var k :| 0 <= k < |p.members| && p.members[k].digest == token
                   && (forall j :: 0 <= j < k ==> p.members[j].digest != token)
                   && p.members[k].isActive && found.value.id in p.members[k].authorized;
          assert k == i;
        }
      }
    }
  }

  /** The member the card's digest names first. */
  ghost predicate FirstMember(p: Policy, token: string, i: int) {
    && 0 <= i < |p.members| && p.members[i].digest == token
    && forall j :: 0 <= j < i ==> p.members[j].digest != token
  }

  /** No rule of the resource's own settles it, so it is for the members' list to say. */
  ghost predicate IsForMembers(p: Policy, locked: bool, name: string, token: string, now: int) {
    var found := Find(p.entries, name);
    && !locked
    && (found.Some? ==>
          && found.value.enabled && token !in found.value.deny && token !in found.value.allow
          && !(found.value.holdUntil.Some? && now < found.value.holdUntil.value)
          && !found.value.requiresOnline)
  }

  /** Why a card is refused: the lockout before all, then the resource's own rules, and
      then what the members' list says of the card. */
  lemma RefusalsMean(p: Policy, locked: bool, wired: Option<Wired>, name: string, token: string, now: int)
    ensures var d, found := Decide(p, locked, wired, name, token, now), Find(p.entries, name);
            && (locked ==> d == Deny("Tool is locked out (power)"))
            && (!locked && found.Some? && !found.value.enabled ==> d == Deny("Door is disabled"))
            && (!locked && found.Some? && found.value.enabled && token in found.value.deny ==>
                  d == Deny("Denied by access rule"))
            && (IsForMembers(p, locked, name, token, now) ==>
                  && ((forall m :: m in p.members ==> m.digest != token) ==> d == Deny("Unknown card"))
                  && forall i :: FirstMember(p, token, i) ==>
                       var m := p.members[i];
                       && (!m.isActive ==> d == Deny("User is not active"))
                       && (m.isActive && (found.None? || found.value.id !in m.authorized) ==>
                             d == Deny("Card not authorized"))
                       && (m.isActive && found.Some? && found.value.id in m.authorized
                           && found.value.status != "" && found.value.status != "idle" ==>
                             d == Deny("Tool unavailable: " + found.value.status)))
  {
    FindMemberMeans(p.members, token);
    forall i | FirstMember(p, token, i) ensures FindMember(p.members, token) == Some(p.members[i]) {
      FirstMemberIsFound(p.members, token, i);
    }
  }

  lemma {:induction false} FirstMemberIsFound(members: seq<Member>, token: string, i: nat)
    requires i < |members| && members[i].digest == token && forall j :: 0 <= j < i ==> members[j].digest != token
    ensures FindMember(members, token) == Some(members[i])
  {
    if i > 0 {
      FirstMemberIsFound(members[1..], token, i - 1);
    }
  }

  /** A yes comes with the pulse for the strike: the policy's own if it has one, and the
      wiring's otherwise. */
  lemma AllowedStrike(p: Policy, locked: bool, wired: Option<Wired>, name: string, token: string, now: int)
    ensures var d, found := Decide(p, locked, wired, name, token, now), Find(p.entries, name);
            d.Allow? ==>
              && found.Some?
              && d.strikeMs == if found.value.pulseMs.Some? then found.value.pulseMs
                               else if wired.Some? then wired.value.strikePulseMs
                               else None
  {
  }
}
