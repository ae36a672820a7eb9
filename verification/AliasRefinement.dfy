/** The two aliases against the one shape: a policy split into the old pair of
    payloads decides every scan as the policy itself does. */
module AliasRefinement {
  import opened Wrappers
  import opened ResourcePolicy
  import opened PolicyReplay

  // ----- the pair a policy is split into --------------------------------

  function SyncToolOf(e: Entry): SyncTool {
    SyncTool(e.id, e.externalId, ParseStatus(e.status), e.requiresOnline)
  }

  function SyncUserOf(m: Member): SyncUser {
    SyncUser(m.digest, m.isActive, m.authorized)
  }

  function CompiledDoorOf(e: Entry): CompiledDoor {
    CompiledDoor(e.id, e.enabled, e.pulseMs.GetOr(0), e.allow, e.deny, e.holdUntil)
  }

  function SyncOf(payload: PolicyPayload): SyncPayload {
    SyncPayload(MapSeq(SyncToolOf, OfKind(EntriesOf(payload.resources), ToolKind)),
                MapSeq(SyncUserOf, MapSeq(FromPrincipal, payload.principals)))
  }

  function DoorsOf(payload: PolicyPayload, at: int): DoorSnapshot {
    DoorSnapshot(at, MapSeq(CompiledDoorOf, OfKind(EntriesOf(payload.resources), DoorKind)))
  }

  // ----- what the pair can carry ----------------------------------------

  predicate IsStatusWord(word: string) {
    word in {"idle", "in_use", "maintenance", "broken", "repair", "retired"}
  }

  /** A tool without lists, hold or pulse, or a door without an external id, a
      status or an online rule: what the old payloads had fields for. */
  predicate Expressible(e: Entry) {
    if e.kind.ToolKind? then
      e.enabled && e.pulseMs.None? && e.allow == [] && e.deny == [] && e.holdUntil.None? && IsStatusWord(e.status)
    else
      e.externalId.None? && e.status == "" && !e.requiresOnline && e.pulseMs.Some?
  }

  /** No name answers to two different resources. */
  ghost predicate Unambiguous(entries: seq<Entry>) {
    forall e, f, name :: e in entries && f in entries && e.Named(name) && f.Named(name) ==> e == f
  }

  /** The entry as the pair carries it: the session profile is not in either. */
  function Carried(e: Entry): Entry {
    e.(sessionProfile := "")
  }

  lemma CarriedByThePair(e: Entry)
    requires Expressible(e)
    ensures e.kind.ToolKind? ==> FromSyncTool(SyncToolOf(e)) == Carried(e)
    ensures e.kind.DoorKind? ==> FromCompiledDoor(CompiledDoorOf(e)) == Carried(e)
  {
  }

  lemma {:induction false} MembersCarried(members: seq<Member>)
    ensures MapSeq(FromSyncUser, MapSeq(SyncUserOf, members)) == members
  {
    assert forall i :: 0 <= i < |members| ==> FromSyncUser(SyncUserOf(members[i])) == members[i];
  }

  // ----- the entries carried --------------------------------------------

  /** The same resources, but for what the pair does not carry. */
  ghost predicate SameButProfile(a: seq<Entry>, b: seq<Entry>) {
    && (forall e :: e in a ==> Carried(e) in b)
    && (forall f :: f in b ==> exists e :: e in a && f == Carried(e))
  }

  lemma FindCarried(a: seq<Entry>, b: seq<Entry>, name: string)
    requires Unambiguous(a) && SameButProfile(a, b)
    ensures Find(b, name) == match Find(a, name) case None => None case Some(e) => Some(Carried(e))
  {
    FindMeans(a, name);
    FindMeans(b, name);
    if Find(a, name).Some? {
      assert Carried(Find(a, name).value).Named(name);
    }
    if Find(b, name).Some? {
      var e :| e in a && Find(b, name).value == Carried(e);
      assert e.Named(name);
    }
  }

  lemma DecideCarried(p: Policy, q: Policy, locked: bool, wired: Option<Wired>,
                      name: string, token: string, now: int)
    requires Unambiguous(p.entries) && SameButProfile(p.entries, q.entries) && p.members == q.members
    ensures Decide(q, locked, wired, name, token, now) == Decide(p, locked, wired, name, token, now)
  {
    FindCarried(p.entries, q.entries, name);
  }

  // ----- the refinement -------------------------------------------------

  lemma MapSeqMeans<T, U>(f: T -> U, s: seq<T>, y: U)
    ensures y in MapSeq(f, s) <==> exists x :: x in s && f(x) == y
  {
    if x :| x in s && f(x) == y {
      var i :| 0 <= i < |s| && s[i] == x;
      assert MapSeq(f, s)[i] == y;
    }
  }

  lemma PairCarriesTheEntries(entries: seq<Entry>)
    requires forall e :: e in entries ==> Expressible(e)
    ensures var tools := MapSeq(FromSyncTool, MapSeq(SyncToolOf, OfKind(entries, ToolKind)));
            var doors := MapSeq(FromCompiledDoor, MapSeq(CompiledDoorOf, OfKind(entries, DoorKind)));
            SameButProfile(entries, tools + doors) && SameButProfile(entries, doors + tools)
  {
    var tools := MapSeq(FromSyncTool, MapSeq(SyncToolOf, OfKind(entries, ToolKind)));
    var doors := MapSeq(FromCompiledDoor, MapSeq(CompiledDoorOf, OfKind(entries, DoorKind)));
    OfKindMeans(entries, ToolKind);
    OfKindMeans(entries, DoorKind);
    forall f ensures f in tools <==> exists e :: e in entries && e.kind.ToolKind? && f == Carried(e) {
      ToolsCarried(OfKind(entries, ToolKind), f);
    }
    forall f ensures f in doors <==> exists e :: e in entries && e.kind.DoorKind? && f == Carried(e) {
      DoorsCarried(OfKind(entries, DoorKind), f);
    }
  }

  lemma ToolsCarried(tools: seq<Entry>, f: Entry)
    requires forall e :: e in tools ==> e.kind.ToolKind? && Expressible(e)
    ensures f in MapSeq(FromSyncTool, MapSeq(SyncToolOf, tools)) <==> exists e :: e in tools && f == Carried(e)
  {
    var wire := MapSeq(SyncToolOf, tools);
    MapSeqMeans(FromSyncTool, wire, f);
    if t :| t in wire && FromSyncTool(t) == f {
      MapSeqMeans(SyncToolOf, tools, t);
      var e :| e in tools && SyncToolOf(e) == t;
      CarriedByThePair(e);
    }
    if e :| e in tools && f == Carried(e) {
      CarriedByThePair(e);
      MapSeqMeans(SyncToolOf, tools, SyncToolOf(e));
    }
  }

  lemma DoorsCarried(doors: seq<Entry>, f: Entry)
    requires forall e :: e in doors ==> e.kind.DoorKind? && Expressible(e)
    ensures f in MapSeq(FromCompiledDoor, MapSeq(CompiledDoorOf, doors)) <==> exists e :: e in doors && f == Carried(e)
  {
    var wire := MapSeq(CompiledDoorOf, doors);
    MapSeqMeans(FromCompiledDoor, wire, f);
    if d :| d in wire && FromCompiledDoor(d) == f {
      MapSeqMeans(CompiledDoorOf, doors, d);
      var e :| e in doors && CompiledDoorOf(e) == d;
      CarriedByThePair(e);
    }
    if e :| e in doors && f == Carried(e) {
      CarriedByThePair(e);
      MapSeqMeans(CompiledDoorOf, doors, CompiledDoorOf(e));
    }
  }

  /** For a policy the old payloads can carry and whose names are unambiguous, an
      empty cache fed the derived pair, in either order, decides every scan exactly
      as one fed the policy. */
  lemma PairDecidesAsThePolicy(payload: PolicyPayload, at: int, locked: bool, wired: Option<Wired>,
                               name: string, token: string, now: int)
    requires forall e :: e in EntriesOf(payload.resources) ==> Expressible(e)
    requires Unambiguous(EntriesOf(payload.resources))
    ensures var expected := Decide(ApplyPolicy(EMPTY, payload), locked, wired, name, token, now);
            var sync, doors := SyncOf(payload), DoorsOf(payload, at);
            && Decide(ApplyDoorsAlias(ApplySyncAlias(EMPTY, sync), doors), locked, wired, name, token, now)
               == expected
            && Decide(ApplySyncAlias(ApplyDoorsAlias(EMPTY, doors), sync), locked, wired, name, token, now)
               == expected
  {
    var entries := EntriesOf(payload.resources);
    var policy, sync, doors := ApplyPolicy(EMPTY, payload), SyncOf(payload), DoorsOf(payload, at);
    var toolHalf := MapSeq(FromSyncTool, sync.tools);
    var doorHalf := MapSeq(FromCompiledDoor, doors.doors);
    MembersCarried(MapSeq(FromPrincipal, payload.principals));
    PairCarriesTheEntries(entries);
    OfKindAll(toolHalf, ToolKind);
    OfKindAll(doorHalf, DoorKind);
    var toolsFirst := ApplyDoorsAlias(ApplySyncAlias(EMPTY, sync), doors);
    var doorsFirst := ApplySyncAlias(ApplyDoorsAlias(EMPTY, doors), sync);
    assert [] + toolHalf == toolHalf && [] + doorHalf == doorHalf;
    assert toolsFirst.entries == toolHalf + doorHalf;
    assert doorsFirst.entries == doorHalf + toolHalf;
    DecideCarried(policy, toolsFirst, locked, wired, name, token, now);
    DecideCarried(policy, doorsFirst, locked, wired, name, token, now);
  }
}
