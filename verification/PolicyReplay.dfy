/** Which payload the doors follow when payloads are delayed, repeated or reordered. */
module PolicyReplay {
  import opened Wrappers
  import opened ResourcePolicy

  datatype Ingest =
    | PolicyArrived(policy: PolicyPayload)
    | SyncArrived(sync: SyncPayload)
    | DoorsArrived(doors: DoorSnapshot)

  function Arrive(p: Policy, x: Ingest): Policy {
    match x
    case PolicyArrived(payload) => ApplyPolicy(p, payload)
    case SyncArrived(payload) => ApplySyncAlias(p, payload)
    case DoorsArrived(snapshot) => ApplyDoorsAlias(p, snapshot)
  }

  function Arrivals(xs: seq<Ingest>): Policy {
    if |xs| == 0 then EMPTY else Arrive(Arrivals(xs[..|xs| - 1]), xs[|xs| - 1])
  }

  function DoorHalf(p: Policy): seq<Entry> {
    OfKind(p.entries, DoorKind)
  }

  predicate BearsDoors(x: Ingest) {
    !x.SyncArrived?
  }

  /** The stamp of a door-bearing payload, if it carries one that parses. */
  function StampOf(x: Ingest): Option<int> {
    match x
    case PolicyArrived(payload) => payload.asOf
    case SyncArrived(_) => None
    case DoorsArrived(snapshot) => Some(snapshot.snapshotAt)
  }

  /** The stamp parses, on a payload that must carry one. */
  predicate Stamped(x: Ingest) {
    BearsDoors(x) ==> StampOf(x).Some?
  }

  function DoorsBorne(x: Ingest): seq<Entry>
    requires BearsDoors(x)
  {
    if x.PolicyArrived? then OfKind(EntriesOf(x.policy.resources), DoorKind)
    else MapSeq(FromCompiledDoor, x.doors.doors)
  }

  // ----- halves of the store --------------------------------------------

  lemma {:induction false} OfKindConcat(a: seq<Entry>, b: seq<Entry>, kind: Kind)
    ensures OfKind(a + b, kind) == OfKind(a, kind) + OfKind(b, kind)
  {
    if |b| == 0 {
      assert a + b == a;
    } else {
      var n := |b| - 1;
      OfKindConcat(a, b[..n], kind);
      assert (a + b)[..|a| + n] == a + b[..n] && (a + b)[|a| + n] == b[n];
      assert OfKind(b, kind) == OfKind(b[..n], kind) + if b[n].kind == kind then [b[n]] else [];
    }
  }

  lemma OfKindSnoc(rest: seq<Entry>, last: Entry, kind: Kind)
    ensures OfKind(rest + [last], kind) == if last.kind == kind then OfKind(rest, kind) + [last] else OfKind(rest, kind)
  {
    assert (rest + [last])[..|rest|] == rest;
    assert OfKind(rest, kind) + [] == OfKind(rest, kind);
  }

  lemma {:induction false} OfKindAll(entries: seq<Entry>, kind: Kind)
    requires forall e :: e in entries ==> e.kind == kind
    ensures OfKind(entries, kind) == entries
    ensures OfKind(entries, OtherKind(kind)) == []
  {
    if |entries| > 0 {
      var rest, last := entries[..|entries| - 1], entries[|entries| - 1];
      assert last in entries;
      OfKindAll(rest, kind);
      OfKindSnoc(rest, last, kind);
      OfKindSnoc(rest, last, OtherKind(kind));
      assert entries == rest + [last];
    }
  }

  lemma {:induction false} OfKindMeans(entries: seq<Entry>, kind: Kind)
    ensures forall e :: e in OfKind(entries, kind) <==> e in entries && e.kind == kind
  {
    if |entries| > 0 {
      var n := |entries| - 1;
      OfKindMeans(entries[..n], kind);
      assert entries == entries[..n] + [entries[n]];
    }
  }

  /** What replacing one kind leaves: the new entries of that kind, the old of the other. */
  lemma ReplaceKindHalves(entries: seq<Entry>, kind: Kind, with: seq<Entry>)
    requires forall e :: e in with ==> e.kind == kind
    ensures OfKind(ReplaceKind(entries, kind, with), kind) == with
    ensures OfKind(ReplaceKind(entries, kind, with), OtherKind(kind)) == OfKind(entries, OtherKind(kind))
  {
    var kept := OfKind(entries, OtherKind(kind));
    OfKindMeans(entries, OtherKind(kind));
    OfKindAll(kept, OtherKind(kind));
    OfKindAll(with, kind);
    OfKindConcat(kept, with, kind);
    OfKindConcat(kept, with, OtherKind(kind));
    assert OtherKind(OtherKind(kind)) == kind;
  }

  /** What one arrival does to the door half: a payload that bears doors replaces
      them unless its stamp is older than the one remembered, and is remembered by
      its own stamp when it has one. */
  lemma ArrivalOnDoors(p: Policy, x: Ingest)
    ensures var q := Arrive(p, x);
            if BearsDoors(x) && !(StampOf(x).Some? && IsStale(p, StampOf(x).value))
            then DoorHalf(q) == DoorsBorne(x) && q.appliedAt == (if StampOf(x).Some? then StampOf(x) else p.appliedAt)
            else DoorHalf(q) == DoorHalf(p) && q.appliedAt == p.appliedAt
  {
    match x
    case PolicyArrived(_) =>
    case SyncArrived(payload) =>
      ReplaceKindHalves(p.entries, ToolKind, MapSeq(FromSyncTool, payload.tools));
    case DoorsArrived(snapshot) =>
      ReplaceKindHalves(p.entries, DoorKind, MapSeq(FromCompiledDoor, snapshot.doors));
  }

  // ----- which arrivals land ----------------------------------------------

  /** No stamp among the first `n` arrivals is greater than this one. */
  ghost predicate NoneNewer(xs: seq<Ingest>, n: int, stamp: int) {
    forall j :: 0 <= j < n <= |xs| && StampOf(xs[j]).Some? ==> StampOf(xs[j]).value <= stamp
  }

  /** The arrival bears doors, and has no stamp or none greater came before it. */
  ghost predicate Lands(xs: seq<Ingest>, i: int) {
    && 0 <= i < |xs| && BearsDoors(xs[i])
    && (StampOf(xs[i]).Some? ==> NoneNewer(xs, i, StampOf(xs[i]).value))
  }

  ghost predicate LastToLand(xs: seq<Ingest>, i: int) {
    Lands(xs, i) && forall j :: i < j < |xs| ==> !Lands(xs, j)
  }

  ghost predicate GreatestStamp(xs: seq<Ingest>, stamp: Option<int>) {
    if stamp.None? then forall x :: x in xs ==> StampOf(x).None?
    else (exists x :: x in xs && StampOf(x) == stamp) && NoneNewer(xs, |xs|, stamp.value)
  }

  /** The doors are those of the arrival at `i`; a negative `i` says none bore any. */
  ghost predicate DoorsAreFrom(xs: seq<Ingest>, p: Policy, i: int) {
    if i < 0 then (forall x :: x in xs ==> !BearsDoors(x)) && DoorHalf(p) == []
    else LastToLand(xs, i) && DoorHalf(p) == DoorsBorne(xs[i])
  }

  lemma LandsAtTheEnd(xs: seq<Ingest>, x: Ingest, p: Policy)
    requires GreatestStamp(xs, p.appliedAt)
    ensures Lands(xs + [x], |xs|) <==> BearsDoors(x) && !(StampOf(x).Some? && IsStale(p, StampOf(x).value))
    ensures forall i :: 0 <= i < |xs| ==> (Lands(xs + [x], i) <==> Lands(xs, i))
  {
    var ys := xs + [x];
    assert ys[|xs|] == x && forall j :: 0 <= j < |xs| ==> ys[j] == xs[j];
    forall i | 0 <= i < |xs| ensures Lands(ys, i) <==> Lands(xs, i) {
      if StampOf(xs[i]).Some? {
        assert NoneNewer(ys, i, StampOf(xs[i]).value) <==> NoneNewer(xs, i, StampOf(xs[i]).value);
      }
    }
    if StampOf(x).Some? {
      assert NoneNewer(ys, |xs|, StampOf(x).value) <==> NoneNewer(xs, |xs|, StampOf(x).value);
    }
  }

  /** After any arrivals at all, the doors are those of the last to land, and the
      stamp remembered is the greatest that has arrived; where no payload bore
      doors there are none. */
  lemma {:induction false} DoorsFollowTheLastToLand(xs: seq<Ingest>) returns (i: int)
    ensures DoorsAreFrom(xs, Arrivals(xs), i)
    ensures GreatestStamp(xs, Arrivals(xs).appliedAt)
  {
    i := -1;
    if |xs| > 0 {
      var n := |xs| - 1;
      var before, x := xs[..n], xs[n];
      assert xs == before + [x];
      i := DoorsFollowTheLastToLand(before);
      ArrivalOnDoors(Arrivals(before), x);
      LandsAtTheEnd(before, x, Arrivals(before));
      if Lands(xs, n) {
        i := n;
      }
      StampGrows(before, x, Arrivals(before).appliedAt, Arrivals(xs).appliedAt);
    }
  }

  /** So a policy whose stamp does not parse replaces the doors whatever came before
      it, and leaves the greatest stamp in place. */
  lemma UnstampedPolicyAlwaysLands(xs: seq<Ingest>, payload: PolicyPayload)
    requires payload.asOf.None?
    ensures var p := Arrivals(xs + [PolicyArrived(payload)]);
            && DoorHalf(p) == OfKind(EntriesOf(payload.resources), DoorKind)
            && p.appliedAt == Arrivals(xs).appliedAt
  {
    assert (xs + [PolicyArrived(payload)])[..|xs|] == xs;
    ArrivalOnDoors(Arrivals(xs), PolicyArrived(payload));
  }

  lemma StampGrows(xs: seq<Ingest>, x: Ingest, before: Option<int>, after: Option<int>)
    requires GreatestStamp(xs, before)
    requires after == if StampOf(x).Some? && !(before.Some? && StampOf(x).value < before.value) then StampOf(x)
         else before
    ensures GreatestStamp(xs + [x], after)
  {
    var ys := xs + [x];
    assert ys[|xs|] == x && forall j :: 0 <= j < |xs| ==> ys[j] == xs[j];
    if after.Some? {
      if after == StampOf(x) {
        assert x in ys;
      } else {
        var y :| y in xs && StampOf(y) == before;
        assert y in ys;
      }
    }
  }

  // ----- the last of the newest -------------------------------------------

  /** The last-arrived payload among those with the greatest stamp. */
  ghost predicate LastOfNewest(xs: seq<Ingest>, i: int) {
    && 0 <= i < |xs| && StampOf(xs[i]).Some? && NoneNewer(xs, |xs|, StampOf(xs[i]).value)
    && (forall j :: i < j < |xs| && StampOf(xs[j]).Some? ==> StampOf(xs[j]).value < StampOf(xs[i]).value)
  }

  /** Of the payloads whose stamps parse, the newest is the last of all to land exactly
      when no policy whose stamp does not parse arrived after it. */
  lemma NewestIsLastToLand(xs: seq<Ingest>, i: int)
    requires LastOfNewest(xs, i)
    ensures LastToLand(xs, i) <==> forall j :: i < j < |xs| ==> Stamped(xs[j])
  {
    var stamp := StampOf(xs[i]).value;
    assert Lands(xs, i);
    forall j | i < j < |xs| ensures Lands(xs, j) <==> !Stamped(xs[j]) {
      if StampOf(xs[j]).Some? {
        assert !NoneNewer(xs, j, StampOf(xs[j]).value);
      }
    }
  }

  lemma {:induction false} SomeLastOfNewest(xs: seq<Ingest>) returns (i: int)
    requires exists x :: x in xs && StampOf(x).Some?
    ensures LastOfNewest(xs, i)
  {
    var n := |xs| - 1;
    var before, x := xs[..n], xs[n];
    assert xs == before + [x];
    if exists y :: y in before && StampOf(y).Some? {
      i := SomeLastOfNewest(before);
      assert forall j :: 0 <= j < n ==> before[j] == xs[j];
      if StampOf(x).Some? && StampOf(x).value >= StampOf(xs[i]).value {
        i := n;
      }
    } else {
      i := n;
      assert forall j :: 0 <= j < n ==> xs[j] in before;
    }
  }

  /** After any arrivals whose stamps parse, the doors are those of the newest payload,
      the last of them to arrive, and its stamp is remembered; with no
      door-bearing payload there are no doors. */
  lemma DoorsFollowTheNewest(xs: seq<Ingest>) returns (i: int)
    requires forall x :: x in xs ==> Stamped(x)
    ensures var p := Arrivals(xs);
            if i < 0 then (forall x :: x in xs ==> !BearsDoors(x)) && DoorHalf(p) == [] && p.appliedAt == None
            else LastOfNewest(xs, i) && DoorHalf(p) == DoorsBorne(xs[i]) && p.appliedAt == StampOf(xs[i])
  {
    var k := DoorsFollowTheLastToLand(xs);
    i := -1;
    if exists x :: x in xs && StampOf(x).Some? {
      i := SomeLastOfNewest(xs);
      NewestIsLastToLand(xs, i);
      assert k == i;
    }
  }

  /** With distinct stamps, any two histories of arrivals that carry the same
      door-bearing payloads, in any order and with any repetition, end with the
      same doors and the same stamp. */
  lemma DoorsConverge(xs: seq<Ingest>, ys: seq<Ingest>)
    requires (forall x :: x in xs ==> Stamped(x)) && (forall y :: y in ys ==> Stamped(y))
    requires forall x :: BearsDoors(x) ==> (x in xs <==> x in ys)
    requires forall x, y :: x in xs && y in xs && BearsDoors(x) && BearsDoors(y) && StampOf(x) == StampOf(y) ==> x == y
    ensures DoorHalf(Arrivals(xs)) == DoorHalf(Arrivals(ys))
    ensures Arrivals(xs).appliedAt == Arrivals(ys).appliedAt
  {
    var i := DoorsFollowTheNewest(xs);
    var j := DoorsFollowTheNewest(ys);
    assert forall y :: y in ys && BearsDoors(y) ==> y in xs;
    if i >= 0 {
      assert xs[i] in ys;
      assert j >= 0 && ys[j] in xs;
      SameNewest(xs, ys, i, j);
    }
  }

  lemma SameNewest(xs: seq<Ingest>, ys: seq<Ingest>, i: int, j: int)
    requires LastOfNewest(xs, i) && LastOfNewest(ys, j) && xs[i] in ys && ys[j] in xs
    requires forall x, y :: x in xs && y in xs && BearsDoors(x) && BearsDoors(y) && StampOf(x) == StampOf(y) ==> x == y
    ensures xs[i] == ys[j]
  {
    var k :| 0 <= k < |xs| && xs[k] == ys[j];
    var l :| 0 <= l < |ys| && ys[l] == xs[i];
    assert StampOf(xs[i]) == StampOf(ys[j]);
  }
}
