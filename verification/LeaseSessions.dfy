/** Sessions against the server's answers: what an answer may undo, what it may
    not, and when two answers keep out of each other's way. */
module LeaseSessions {
  import opened Wrappers
  import opened Wire
  import opened LeaseEngine
  import opened LeaseRuns

  predicate OpensKey(m: Moment, key: string) {
    m.step.Opened? && ToolKey(m.before, m.step.resource) == key
  }

  predicate ClosesKey(m: Moment, key: string) {
    m.step.Closed? && ToolKey(m.before, m.step.resource) == key
  }

  /** A sync or a snapshot: the server's answer to what is in use. */
  predicate IsAnswer(m: Moment) {
    m.step.Reconciled? || m.step.StateApplied?
  }

  /** When the answer was asked for; a pushed snapshot is as old as its arrival. */
  function AskedAt(m: Moment): int
    requires IsAnswer(m)
  {
    if m.step.Reconciled? then m.step.asOf else m.step.requestedAt.GetOr(m.step.now)
  }

  /** The store an answer is reconciled in: a snapshot is in place already. */
  function AnsweredStore(m: Moment): Store {
    if m.step.StateApplied? then m.before.(snapshot := Some(m.step.tools)) else m.before
  }

  function ClaimedKeys(m: Moment): set<string>
    requires IsAnswer(m)
  {
    KeysIn(AnsweredStore(m).snapshot, if m.step.Reconciled? then m.step.inUse else Rooms(m.step.tools, true))
  }

  function TrackedKeys(m: Moment): set<string>
    requires IsAnswer(m)
  {
    KeysIn(AnsweredStore(m).snapshot, if m.step.Reconciled? then m.step.tracked else Rooms(m.step.tools, false))
  }

  ghost predicate NeverInUse(s: Store, key: string) {
    forall now :: !InUse(s, key, now)
  }

  /** What one answer does to one key's session state. */
  lemma AnswerOnKey(m: Moment, key: string)
    requires IsAnswer(m)
    ensures var s, t := m.before, m.After();
            var standing := key in s.localStops && m.step.now - s.localStops[key] < s.grace;
            var believed := key in ClaimedKeys(m) && !(standing && s.localStops[key] > AskedAt(m));
            && (key in t.localStops <==> standing)
            && (standing ==> t.localStops[key] == s.localStops[key])
            && (key in t.syncedInUse <==> believed || (key in s.syncedInUse && key !in TrackedKeys(m)))
            && (key in t.localSessions <==>
                  && key in s.localSessions
                  && (s.localSessions[key].endsAt.Some? ==> m.step.now < s.localSessions[key].endsAt.value)
                  && (key !in TrackedKeys(m) || believed || m.step.now - s.localSessions[key].openedAt < s.grace))
            && (key in t.localSessions ==> t.localSessions[key] == s.localSessions[key])
            && t.grace == s.grace
  {
    var s := AnsweredStore(m);
    var names := if m.step.Reconciled? then m.step.inUse else Rooms(m.step.tools, true);
    var tracked := if m.step.Reconciled? then m.step.tracked else Rooms(m.step.tools, false);
    assert m.After() == ReconcileTracked(s, names, tracked, m.step.now, AskedAt(m));
  }

  /** Opening and stopping a resource are about that resource alone: no other's session,
      claim or stop is touched. The one stopped is in use no longer, and the one opened
      until its session ends. */
  lemma SessionCallsAreOfOneResource(m: Moment, key: string, now: int)
    requires m.step.Opened? || m.step.Closed?
    ensures ToolKey(m.before, m.step.resource) != key ==>
              && (key in m.After().syncedInUse <==> key in m.before.syncedInUse)
              && (key in m.After().localSessions <==> key in m.before.localSessions)
              && (key in m.After().localSessions ==> m.After().localSessions[key] == m.before.localSessions[key])
              && (key in m.After().localStops <==> key in m.before.localStops)
              && (key in m.After().localStops ==> m.After().localStops[key] == m.before.localStops[key])
              && (InUse(m.After(), key, now) <==> InUse(m.before, key, now))
    ensures ClosesKey(m, key) ==>
              && !InUse(m.After(), key, now)
              && key in m.After().localStops && m.After().localStops[key] == m.step.now
    ensures OpensKey(m, key) ==>
              && key !in m.After().localStops
              && (key in m.After().syncedInUse <==> key in m.before.syncedInUse)
              && key in m.After().localSessions
              && m.After().localSessions[key] == Session(m.step.now, m.step.endsAt)
              && (InUse(m.After(), key, now) <==>
                  key in m.before.syncedInUse || (m.step.endsAt.Some? ==> now < m.step.endsAt.value))
  {
  }

  // ----- stops against older answers ------------------------------------

  /** The answer comes too late for the engine still to remember a stop at `stopped`,
      by the grace then in force. */
  predicate Forgets(m: Moment, stopped: int) {
    IsAnswer(m) && m.step.now - stopped >= m.before.grace
  }

  /** Some answer since `i` came that late. */
  ghost predicate ForgottenSince(h: History, i: int, stopped: int) {
    exists k :: 0 <= i < k < |h| && Forgets(h[k], stopped)
  }

  /** An answer that lists the key was asked for before the stop. */
  predicate PredatesStop(m: Moment, key: string, stopped: int) {
    IsAnswer(m) && key in ClaimedKeys(m) ==> AskedAt(m) < stopped
  }

  /** The key was stopped at `i` and has not been opened since, and no answer lists it
      but what was asked for before the stop and came while the stop was remembered. */
  ghost predicate StoppedFrom(h: History, i: int, key: string) {
    && 0 <= i < |h| && ClosesKey(h[i], key)
    && forall j :: i < j < |h| ==>
         && !OpensKey(h[j], key) && PredatesStop(h[j], key, h[i].step.now)
         && (IsAnswer(h[j]) && key in ClaimedKeys(h[j]) ==> !ForgottenSince(h[..j + 1], i, h[i].step.now))
  }

  lemma ForgottenGrows(h: History, i: int, stopped: int)
    requires |h| > 0 && 0 <= i < |h| - 1
    ensures ForgottenSince(h, i, stopped) <==>
            ForgottenSince(h[..|h| - 1], i, stopped) || Forgets(h[|h| - 1], stopped)
  {
    var p := h[..|h| - 1];
    assert forall k :: 0 <= k < |p| ==> p[k] == h[k];
  }

  lemma StoppedFromBefore(h: History, i: int, key: string)
    requires StoppedFrom(h, i, key) && i < |h| - 1
    ensures StoppedFrom(h[..|h| - 1], i, key)
  {
    var p := h[..|h| - 1];
    forall j | i < j < |p|
      ensures !OpensKey(p[j], key) && PredatesStop(p[j], key, p[i].step.now)
      ensures IsAnswer(p[j]) && key in ClaimedKeys(p[j]) ==> !ForgottenSince(p[..j + 1], i, p[i].step.now)
    {
      assert p[j] == h[j] && p[..j + 1] == h[..j + 1];
    }
  }

  ghost predicate NobodyUses(s: Store, key: string) {
    key !in s.syncedInUse && key !in s.localSessions
  }

  /** One call on a stop that stands. */
  lemma CallOnStop(m: Moment, key: string, stopped: int, forgotten: bool)
    requires !OpensKey(m, key) && PredatesStop(m, key, stopped)
    requires IsAnswer(m) && key in ClaimedKeys(m) ==> !forgotten && !Forgets(m, stopped)
    requires NobodyUses(m.before, key) && m.step.now >= stopped
    requires key in m.before.localStops ==> m.before.localStops[key] >= stopped
    requires key in m.before.localStops || forgotten
    ensures var t := m.After();
            && NobodyUses(t, key)
            && (key in t.localStops ==> t.localStops[key] >= stopped)
            && (key in t.localStops || forgotten || Forgets(m, stopped))
  {
    WhatAStepWrites(m.before, m.step);
    if IsAnswer(m) {
      AnswerOnKey(m, key);
    }
  }

  lemma {:induction false} StopStandsInStore(h: History, i: nat, key: string)
    requires IsRun(h) && Chronological(h) && StoppedFrom(h, i, key)
    ensures var s, stopped := Final(h), h[i].step.now;
            && NobodyUses(s, key)
            && (key in s.localStops ==> s.localStops[key] >= stopped)
            && (key in s.localStops || ForgottenSince(h, i, stopped))
  {
    var n := |h| - 1;
    if i < n {
      var p, m := h[..n], h[n];
      StoppedFromBefore(h, i, key);
      StopStandsInStore(p, i, key);
      ForgottenGrows(h, i, h[i].step.now);
      assert h[i].step.now <= m.step.now && h[..n + 1] == h;
      CallOnStop(m, key, h[i].step.now, ForgottenSince(p, i, h[i].step.now));
    }
  }

  /** After a stop, through any run in which the resource is not opened again and
      every answer listing it was asked for before the stop and came before any that
      was late enough for the stop to be forgotten, it is in use at no time, and a tool
      wired to it is denied; however the grace has changed. */
  lemma StopIsNotUndone(h: History, i: nat, key: string)
    requires IsRun(h) && Chronological(h) && StoppedFrom(h, i, key)
    ensures NeverInUse(Final(h), key)
    ensures forall name, now, timeout ::
              Wiring(Final(h), name).Some? && Wiring(Final(h), name).value.toolId == key
              ==> Evaluate(Final(h), name, now, timeout).Deny?
  {
    StopStandsInStore(h, i, key);
  }

  /** That stop is the last of the key. */
  ghost predicate LastStoppedAt(h: History, i: int, key: string) {
    StoppedFrom(h, i, key) && forall j :: i < j < |h| ==> !ClosesKey(h[j], key)
  }

  /** The engine remembers the last stop exactly until an answer comes that is late
      enough to forget it. */
  lemma {:induction false} StopHeldIsTheLast(h: History, i: int, key: string)
    requires IsRun(h) && LastStoppedAt(h, i, key)
    ensures key in Final(h).localStops <==> !ForgottenSince(h, i, h[i].step.now)
    ensures key in Final(h).localStops ==> Final(h).localStops[key] == h[i].step.now
  {
    var n := |h| - 1;
    if i < n {
      var p, m := h[..n], h[n];
      StoppedFromBefore(h, i, key);
      assert forall j :: i < j < n ==> p[j] == h[j];
      StopHeldIsTheLast(p, i, key);
      ForgottenGrows(h, i, h[i].step.now);
      WhatAStepWrites(m.before, m.step);
      if IsAnswer(m) {
        AnswerOnKey(m, key);
      }
    }
  }

  /** Why it takes that: after any run that leaves a stop standing, an answer asked for
      before the stop and listing the resource brings it back exactly when it, or some
      answer since the stop, was late enough for the stop to be forgotten. */
  lemma OlderAnswerReopensExactlyOnceForgotten(h: History, i: int, m: Moment, key: string)
    requires IsRun(h) && LastStoppedAt(h, i, key) && m.before == Final(h) && Chronological(h + [m])
    requires IsAnswer(m) && key in ClaimedKeys(m) && AskedAt(m) < h[i].step.now
    ensures InUse(m.After(), key, m.step.now) <==> ForgottenSince(h + [m], i, h[i].step.now)
  {
    assert forall j :: 0 <= j < |h| ==> (h + [m])[j] == h[j];
    assert (h + [m])[|h|] == m && (h + [m])[..|h|] == h;
    StopStandsInStore(h, i, key);
    StopHeldIsTheLast(h, i, key);
    ForgottenGrows(h + [m], i, h[i].step.now);
    AnswerOnKey(m, key);
  }

  /** So where the grace has not changed since the stop: exactly once it has passed. */
  lemma OlderAnswerReopensExactlyAfterGrace(h: History, i: int, m: Moment, key: string)
    requires IsRun(h) && LastStoppedAt(h, i, key) && m.before == Final(h) && Chronological(h + [m])
    requires IsAnswer(m) && key in ClaimedKeys(m) && AskedAt(m) < h[i].step.now
    requires forall j :: i < j <= |h| ==> (h + [m])[j].before.grace == m.before.grace
    ensures InUse(m.After(), key, m.step.now) <==> m.step.now >= h[i].step.now + m.before.grace
  {
    OlderAnswerReopensExactlyOnceForgotten(h, i, m, key);
    assert (h + [m])[|h|] == m;
    if ForgottenSince(h + [m], i, h[i].step.now) {
      var k :| i < k < |h + [m]| && Forgets((h + [m])[k], h[i].step.now);
      assert (h + [m])[k].step.now <= (h + [m])[|h|].step.now;
    }
    assert Forgets(m, h[i].step.now) ==> ForgottenSince(h + [m], i, h[i].step.now);
  }

  /** A history in which one does: used from 0, stopped at 10, and back in use at
      30 010 by an answer asked for at 5. */
  lemma AStopForgotten() returns (h: History, m: Moment)
    ensures IsRun(h) && |h| == 2 && m.before == Final(h) && Chronological(h + [m])
    ensures LastStoppedAt(h, 1, "k") && NeverInUse(Final(h), "k")
    ensures IsAnswer(m) && "k" in ClaimedKeys(m) && AskedAt(m) < h[1].step.now
    ensures InUse(m.After(), "k", m.step.now)
  {
    var m0 := Moment(INITIAL, Opened("k", None, 0));
    var m1 := Moment(m0.After(), Closed("k", 10));
    ExtendRun([], m0);
    ExtendRun([] + [m0], m1);
    h := [] + [m0] + [m1];
    m := Moment(Final(h), Reconciled(["k"], ["k"], 5, 30_010));
    assert Forgets((h + [m])[2], 10);
    OlderAnswerReopensExactlyOnceForgotten(h, 1, m, "k");
  }

  // ----- swipes against answers -----------------------------------------

  /** A session opened at a swipe outlives every answer that arrives inside its
      grace and before its own end. */
  lemma {:induction false} SwipeIsNotUndone(h: History, i: nat, key: string)
    requires IsRun(h) && i < |h| && OpensKey(h[i], key)
    requires forall j :: i < j < |h| ==>
               && !OpensKey(h[j], key) && !ClosesKey(h[j], key) && !h[j].step.SetGrace?
               && (IsAnswer(h[j]) ==>
                     && h[j].step.now - h[i].step.now < h[i].before.grace
                     && (h[i].step.endsAt.Some? ==> h[j].step.now < h[i].step.endsAt.value))
    ensures key in Final(h).localSessions
    ensures Final(h).localSessions[key] == Session(h[i].step.now, h[i].step.endsAt)
    ensures Final(h).grace == h[i].before.grace
    ensures forall now :: (h[i].step.endsAt.Some? ==> now < h[i].step.endsAt.value) ==> InUse(Final(h), key, now)
  {
    var n := |h| - 1;
    if i < n {
      var p, m := h[..n], h[n];
      SwipeIsNotUndone(p, i, key);
      assert m.before == Final(p);
      WhatAStepWrites(m.before, m.step);
      if IsAnswer(m) {
        AnswerOnKey(m, key);
      }
    }
  }

  // ----- answers keep to what they track --------------------------------

  /** A resource an answer does not track is put in use by a claim or left as it was;
      so one that claims only what it tracks leaves every other resource alone. */
  lemma AnswerLeavesUntrackedAlone(m: Moment, key: string, now: int)
    requires IsAnswer(m) && key !in TrackedKeys(m) && now >= m.step.now
    ensures key !in ClaimedKeys(m) ==> (InUse(m.After(), key, now) <==> InUse(m.before, key, now))
    ensures InUse(m.before, key, now) ==> InUse(m.After(), key, now)
  {
  }

  lemma {:induction false} RoomsInUseAreRooms(tools: seq<Tool>)
    ensures forall id :: id in Rooms(tools, true) ==> id in Rooms(tools, false)
  {
    if |tools| > 0 {
      RoomsInUseAreRooms(tools[1..]);
    }
  }

  /** A wiring snapshot claims only rooms it tracks, so it never disturbs what it
      does not track, tools above all. */
  lemma SnapshotClaimsOnlyWhatItTracks(m: Moment)
    requires m.step.StateApplied?
    ensures ClaimedKeys(m) <= TrackedKeys(m)
  {
    RoomsInUseAreRooms(m.step.tools);
  }

  /** Where no stop is remembered and no session of the edge's own stands, a resource an
      answer tracks is in use exactly when the answer says so. */
  lemma AnswerDecidesWhatItTracks(m: Moment, key: string, at: int)
    requires IsAnswer(m) && key in TrackedKeys(m)
    requires key !in m.After().localStops && key !in m.After().localSessions
    ensures InUse(m.After(), key, at) <==> key in ClaimedKeys(m)
  {
  }

  /** So a wiring snapshot decides for its `until_stopped` doors, and leaves its tools
      and its other doors to other answers. */
  lemma SnapshotDecidesItsRooms(m: Moment, id: string, at: int)
    requires m.step.StateApplied? && id !in m.After().localStops && id !in m.After().localSessions
    requires exists t :: t in m.step.tools && t.toolId == id
    ensures (exists t :: t in m.step.tools && t.toolId == id && t.kind == "door"
                         && t.sessionProfile == "until_stopped") ==>
              (InUse(m.After(), id, at) <==>
               exists t :: t in m.step.tools && t.toolId == id && t.kind == "door"
                           && t.sessionProfile == "until_stopped" && t.inUse)
    ensures !(exists t :: t in m.step.tools && t.toolId == id && t.kind == "door"
                          && t.sessionProfile == "until_stopped") ==>
              (id in m.After().syncedInUse <==> id in m.before.syncedInUse)
  {
    RoomsAreTheirKeys(m.step.tools, id, false);
    RoomsAreTheirKeys(m.step.tools, id, true);
    RoomsMean(m.step.tools, false, id);
    RoomsMean(m.step.tools, true, id);
    AnswerOnKey(m, id);
  }

  lemma RoomsAreTheirKeys(tools: seq<Tool>, id: string, onlyInUse: bool)
    ensures id in KeysIn(Some(tools), Rooms(tools, onlyInUse)) <==> id in Rooms(tools, onlyInUse)
  {
    forall n | n in Rooms(tools, onlyInUse) ensures KeyIn(Some(tools), n) == n {
      RoomsMean(tools, onlyInUse, n);
      KeyMeans(Some(tools), n);
    }
  }

  /** Two answers reconciled at one instant over disjoint tracked sets, each
      claiming only what it tracks, leave the same store in either order. */
  lemma DisjointAnswersCommute(s: Store, inUse1: seq<string>, tracked1: seq<string>, asOf1: int,
                               inUse2: seq<string>, tracked2: seq<string>, asOf2: int, now: int)
    requires KeysIn(s.snapshot, inUse1) <= KeysIn(s.snapshot, tracked1)
    requires KeysIn(s.snapshot, inUse2) <= KeysIn(s.snapshot, tracked2)
    requires KeysIn(s.snapshot, tracked1) !! KeysIn(s.snapshot, tracked2)
    ensures ReconcileTracked(ReconcileTracked(s, inUse1, tracked1, now, asOf1), inUse2, tracked2, now, asOf2)
         == ReconcileTracked(ReconcileTracked(s, inUse2, tracked2, now, asOf2), inUse1, tracked1, now, asOf1)
  {
    var a, b := ReconcileTracked(s, inUse1, tracked1, now, asOf1), ReconcileTracked(s, inUse2, tracked2, now, asOf2);
    var ab := ReconcileTracked(a, inUse2, tracked2, now, asOf2);
    var ba := ReconcileTracked(b, inUse1, tracked1, now, asOf1);
    var stops := RecentStops(s.localStops, s.grace, now);
    assert RecentStops(stops, s.grace, now) == stops;
    var k1, k2 := KeysIn(s.snapshot, tracked1), KeysIn(s.snapshot, tracked2);
    var u1, u2 := Believed(KeysIn(s.snapshot, inUse1), stops, asOf1), Believed(KeysIn(s.snapshot, inUse2), stops,
        asOf2);
    SessionsCommute(s.localSessions, u1, k1, u2, k2, s.grace, now);
    assert ab.syncedInUse == (((s.syncedInUse - k1) + u1) - k2) + u2;
    assert ba.syncedInUse == (((s.syncedInUse - k2) + u2) - k1) + u1;
    assert ab.syncedInUse == ba.syncedInUse;
  }

  lemma SessionsCommute(sessions: map<string, Session>, u1: set<string>, k1: set<string>,
                        u2: set<string>, k2: set<string>, grace: int, now: int)
    ensures Survivors(Survivors(sessions, u1, k1, grace, now), u2, k2, grace, now)
         == Survivors(Survivors(sessions, u2, k2, grace, now), u1, k1, grace, now)
  {
  }
}
