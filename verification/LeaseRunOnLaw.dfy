/** The exact law of run-on: which bindings a denial grants, and when a binding is
    granted run-on though the allow before it never granted it. */
module LeaseRunOnLaw {
  import opened Wrappers
  import opened Wire
  import opened LeaseEngine
  import opened LeaseRuns
  import opened LeaseSequencing
  import opened LeaseRunOn

  // ----- who is still granted ---------------------------------------------

  /** The binding was granted by some allow and has not been refused since. */
  ghost predicate Kept(h: History, key: string, id: string) {
    exists g :: GrantedUnrefused(h, g, key, id)
  }

  /** The tool stands denied, and `d` is its first denial after the last allow. */
  ghost predicate StoppedFrom(h: History, d: int, key: string) {
    exists a :: StoppedAt(h, a, d, key)
  }

  lemma KeptStep(p: History, m: Moment, key: string, id: string)
    ensures Kept(p + [m], key, id) <==>
            || (AllowTick(m, key) && RulingOf(m, id) == Granted)
            || (Kept(p, key, id) && (TicksTool(m, key) ==> RulingOf(m, id) != Refused))
  {
    var h := p + [m];
    assert h[|p|] == m && forall j :: 0 <= j < |p| ==> h[j] == p[j];
    if Kept(h, key, id) {
      var g :| GrantedUnrefused(h, g, key, id);
      if g < |p| {
        assert GrantedUnrefused(p, g, key, id);
      }
    }
    if AllowTick(m, key) && RulingOf(m, id) == Granted {
      assert GrantedUnrefused(h, |p|, key, id);
    } else if Kept(p, key, id) && (TicksTool(m, key) ==> RulingOf(m, id) != Refused) {
      var g :| GrantedUnrefused(p, g, key, id);
      GrantedUnrefusedGrows(p, m, g, key, id);
    }
  }

  lemma LastAllowIsOpen(p: History, a: int, key: string)
    requires IsRun(p) && 0 <= a < |p| && AllowTick(p[a], key)
    requires forall j :: a < j < |p| ==> !TicksTool(p[j], key)
    ensures key in Final(p).allowedSince
  {
    assert UnbrokenFrom(p, a, key);
    NoneUnbrokenWithoutARun(p, a, key);
    AllowedSinceBeginsTheRun(p, key);
  }

  /** The first denial of a standing stop is the last step only when that step ends
      a run of allows. */
  lemma StoppedNow(p: History, m: Moment, key: string)
    requires IsRun(p) && m.before == Final(p) && StoppedFrom(p + [m], |p|, key)
    ensures DenyTick(m, key) && key in m.before.allowedSince
  {
    var h := p + [m];
    var a :| StoppedAt(h, a, |p|, key);
    assert h[|p|] == m && h[a] == p[a];
    forall j | a < j < |p| ensures !TicksTool(p[j], key) {
      assert h[j] == p[j];
    }
    LastAllowIsOpen(p, a, key);
  }

  lemma StoppedEarlier(p: History, m: Moment, d: int, key: string)
    requires d < |p| && StoppedFrom(p + [m], d, key)
    ensures !AllowTick(m, key) && StoppedFrom(p, d, key)
  {
    var h := p + [m];
    assert h[|p|] == m && forall j :: 0 <= j < |p| ==> h[j] == p[j];
    var a :| StoppedAt(h, a, d, key);
    assert StoppedAt(p, a, d, key);
  }

  lemma StoppedStep(p: History, m: Moment, d: int, key: string)
    requires IsRun(p) && m.before == Final(p)
    ensures StoppedFrom(p + [m], d, key) <==>
            if AllowTick(m, key) then false
            else if DenyTick(m, key) && key in m.before.allowedSince then d == |p|
            else StoppedFrom(p, d, key)
  {
    if StoppedFrom(p + [m], d, key) {
      if d < |p| {
        StoppedEarlier(p, m, d, key);
        if key in m.before.allowedSince {
          NotStoppedInARun(p, d, key);
        }
      } else {
        StoppedNow(p, m, key);
      }
    } else if DenyTick(m, key) && key in m.before.allowedSince {
      var a := FirstDenial(p, m, key);
    } else if StoppedFrom(p, d, key) && !AllowTick(m, key) {
      var a :| StoppedAt(p, a, d, key);
      StoppedAtGrows(p, m, a, d, key);
    }
  }

  lemma NoneUnbrokenWithoutARun(p: History, a: int, key: string)
    requires UnbrokenFrom(p, a, key)
    ensures exists i :: BeginsAllowRun(p, i, key)
  {
    if !exists i :: BeginsAllowRun(p, i, key) {
      NoRunNoUnbroken(p, a + 1, key);
    }
  }

  lemma NotStoppedInARun(p: History, d: int, key: string)
    requires IsRun(p) && key in Final(p).allowedSince
    ensures !StoppedFrom(p, d, key)
  {
    AllowedSinceBeginsTheRun(p, key);
    var i :| BeginsAllowRun(p, i, key);
    assert AllowTick(p[i], key);
  }

  // ----- what the store holds of it ------------------------------------------

  /** The engine's grant and run-on of a binding are exactly what the history says. */
  ghost predicate RunOnIsHistory(h: History, key: string, id: string, runOnMs: int) {
    var s := Final(h);
    && (id in s.grantedSince <==> Kept(h, key, id))
    && (id in s.runOnUntil <==> runOnMs > 0 && Kept(h, key, id) && exists d :: StoppedFrom(h, d, key))
    && (forall d :: StoppedFrom(h, d, key) && id in s.runOnUntil ==>
          s.runOnUntil[id] == h[d].step.now + runOnMs)
    && (key in s.allowedSince ==> forall d :: !StoppedFrom(h, d, key))
  }

  /** The earliest allow to have granted the binding with no refusal since. */
  ghost predicate FirstGrantedAt(h: History, g: int, key: string, id: string) {
    GrantedUnrefused(h, g, key, id) && forall e :: 0 <= e < g ==> !GrantedUnrefused(h, e, key, id)
  }

  lemma GrantsKeepTheirTime(m: Moment, id: string)
    ensures var s, t := m.before.grantedSince, m.After().grantedSince;
            id in t ==> t[id] == if id in s then s[id] else m.step.now
  {
    WhatAStepWrites(m.before, m.step);
    if m.step.Ticked? {
      TickWrites(m.before, m.step.tool, m.step.now, m.step.ttl, m.step.timeout);
    } else if m.step.Settled? {
      SettleWrites(m.before, m.step.tool, m.step.decision, m.step.now);
    }
  }

  lemma FirstGrantedBefore(p: History, m: Moment, g: int, key: string, id: string)
    requires FirstGrantedAt(p + [m], g, key, id)
    ensures g < |p| ==> FirstGrantedAt(p, g, key, id)
    ensures g == |p| ==> !Kept(p, key, id)
  {
    var h := p + [m];
    assert h[|p|] == m && forall j :: 0 <= j < |p| ==> h[j] == p[j];
    forall e | 0 <= e < |p| && GrantedUnrefused(p, e, key, id) ensures GrantedUnrefused(h, e, key, id) {
      GrantedUnrefusedGrows(p, m, e, key, id);
    }
    if g < |p| {
      assert GrantedUnrefused(p, g, key, id);
    }
  }

  /** A binding is held as granted since the earliest such allow. */
  lemma {:induction false} GrantedSinceTheFirst(h: History, g: int, key: string, id: string, runOnMs: int)
    requires IsRun(h) && BindingKept(h, key, id, runOnMs) && FirstGrantedAt(h, g, key, id)
    ensures id in Final(h).grantedSince && Final(h).grantedSince[id] == h[g].step.now
  {
    var n := |h| - 1;
    var p, m := h[..n], h[n];
    assert h == p + [m] && forall x :: x in p ==> x in h;
    StoreIsTheHistory(h, key, id, runOnMs);
    StoreIsTheHistory(p, key, id, runOnMs);
    FirstGrantedBefore(p, m, g, key, id);
    GrantsKeepTheirTime(m, id);
    if g < n {
      GrantedSinceTheFirst(p, g, key, id, runOnMs);
    }
  }

  /** The denial starts the binding's run-on. */
  predicate StartsRunOn(s: Store, key: string, id: string, runOnMs: int) {
    key in s.allowedSince && runOnMs > 0 && id in s.grantedSince
  }

  /** The binding is granted at a denial found in this store. */
  predicate RunsAt(s: Store, key: string, id: string, runOnMs: int, now: int) {
    StartsRunOn(s, key, id, runOnMs) || (id in s.runOnUntil && now < s.runOnUntil[id])
  }

  lemma DenyRuling(s: Store, w: Tool, b: DeviceBinding, d: Decision, now: int)
    requires OnlyOwner(PowerOf(w), b) && d.Deny?
    ensures PowerRuling(s, w, b, d, now) == if RunsAt(s, w.toolId, b.id, b.runOnMs, now) then Granted else Refused
  {
    StartRunOnOfOwner(s.runOnUntil, s.grantedSince, PowerOf(w), now, b);
  }

  /** When a denial grants a binding, by the store it finds. */
  lemma DenialRuling(m: Moment, key: string, id: string, runOnMs: int)
    requires DenyTick(m, key) && KeptIn(m.before, key, id, runOnMs)
    ensures RulingOf(m, id) == if RunsAt(m.before, key, id, runOnMs, m.step.now) then Granted else Refused
  {
    TickedToolKeeps(m, key, id, runOnMs);
    var b :| OnlyOwner(PowerOf(TickedTool(m)), b) && b.id == id && b.runOnMs == runOnMs;
    BindingOfOwner(PowerOf(TickedTool(m)), b);
    DenyRuling(m.before, TickedTool(m), b, DecisionAt(m), m.step.now);
  }

  /** What a step does to the standing stop. */
  ghost predicate StopMoves(p: History, m: Moment, key: string) {
    forall d :: StoppedFrom(p + [m], d, key) <==>
                  if AllowTick(m, key) then false
                  else if DenyTick(m, key) && key in m.before.allowedSince then d == |p|
                  else StoppedFrom(p, d, key)
  }

  lemma StopsMove(p: History, m: Moment, key: string)
    requires IsRun(p) && m.before == Final(p)
    ensures StopMoves(p, m, key) && (p + [m])[|p|] == m
    ensures forall d :: StoppedFrom(p, d, key) ==> (p + [m])[d] == p[d]
  {
    forall d ensures StoppedFrom(p + [m], d, key) <==>
                     if AllowTick(m, key) then false
                     else if DenyTick(m, key) && key in m.before.allowedSince then d == |p|
                     else StoppedFrom(p, d, key)
    {
      StoppedStep(p, m, d, key);
    }
  }

  /** The store's side of one step, as the account needs it. */
  ghost predicate AccountMoves(m: Moment, key: string, id: string, runOnMs: int) {
    var s, t, now := m.before, m.After(), m.step.now;
    if AllowTick(m, key) then AfterAllow(s, t, id, RulingOf(m, id)) && key in t.allowedSince
    else if DenyTick(m, key) then
      && AfterDeny(s, t, key, id, runOnMs, RulingOf(m, id), now)
      && key !in t.allowedSince
      && RulingOf(m, id) == if RunsAt(s, key, id, runOnMs, now) then Granted else Refused
    else SameFor(s, t, id) && (key in t.allowedSince <==> key in s.allowedSince)
  }

  lemma {:induction false} StepMovesTheAccount(m: Moment, key: string, id: string, runOnMs: int)
    requires KeptIn(m.before, key, id, runOnMs)
    ensures AccountMoves(m, key, id, runOnMs)
  {
    StepOnBinding(m, key, id, runOnMs);
    StepWritesAllowedSince(m, key);
    if DenyTick(m, key) {
      DenialRuling(m, key, id, runOnMs);
    }
  }

  lemma DenialKeepsTheAccount(p: History, m: Moment, key: string, id: string, runOnMs: int)
    requires IsRun(p) && m.before == Final(p) && RunOnIsHistory(p, key, id, runOnMs)
    requires AccountMoves(m, key, id, runOnMs)
    requires DenyTick(m, key)
    ensures RunOnIsHistory(p + [m], key, id, runOnMs)
  {
    KeptStep(p, m, key, id);
    StopsMove(p, m, key);
    if key in m.before.allowedSince {
      assert StoppedFrom(p + [m], |p|, key);
    }
  }

  lemma StepKeepsTheAccount(p: History, m: Moment, key: string, id: string, runOnMs: int)
    requires IsRun(p) && m.before == Final(p) && RunOnIsHistory(p, key, id, runOnMs)
    requires AccountMoves(m, key, id, runOnMs)
    ensures RunOnIsHistory(p + [m], key, id, runOnMs)
  {
    if DenyTick(m, key) {
      DenialKeepsTheAccount(p, m, key, id, runOnMs);
    } else {
      KeptStep(p, m, key, id);
      StopsMove(p, m, key);
    }
  }

  lemma {:induction false} StoreIsTheHistory(h: History, key: string, id: string, runOnMs: int)
    requires IsRun(h) && BindingKept(h, key, id, runOnMs)
    ensures RunOnIsHistory(h, key, id, runOnMs)
  {
    if |h| > 0 {
      var p, m := h[..|h| - 1], h[|h| - 1];
      assert h == p + [m];
      StoreIsTheHistory(p, key, id, runOnMs);
      WiringKeeps(p, key, id, runOnMs);
      StepMovesTheAccount(m, key, id, runOnMs);
      StepKeepsTheAccount(p, m, key, id, runOnMs);
    }
  }

  // ----- the law -------------------------------------------------------------

  /** The run-on of the standing stop has not run out. */
  ghost predicate StillRuns(h: History, key: string, runOnMs: int, now: int) {
    exists d :: StoppedFrom(h, d, key) && now < h[d].step.now + runOnMs
  }

  lemma StillRunsNow(h: History, m: Moment, key: string, runOnMs: int)
    requires IsRun(h) && m.before == Final(h) && DenyTick(m, key) && key in m.before.allowedSince
    ensures StillRuns(h + [m], key, runOnMs, m.step.now) <==> runOnMs > 0
  {
    StopsMove(h, m, key);
    assert StoppedFrom(h + [m], |h|, key);
  }

  lemma StillRunsOn(h: History, m: Moment, key: string, runOnMs: int)
    requires IsRun(h) && m.before == Final(h) && DenyTick(m, key) && key !in m.before.allowedSince
    ensures StillRuns(h + [m], key, runOnMs, m.step.now) <==> StillRuns(h, key, runOnMs, m.step.now)
  {
    StopsMove(h, m, key);
  }

  /** A denial grants a power binding exactly when the binding has a run-on time,
      was granted by some allow and has not been refused since, and that time has
      not run out since the first denial after the last allow. */
  lemma RunOnLaw(h: History, m: Moment, key: string, id: string, runOnMs: int)
    requires IsRun(h) && m.before == Final(h) && BindingKept(h, key, id, runOnMs)
    requires DenyTick(m, key)
    ensures RulingOf(m, id) == Granted <==>
            runOnMs > 0 && Kept(h, key, id) && StillRuns(h + [m], key, runOnMs, m.step.now)
  {
    StoreIsTheHistory(h, key, id, runOnMs);
    WiringKeeps(h, key, id, runOnMs);
    DenialRuling(m, key, id, runOnMs);
    if key in m.before.allowedSince {
      StillRunsNow(h, m, key, runOnMs);
    } else {
      StillRunsOn(h, m, key, runOnMs);
    }
  }

  /** At the denial that ends a run of allows, what any allow granted and nothing
      has refused since is granted run-on if it has any, and nothing else is. */
  lemma FirstDenialLaw(h: History, m: Moment, i: int, key: string, id: string, runOnMs: int)
    requires IsRun(h) && m.before == Final(h) && BindingKept(h, key, id, runOnMs)
    requires DenyTick(m, key) && BeginsAllowRun(h, i, key)
    ensures RulingOf(m, id) == Granted <==> runOnMs > 0 && Kept(h, key, id)
  {
    AllowedSinceBeginsTheRun(h, key);
    StillRunsNow(h, m, key, runOnMs);
    RunOnLaw(h, m, key, id, runOnMs);
  }

  /** Run-on is bounded: a denied tool's power binding is granted only within its
      run-on time of the first denial after the last allow, and only if no
      refusal has come after its last grant. */
  lemma RunOnIsBounded(h: History, m: Moment, key: string, id: string, runOnMs: int)
    requires IsRun(h) && m.before == Final(h) && BindingKept(h, key, id, runOnMs)
    requires DenyTick(m, key) && RulingOf(m, id) == Granted
    ensures exists a, d :: StoppedAt(h + [m], a, d, key)
                           && m.step.now < (h + [m])[d].step.now + runOnMs
    ensures exists g :: GrantedUnrefused(h + [m], g, key, id)
  {
    RunOnLaw(h, m, key, id, runOnMs);
    KeptStep(h, m, key, id);
    var d :| StoppedFrom(h + [m], d, key) && m.step.now < (h + [m])[d].step.now + runOnMs;
    var a :| StoppedAt(h + [m], a, d, key);
  }

  // ----- run-on that the last allow never granted ---------------------------------

  /** No tick from `i` on granted the binding. */
  ghost predicate WithheldFrom(h: History, i: int, key: string, id: string) {
    0 <= i && forall j :: i <= j < |h| && TicksTool(h[j], key) ==> RulingOf(h[j], id) != Granted
  }

  /** The tool's last tick before `i` is at `j`. */
  ghost predicate LastTickBefore(h: History, j: int, i: int, key: string) {
    0 <= j < i <= |h| && TicksTool(h[j], key) && forall k :: j < k < i ==> !TicksTool(h[k], key)
  }

  ghost predicate GrantedJustBefore(h: History, i: int, key: string, id: string) {
    exists j :: LastTickBefore(h, j, i, key) && RulingOf(h[j], id) == Granted
  }

  /** The tick before a run of allows is a denial. */
  lemma RunFollowsADenial(h: History, i: int, j: int, key: string)
    requires BeginsAllowRun(h, i, key) && LastTickBefore(h, j, i, key)
    ensures DenyTick(h[j], key)
  {
    if AllowTick(h[j], key) {
      assert UnbrokenFrom(h, j, key);
    }
  }

  lemma LastTick(h: History, g: int, i: int, key: string) returns (j: int)
    requires 0 <= g < i <= |h| && TicksTool(h[g], key)
    ensures g <= j && LastTickBefore(h, j, i, key)
  {
    j := LastTickFrom(h[..i], g, key);
    forall k | j < k < i ensures !TicksTool(h[k], key) {
      assert h[..i][k] == h[k];
    }
  }

  lemma GrantedBeforeTheRun(h: History, i: int, g: int, key: string, id: string)
    requires 0 <= i && WithheldFrom(h, i, key, id) && GrantedUnrefused(h, g, key, id)
    ensures 0 <= g < i && TicksTool(h[g], key)
  {
  }

  lemma UnrefusedAfterTheGrant(h: History, g: int, j: int, key: string, id: string)
    requires GrantedUnrefused(h, g, key, id) && g <= j < |h| && TicksTool(h[j], key)
    ensures RulingOf(h[j], id) != Refused
  {
  }

  lemma KeptFromBefore(h: History, i: int, key: string, id: string)
    requires BeginsAllowRun(h, i, key) && WithheldFrom(h, i, key, id) && Kept(h, key, id)
    ensures GrantedJustBefore(h, i, key, id)
  {
    var g :| GrantedUnrefused(h, g, key, id);
    GrantedBeforeTheRun(h, i, g, key, id);
    var j := LastTick(h, g, i, key);
    RunFollowsADenial(h, i, j, key);
    DenialNeverWithholds(h[j], key, id);
    UnrefusedAfterTheGrant(h, g, j, key, id);
  }

  lemma DenialNeverWithholds(m: Moment, key: string, id: string)
    requires DenyTick(m, key)
    ensures RulingOf(m, id) != Withheld
  {
  }

  lemma AllowNeverRefuses(m: Moment, key: string, id: string)
    requires AllowTick(m, key)
    ensures RulingOf(m, id) != Refused
  {
  }

  /** No tick from `n` on refused the binding. */
  ghost predicate UnrefusedFrom(h: History, n: int, key: string, id: string) {
    0 <= n && forall j :: n <= j < |h| && TicksTool(h[j], key) ==> RulingOf(h[j], id) != Refused
  }

  lemma KeptGrows(h: History, n: int, key: string, id: string)
    requires n <= |h| && UnrefusedFrom(h, n, key, id) && Kept(h[..n], key, id)
    ensures Kept(h, key, id)
  {
    var g :| GrantedUnrefused(h[..n], g, key, id);
    forall k | g < k < |h| && TicksTool(h[k], key) ensures RulingOf(h[k], id) != Refused {
      if k < n {
        assert h[..n][k] == h[k];
      }
    }
    assert h[..n][g] == h[g];
    assert GrantedUnrefused(h, g, key, id);
  }

  lemma UnrefusedThroughTheRun(h: History, i: int, j: int, key: string, id: string)
    requires BeginsAllowRun(h, i, key) && LastTickBefore(h, j, i, key) && RulingOf(h[j], id) == Granted
    ensures UnrefusedFrom(h, j, key, id)
  {
    forall k | j <= k < |h| && TicksTool(h[k], key) ensures RulingOf(h[k], id) != Refused {
      if k != j {
        assert i <= k && AllowTick(h[k], key);
        AllowNeverRefuses(h[k], key, id);
      }
    }
  }

  lemma KeptThroughTheRun(h: History, i: int, key: string, id: string, runOnMs: int)
    requires IsRun(h) && BindingKept(h, key, id, runOnMs)
    requires BeginsAllowRun(h, i, key) && GrantedJustBefore(h, i, key, id)
    ensures Kept(h, key, id)
  {
    var key := key;
    var j :| LastTickBefore(h, j, i, key) && RulingOf(h[j], id) == Granted;
    RunFollowsADenial(h, i, j, key);
    PrefixIsRun(h, j);
    RunOnLaw(h[..j], h[j], key, id, runOnMs);
    UnrefusedThroughTheRun(h, i, j, key, id);
    KeptGrows(h, j, key, id);
  }

  /** When a denial grants run-on to a binding that the run of allows it ends never
      granted: exactly when the binding has a run-on time and the denial before that
      run still granted it, its earlier run-on then being live. */
  lemma UngrantedRunOnLaw(h: History, m: Moment, i: int, key: string, id: string, runOnMs: int)
    requires IsRun(h) && m.before == Final(h) && BindingKept(h, key, id, runOnMs)
    requires DenyTick(m, key) && BeginsAllowRun(h, i, key) && WithheldFrom(h, i, key, id)
    ensures RulingOf(m, id) == Granted <==> runOnMs > 0 && GrantedJustBefore(h, i, key, id)
  {
    FirstDenialLaw(h, m, i, key, id, runOnMs);
    if Kept(h, key, id) {
      KeptFromBefore(h, i, key, id);
    }
    if GrantedJustBefore(h, i, key, id) {
      KeptThroughTheRun(h, i, key, id, runOnMs);
    }
  }

  // ----- and a history that has it -------------------------------------------------

  const PLUG := DeviceBinding("b", "d", ROLE_POWER, "plug", "hold_last", 0, 10, 100, 0)
  const SAW := Tool("t", None, "tool", "", false, [PLUG], [])

  /** The saw's state: whether it is in use, since when it is allowed, and what
      its plug holds. */
  ghost predicate SawIs(s: Store, open: bool, since: Option<int>, granted: bool, runOn: Option<int>) {
    && s.snapshot == Some([SAW]) && "t" !in s.latched && "t" !in s.syncedInUse
    && (if open then "t" in s.localSessions && s.localSessions["t"].endsAt.None? else "t" !in s.localSessions)
    && (if since.Some? then "t" in s.allowedSince && s.allowedSince["t"] == since.value else "t" !in s.allowedSince)
    && ("b" in s.grantedSince <==> granted)
    && (if runOn.Some? then "b" in s.runOnUntil && s.runOnUntil["b"] == runOn.value else "b" !in s.runOnUntil)
  }

  lemma SawIsWired(s: Store)
    requires s.snapshot == Some([SAW])
    ensures Wiring(s, "t") == Some(SAW) && PowerOf(SAW) == [PLUG]
  {
    assert [PLUG][1..] == [];
    assert WithRole([PLUG], ROLE_POWER) == [PLUG] + WithRole([PLUG][1..], ROLE_POWER) == [PLUG];
    CommandOrder(SAW);
    assert multiset(PowerOf(SAW)) == multiset([PLUG]);
    assert |multiset(PowerOf(SAW))| == |PowerOf(SAW)|;
    assert PowerOf(SAW)[0] in multiset([PLUG]);
  }

  lemma SawOpens(s: Store, since: Option<int>, granted: bool, runOn: Option<int>, now: int)
    requires SawIs(s, false, since, granted, runOn)
    ensures SawIs(Next(s, Opened("t", None, now)), true, since, granted, runOn)
  {
  }

  lemma SawCloses(s: Store, since: Option<int>, granted: bool, runOn: Option<int>, now: int)
    requires SawIs(s, true, since, granted, runOn)
    ensures SawIs(Next(s, Closed("t", now)), false, since, granted, runOn)
  {
  }

  lemma SawDecision(s: Store, open: bool, since: Option<int>, granted: bool, runOn: Option<int>, now: int)
    requires SawIs(s, open, since, granted, runOn)
    ensures Evaluate(s, "t", now, 5) == if open then Allow else Deny(NotInUse)
  {
    SawIsWired(s);
    assert [PLUG][1..] == [];
    assert |PLUG.onDisconnect| != |ON_DISCONNECT_FAIL_OFF|;
    assert FirstOffline(s, [PLUG], now, 5) == FirstOffline(s, [PLUG][1..], now, 5) == None;
    assert FirstRuleDenial(s, "t", [], now) == None;
  }

  lemma SawAllowed(s: Store, since: Option<int>, granted: bool, runOn: Option<int>, now: int)
    requires SawIs(s, true, since, granted, runOn)
    ensures var m, start := Moment(s, Ticked("t", 5, 5, now)), since.GetOr(now);
            && AllowTick(m, "t")
            && RulingAt(m, PLUG) == (if now >= start + 10 then Granted else Withheld)
            && SawIs(m.After(), true, Some(start), granted || now >= start + 10, None)
  {
    var m := Moment(s, Ticked("t", 5, 5, now));
    SawIsWired(s);
    SawDecision(s, true, since, granted, runOn, now);
    assert StageBase(s.relayState, [PLUG], 0, since.GetOr(now)) == Some(since.GetOr(now));
    WhatAStepWrites(s, m.step);
    RenewWrites(s, "t", now, 5, 5);
    OwnTickOnBinding(m, SAW, PLUG);
    StepWritesAllowedSince(m, "t");
    TickWrites(s, "t", now, 5, 5);
  }

  lemma SawStopped(s: Store, since: int, now: int)
    requires SawIs(s, false, Some(since), true, None)
    ensures var m := Moment(s, Ticked("t", 5, 5, now));
            && DenyTick(m, "t")
            && RulingAt(m, PLUG) == Granted
            && SawIs(m.After(), false, None, true, Some(now + 100))
  {
    var m := Moment(s, Ticked("t", 5, 5, now));
    SawIsWired(s);
    SawDecision(s, false, Some(since), true, None, now);
    StartRunOnOfOwner(s.runOnUntil, s.grantedSince, [PLUG], now, PLUG);
    WhatAStepWrites(s, m.step);
    RenewWrites(s, "t", now, 5, 5);
    OwnTickOnBinding(m, SAW, PLUG);
    StepWritesAllowedSince(m, "t");
    TickWrites(s, "t", now, 5, 5);
  }

  lemma NoRooms()
    ensures Rooms([SAW], true) == [] && Rooms([SAW], false) == []
  {
    assert SAW.kind[0] != RESOURCE_DOOR[0] && [SAW][1..] == [];
  }

  lemma SawArrives() returns (h: History)
    ensures IsRun(h) && WholeTicks(h) && |h| == 1 && SawIs(Final(h), false, None, false, None)
  {
    var m := Moment(INITIAL, StateApplied([SAW], None, 0));
    NoRooms();
    ExtendRun([], m);
    h := [] + [m];
  }

  /** The plug is granted at 10. */
  lemma SawGranted() returns (h: History)
    ensures IsRun(h) && WholeTicks(h) && |h| == 4 && AllowTick(h[3], "t") && RulingAt(h[3], PLUG) == Granted
    ensures SawIs(Final(h), true, Some(0), true, None)
  {
    var p := SawArrives();
    var m1 := Moment(Final(p), Opened("t", None, 0));
    SawOpens(m1.before, None, false, None, 0);
    var m2 := Moment(m1.After(), Ticked("t", 5, 5, 0));
    SawAllowed(m2.before, None, false, None, 0);
    var m3 := Moment(m2.After(), Ticked("t", 5, 5, 10));
    SawAllowed(m3.before, Some(0), false, None, 10);
    ExtendRun(p, m1);
    ExtendRun(p + [m1], m2);
    ExtendRun(p + [m1] + [m2], m3);
    h := p + [m1] + [m2] + [m3];
  }

  /** And runs on from 20. */
  lemma GrantThenRunOn() returns (h: History)
    ensures IsRun(h) && |h| == 6
    ensures AllowTick(h[3], "t") && RulingAt(h[3], PLUG) == Granted && DenyTick(h[5], "t")
    ensures SawIs(Final(h), false, None, true, Some(120))
  {
    var p := SawGranted();
    var m4 := Moment(Final(p), Closed("t", 20));
    SawCloses(m4.before, Some(0), true, None, 20);
    var m5 := Moment(m4.After(), Ticked("t", 5, 5, 20));
    SawStopped(m5.before, 0, 20);
    ExtendRun(p, m4);
    ExtendRun(p + [m4], m5);
    h := p + [m4] + [m5];
  }

  /** A grant outlives the allow that made it when a second allow interrupts its
      run-on: the plug is granted at 10, runs on from the denial at 20, is withheld
      by the allow at 30 that cancels the run-on, and is granted run-on again by
      the denial at 35, though the allow before it never granted it. */
  lemma RunOnWithoutAGrantInTheLastAllow() returns (h: History, m: Moment)
    ensures IsRun(h) && m.before == Final(h) && |h| == 9
    ensures AllowTick(h[3], "t") && RulingAt(h[3], PLUG) == Granted && DenyTick(h[5], "t")
    ensures AllowTick(h[7], "t") && RulingAt(h[7], PLUG) == Withheld && !TicksTool(h[8], "t")
    ensures DenyTick(m, "t") && RulingAt(m, PLUG) == Granted
  {
    var p := GrantThenRunOn();
    var m6 := Moment(Final(p), Opened("t", None, 30));
    SawOpens(m6.before, None, true, Some(120), 30);
    var m7 := Moment(m6.After(), Ticked("t", 5, 5, 30));
    SawAllowed(m7.before, None, true, Some(120), 30);
    var m8 := Moment(m7.After(), Closed("t", 35));
    SawCloses(m8.before, Some(30), true, None, 35);
    m := Moment(m8.After(), Ticked("t", 5, 5, 35));
    SawStopped(m.before, 30, 35);
    ExtendRun(p, m6);
    ExtendRun(p + [m6], m7);
    ExtendRun(p + [m6] + [m7], m8);
    h := p + [m6] + [m7] + [m8];
  }
}
