/** Power lockout and the edge's own fast trip: the draw each tool last reported,
    summed per circuit, and the circuits this edge has tripped. */
module PowerState {
  import opened Wrappers
  import opened Ordering

  datatype PowerTool = PowerTool(id: string, externalId: Option<string>, circuitId: Option<string>)

  /** `limit` is absent when the server's decimal string does not parse. */
  datatype Circuit = Circuit(id: string, limit: Option<real>)

  datatype PowerSnapshot = PowerSnapshot(lockedToolIds: seq<string>, circuits: seq<Circuit>, tools: seq<PowerTool>)

  datatype PowerStore = PowerStore(
    snapshot: Option<PowerSnapshot>,
    latestDraw: map<string, real>,
    localTripped: set<string>)

  // ----- what the calls mean --------------------------------------------

  /** Reported locked: the circuit has a tool, and every tool it has is locked. */
  ghost predicate CircuitLocked(p: PowerSnapshot, circuitId: string) {
    && (exists t :: t in p.tools && t.circuitId == Some(circuitId))
    && forall t :: t in p.tools && t.circuitId == Some(circuitId) ==> t.id in p.lockedToolIds
  }

  function FindTool(tools: seq<PowerTool>, name: string): Option<PowerTool> {
    if |tools| == 0 then None
    else if tools[0].externalId == Some(name) || tools[0].id == name then Some(tools[0])
    else FindTool(tools[1..], name)
  }

  predicate IsLocked(s: PowerStore, name: string) {
    s.snapshot.Some? &&
    var p := s.snapshot.value;
    match FindTool(p.tools, name)
    case Some(t) => t.id in p.lockedToolIds || (t.circuitId.Some? && t.circuitId.value in s.localTripped)
    case None => name in p.lockedToolIds
  }

  function DrawKey(s: PowerStore, name: string): string {
    if s.snapshot.None? then name
    else
      match FindTool(s.snapshot.value.tools, name)
      case Some(t) => t.id
      case None => name
  }

  /** The circuit a tool's draw counts on: the last entry for the id that has one. */
  function CircuitOf(tools: seq<PowerTool>, id: string): Option<string> {
    if |tools| == 0 then None
    else
      var last := tools[|tools| - 1];
      if last.id == id && last.circuitId.Some? then last.circuitId else CircuitOf(tools[..|tools| - 1], id)
  }

  ghost function Sum(ids: set<string>, draw: map<string, real>): real
    requires ids <= draw.Keys
    decreases |ids|
  {
    if ids == {} then 0.0
    else
      var id :| id in ids;
      draw[id] + Sum(ids - {id}, draw)
  }

  /** The snapshot's last entry for the tool that gives it a circuit gives it this one. */
  ghost predicate IsOn(tools: seq<PowerTool>, id: string, circuitId: string) {
    exists i :: 0 <= i < |tools| && tools[i].id == id && tools[i].circuitId == Some(circuitId)
                && forall j :: i < j < |tools| && tools[j].id == id ==> tools[j].circuitId.None?
  }

  /** The tools on the circuit whose draw has been recorded. */
  ghost function DrawersOn(p: PowerSnapshot, draw: map<string, real>, circuitId: string): set<string> {
    set id | id in draw && IsOn(p.tools, id, circuitId)
  }

  /** The latest draw on a circuit, every tool once. */
  ghost function Total(p: PowerSnapshot, draw: map<string, real>, circuitId: string): real {
    Sum(DrawersOn(p, draw, circuitId), draw)
  }

  ghost predicate IsOver(p: PowerSnapshot, draw: map<string, real>, c: Circuit) {
    c.limit.Some? && Total(p, draw, c.id) > c.limit.value
  }

  ghost function OverIds(p: PowerSnapshot, draw: map<string, real>, tripped: set<string>,
                         circuits: seq<Circuit>): seq<string>
  {
    if |circuits| == 0 then []
    else
      var n := |circuits| - 1;
      OverIds(p, draw, tripped, circuits[..n])
      + if IsOver(p, draw, circuits[n]) && circuits[n].id !in tripped then [circuits[n].id] else []
  }

  ghost function Overages(s: PowerStore): seq<string> {
    if s.snapshot.None? then []
    else
      Sort(NotAfter, OverIds(s.snapshot.value, s.latestDraw, s.localTripped, s.snapshot.value.circuits))
  }

  // ----- names and circuits -----------------------------------------------

  predicate AnswersTo(t: PowerTool, name: string) {
    t.externalId == Some(name) || t.id == name
  }

  /** The tool at `i` is the first that answers to the name. */
  ghost predicate FirstNamed(tools: seq<PowerTool>, name: string, i: int) {
    0 <= i < |tools| && AnswersTo(tools[i], name) && forall j :: 0 <= j < i ==> !AnswersTo(tools[j], name)
  }

  lemma {:induction false} FindToolMeans(tools: seq<PowerTool>, name: string)
    ensures forall i :: FirstNamed(tools, name, i) ==> FindTool(tools, name) == Some(tools[i])
    ensures FindTool(tools, name).None? <==> forall t :: t in tools ==> !AnswersTo(t, name)
  {
    if |tools| > 0 && !AnswersTo(tools[0], name) {
      var rest := tools[1..];
      FindToolMeans(rest, name);
      assert tools == [tools[0]] + rest;
      forall i | FirstNamed(tools, name, i) ensures FindTool(tools, name) == Some(tools[i]) {
        assert rest[i - 1] == tools[i];
        assert forall j :: 0 <= j < i - 1 ==> rest[j] == tools[j + 1];
        assert FirstNamed(rest, name, i - 1);
      }
    }
  }

  /** A tool is locked, by either name, if the server lists it or its circuit has tripped
      here, and only then; a name no tool has, if the server lists that name; and before
      any snapshot nothing is. */
  lemma LockedMeans(s: PowerStore, name: string)
    ensures s.snapshot.None? ==> !IsLocked(s, name)
    ensures s.snapshot.Some? ==>
              var p := s.snapshot.value;
              && (forall i :: FirstNamed(p.tools, name, i) ==>
                    (IsLocked(s, name) <==>
                     || p.tools[i].id in p.lockedToolIds
                     || exists c :: p.tools[i].circuitId == Some(c) && c in s.localTripped))
              && ((forall t :: t in p.tools ==> t.externalId != Some(name) && t.id != name) ==>
                    (IsLocked(s, name) <==> name in p.lockedToolIds))
  {
    if s.snapshot.Some? {
      FindToolMeans(s.snapshot.value.tools, name);
    }
  }

  /** Which circuit a tool's draw is counted on. */
  lemma {:induction false} CircuitOfMeans(tools: seq<PowerTool>, id: string, circuitId: string)
    ensures CircuitOf(tools, id) == Some(circuitId) <==> IsOn(tools, id, circuitId)
  {
    if |tools| > 0 {
      var n := |tools| - 1;
      var rest, last := tools[..n], tools[n];
      CircuitOfMeans(rest, id, circuitId);
      assert forall j :: 0 <= j < n ==> rest[j] == tools[j];
      if last.id == id && last.circuitId.Some? {
      } else {
        if i :| 0 <= i < n && rest[i].id == id && rest[i].circuitId == Some(circuitId)
                && forall j :: i < j < n && rest[j].id == id ==> rest[j].circuitId.None? {
          assert tools[i].id == id && tools[i].circuitId == Some(circuitId);
        }
        if i :| 0 <= i <= n && tools[i].id == id && tools[i].circuitId == Some(circuitId)
                && forall j :: i < j <= n && tools[j].id == id ==> tools[j].circuitId.None? {
          assert rest[i].id == id && rest[i].circuitId == Some(circuitId);
        }
      }
    }
  }

  // ----- the sum does not depend on the order it is taken in -------------

  lemma {:induction false} SumWithout(id: string, ids: set<string>, draw: map<string, real>)
    requires id in ids && ids <= draw.Keys
    ensures Sum(ids, draw) == draw[id] + Sum(ids - {id}, draw)
    decreases |ids|
  {
    var first :| first in ids && Sum(ids, draw) == draw[first] + Sum(ids - {first}, draw);
    if first != id {
      SumWithout(id, ids - {first}, draw);
      SumWithout(first, ids - {id}, draw);
      assert ids - {first} - {id} == ids - {id} - {first};
    }
  }

  // ----- overages -------------------------------------------------------

  lemma {:induction false} OverIdsMean(p: PowerSnapshot, draw: map<string, real>, tripped: set<string>,
                                       circuits: seq<Circuit>, id: string)
    ensures id in OverIds(p, draw, tripped, circuits) <==>
            id !in tripped && exists c :: c in circuits && c.id == id && IsOver(p, draw, c)
  {
    if |circuits| > 0 {
      var n := |circuits| - 1;
      OverIdsMean(p, draw, tripped, circuits[..n], id);
      assert circuits == circuits[..n] + [circuits[n]];
    }
  }

  lemma TextOrderIsTotal()
    ensures TotalPreorder(NotAfter)
  {
    forall a: string, b: string ensures NotAfter(a, b) || NotAfter(b, a) {
      BeforeIsTotal(a, b);
    }
    forall a: string, b: string, c: string
      ensures NotAfter(a, b) && NotAfter(b, c) ==> NotAfter(a, c)
    {
      if Before(a, b) && Before(b, c) {
        BeforeIsTransitive(a, b, c);
      }
    }
  }

  function CircuitIds(circuits: seq<Circuit>): (r: seq<string>)
    ensures |r| == |circuits| && forall i :: 0 <= i < |r| ==> r[i] == circuits[i].id
  {
    if |circuits| == 0 then [] else CircuitIds(circuits[..|circuits| - 1]) + [circuits[|circuits| - 1].id]
  }

  lemma {:induction false} OverIdsOnce(p: PowerSnapshot, draw: map<string, real>, tripped: set<string>,
                                       circuits: seq<Circuit>, id: string)
    ensures multiset(OverIds(p, draw, tripped, circuits))[id] <= multiset(CircuitIds(circuits))[id]
  {
    if |circuits| > 0 {
      OverIdsOnce(p, draw, tripped, circuits[..|circuits| - 1], id);
    }
  }

  /** A circuit is reported exactly if it has not tripped and its tools, by the last
      report of each, together draw more than it allows; once, if it is listed once; and
      the report is sorted. */
  lemma OveragesAreExact(s: PowerStore)
    ensures SortedBy(NotAfter, Overages(s))
    ensures forall id :: id in Overages(s) <==>
              && s.snapshot.Some? && id !in s.localTripped
              && exists c :: c in s.snapshot.value.circuits && c.id == id && c.limit.Some?
                             && Sum(DrawersOn(s.snapshot.value, s.latestDraw, c.id), s.latestDraw) > c.limit.value
    ensures s.snapshot.Some? ==>
              forall id :: multiset(Overages(s))[id] <= multiset(CircuitIds(s.snapshot.value.circuits))[id]
  {
    if s.snapshot.Some? {
      var over := OverIds(s.snapshot.value, s.latestDraw, s.localTripped, s.snapshot.value.circuits);
      SortIsPermutation(NotAfter, over);
      TextOrderIsTotal();
      SortSorts(NotAfter, over);
      forall id ensures id in over <==>
                        id !in s.localTripped
                        && exists c :: c in s.snapshot.value.circuits && c.id == id
                                       && IsOver(s.snapshot.value, s.latestDraw, c)
      {
        OverIdsMean(s.snapshot.value, s.latestDraw, s.localTripped, s.snapshot.value.circuits, id);
      }
      forall id ensures multiset(over)[id] <= multiset(CircuitIds(s.snapshot.value.circuits))[id] {
        OverIdsOnce(s.snapshot.value, s.latestDraw, s.localTripped, s.snapshot.value.circuits, id);
      }
    }
  }

  lemma EmptyOrHasAFirst<T>(s: seq<T>)
    ensures s == [] || s[0] in s
  {
  }

  /** Once everything reported has been tripped, a second pass reports nothing. */
  lemma TrippingAllIsAFixpoint(s: PowerStore, t: PowerStore)
    requires t == s.(localTripped := s.localTripped + (set id | id in Overages(s)))
    ensures Overages(t) == []
  {
    OveragesAreExact(s);
    OveragesAreExact(t);
    assert forall id :: id !in Overages(t);
    EmptyOrHasAFirst(Overages(t));
  }

  // ----- runs -----------------------------------------------------------

  datatype PowerStep =
    | StateApplied(payload: PowerSnapshot)
    | DrawRecorded(tool: string, amps: real)
    | CircuitTripped(circuitId: string)

  ghost function StillLocked(tripped: set<string>, p: PowerSnapshot): set<string> {
    set c | c in tripped && CircuitLocked(p, c)
  }

  ghost function Next(s: PowerStore, step: PowerStep): PowerStore {
    match step
    case StateApplied(p) => s.(snapshot := Some(p), localTripped := StillLocked(s.localTripped, p))
    case DrawRecorded(tool, amps) => s.(latestDraw := s.latestDraw[DrawKey(s, tool) := amps])
    case CircuitTripped(c) => s.(localTripped := s.localTripped + {c})
  }

  ghost function Run(s: PowerStore, steps: seq<PowerStep>): PowerStore {
    if |steps| == 0 then s else Next(Run(s, steps[..|steps| - 1]), steps[|steps| - 1])
  }

  /** The draw was recorded for the tool with this id, under whichever name. */
  ghost predicate Draws(s: PowerStore, steps: seq<PowerStep>, i: int, id: string) {
    && 0 <= i < |steps| && steps[i].DrawRecorded?
    && DrawKey(Run(s, steps[..i]), steps[i].tool) == id
  }

  /** What is held of a tool's draw is what was last recorded for it. */
  lemma {:induction false} DrawIsTheLatest(s: PowerStore, steps: seq<PowerStep>, i: int, id: string)
    requires Draws(s, steps, i, id) && forall j :: i < j < |steps| ==> !Draws(s, steps, j, id)
    ensures id in Run(s, steps).latestDraw && Run(s, steps).latestDraw[id] == steps[i].amps
  {
    var n := |steps| - 1;
    assert steps[..n][..i] == steps[..i] && steps[..n + 1] == steps;
    if i < n {
      forall j | i < j < n ensures !Draws(s, steps[..n], j, id) {
        assert steps[..n][..j] == steps[..j];
        assert !Draws(s, steps, j, id);
      }
      assert Draws(s, steps[..n], i, id);
      DrawIsTheLatest(s, steps[..n], i, id);
      assert !Draws(s, steps, n, id);
    }
  }

  /** A draw is recorded for the tool that answers to the name, or for the name itself
      where none does. */
  lemma DrawKeyMeans(s: PowerStore, name: string)
    ensures s.snapshot.None? ==> DrawKey(s, name) == name
    ensures s.snapshot.Some? ==>
              (forall t :: t in s.snapshot.value.tools ==> t.externalId != Some(name) && t.id != name) ==>
              DrawKey(s, name) == name
    ensures s.snapshot.Some? ==>
              forall i :: FirstNamed(s.snapshot.value.tools, name, i) ==>
                DrawKey(s, name) == s.snapshot.value.tools[i].id
  {
    if s.snapshot.Some? {
      FindToolMeans(s.snapshot.value.tools, name);
    }
  }

  /** Every snapshot from `i` on finds the circuit fully locked. */
  ghost predicate LockedFrom(steps: seq<PowerStep>, i: int, circuitId: string) {
    0 <= i && forall j :: i <= j < |steps| && steps[j].StateApplied? ==> CircuitLocked(steps[j].payload, circuitId)
  }

  ghost predicate TrippedAt(steps: seq<PowerStep>, i: int, circuitId: string) {
    0 <= i < |steps| && steps[i] == CircuitTripped(circuitId) && LockedFrom(steps, i + 1, circuitId)
  }

  /** A circuit stands tripped after a run exactly when it was tripped, before the run
      or in it, and every snapshot since, if any, found it fully locked. */
  lemma {:induction false} TripLaw(s: PowerStore, steps: seq<PowerStep>, circuitId: string)
    ensures circuitId in Run(s, steps).localTripped <==>
            || (circuitId in s.localTripped && LockedFrom(steps, 0, circuitId))
            || exists i :: TrippedAt(steps, i, circuitId)
  {
    if |steps| > 0 {
      var n := |steps| - 1;
      var before, last := steps[..n], steps[n];
      TripLaw(s, before, circuitId);
      TrippedOneMore(steps, n, circuitId);
      if i :| TrippedAt(before, i, circuitId) {
        TrippedOneMore(steps, i, circuitId);
      }
      if i :| TrippedAt(steps, i, circuitId) {
        TrippedOneMore(steps, i, circuitId);
      }
      assert LockedFrom(steps, 0, circuitId) <==>
        LockedFrom(before, 0, circuitId) && (last.StateApplied? ==> CircuitLocked(last.payload, circuitId));
    }
  }

  lemma TrippedOneMore(steps: seq<PowerStep>, i: int, circuitId: string)
    requires |steps| > 0
    ensures var n, last := |steps| - 1, steps[|steps| - 1];
            TrippedAt(steps, i, circuitId) <==>
            if i == n then last == CircuitTripped(circuitId)
            else TrippedAt(steps[..n], i, circuitId)
                 && (last.StateApplied? ==> CircuitLocked(last.payload, circuitId))
  {
    var n := |steps| - 1;
    assert forall j :: 0 <= j < n ==> steps[..n][j] == steps[j];
    if 0 <= i < n {
      assert LockedFrom(steps, i + 1, circuitId) <==>
        LockedFrom(steps[..n], i + 1, circuitId)
        && (steps[n].StateApplied? ==> CircuitLocked(steps[n].payload, circuitId));
    }
  }

  /** A snapshot keeps a local trip exactly where it shows the circuit with tools and every
      one of them locked; nothing else ends one, and only a trip begins one. */
  lemma SnapshotKeepsTrips(s: PowerStore, p: PowerSnapshot, circuitId: string)
    ensures circuitId in Next(s, StateApplied(p)).localTripped <==>
            && circuitId in s.localTripped
            && (exists t :: t in p.tools && t.circuitId == Some(circuitId))
            && forall t :: t in p.tools && t.circuitId == Some(circuitId) ==> t.id in p.lockedToolIds
    ensures Next(s, StateApplied(p)).snapshot == Some(p) && Next(s, StateApplied(p)).latestDraw == s.latestDraw
  {
  }

  /** So a local trip lasts, and every tool on the circuit is locked by the name that finds
      it, until the server's next state to show the circuit in part
      unlocked or without tools. */
  lemma TripIsSticky(s: PowerStore, steps: seq<PowerStep>, circuitId: string)
    requires circuitId in s.localTripped
    requires forall step :: step in steps && step.StateApplied? ==> CircuitLocked(step.payload, circuitId)
    ensures circuitId in Run(s, steps).localTripped
    ensures forall name :: var t := Run(s, steps);
              t.snapshot.Some?
              && (exists i :: FirstNamed(t.snapshot.value.tools, name, i)
                              && t.snapshot.value.tools[i].circuitId == Some(circuitId))
              ==> IsLocked(t, name)
  {
    forall name {
      LockedMeans(Run(s, steps), name);
    }
    TripLaw(s, steps, circuitId);
    assert LockedFrom(steps, 0, circuitId);
  }

  // ----- the store as the edge runs it ----------------------------------

  class PowerState {
    var snapshot: Option<PowerSnapshot>
    var latestDraw: map<string, real>
    var localTripped: set<string>

    function View(): PowerStore
      reads this
    {
      PowerStore(snapshot, latestDraw, localTripped)
    }

    constructor ()
      ensures View() == PowerStore(None, map[], {})
    {
      snapshot, latestDraw, localTripped := None, map[], {};
    }

    static method ReportsLocked(p: PowerSnapshot, circuitId: string) returns (locked: bool)
      ensures locked <==> CircuitLocked(p, circuitId)
    {
      var found := false;
      for i := 0 to |p.tools|
        invariant found <==> exists j :: 0 <= j < i && p.tools[j].circuitId == Some(circuitId)
        invariant forall j :: 0 <= j < i && p.tools[j].circuitId == Some(circuitId) ==> p.tools[j].id in p.lockedToolIds
      {
        if p.tools[i].circuitId == Some(circuitId) {
          found := true;
          if p.tools[i].id !in p.lockedToolIds {
            return false;
          }
        }
      }
      return found;
    }

    method ApplyState(payload: PowerSnapshot)
      modifies this
      ensures View() == Next(old(View()), StateApplied(payload))
    {
      var kept, rest := {}, localTripped;
      while rest != {}
        invariant View() == old(View()) && rest <= localTripped
        invariant kept == StillLocked(localTripped - rest, payload)
        decreases rest
      {
        var c :| c in rest;
        var locked := ReportsLocked(payload, c);
        if locked {
          kept := kept + {c};
        }
        rest := rest - {c};
      }
      assert localTripped - rest == localTripped;
      localTripped := kept;
      snapshot := Some(payload);
    }

    method RecordDraw(tool: string, amps: real)
      modifies this`latestDraw
      ensures View() == Next(old(View()), DrawRecorded(tool, amps))
    {
      var key := tool;
      if snapshot.Some? {
        var t := FindTool(snapshot.value.tools, tool);
        if t.Some? {
          key := t.value.id;
        }
      }
      latestDraw := latestDraw[key := amps];
    }

    method MarkTripped(circuitId: string)
      modifies this`localTripped
      ensures View() == Next(old(View()), CircuitTripped(circuitId))
    {
      localTripped := localTripped + {circuitId};
    }

    /** The totals per circuit, in whatever order the draws come out. */
    method Totals(p: PowerSnapshot) returns (totals: map<string, real>)
      ensures forall c :: (if c in totals then totals[c] else 0.0) == Total(p, latestDraw, c)
    {
      totals := map[];
      var rest := latestDraw.Keys;
      ghost var done: set<string> := {};
      while rest != {}
        invariant rest <= latestDraw.Keys && done == latestDraw.Keys - rest
        invariant forall c :: (if c in totals then totals[c] else 0.0)
                              == Sum(DrawersOn(p, latestDraw, c) * done, latestDraw)
        decreases rest
      {
        var id :| id in rest;
        var circuit := CircuitOf(p.tools, id);
        OneMoreDraw(p, latestDraw, done, id);
        if circuit.Some? {
          var sofar := if circuit.value in totals then totals[circuit.value] else 0.0;
          totals := totals[circuit.value := sofar + latestDraw[id]];
        }
        rest := rest - {id};
        done := done + {id};
      }
      assert forall c :: DrawersOn(p, latestDraw, c) * done == DrawersOn(p, latestDraw, c);
    }

    static lemma OneMoreDraw(p: PowerSnapshot, draw: map<string, real>, done: set<string>, id: string)
      requires done <= draw.Keys && id in draw && id !in done
      ensures forall c :: Sum(DrawersOn(p, draw, c) * (done + {id}), draw)
                          == Sum(DrawersOn(p, draw, c) * done, draw)
                             + if CircuitOf(p.tools, id) == Some(c) then draw[id] else 0.0
    {
      forall c
        ensures Sum(DrawersOn(p, draw, c) * (done + {id}), draw)
                == Sum(DrawersOn(p, draw, c) * done, draw) + if CircuitOf(p.tools, id) == Some(c) then draw[id] else 0.0
      {
        var before, after := DrawersOn(p, draw, c) * done, DrawersOn(p, draw, c) * (done + {id});
        CircuitOfMeans(p.tools, id, c);
        if CircuitOf(p.tools, id) == Some(c) {
          assert after - {id} == before;
          SumWithout(id, after, draw);
        } else {
          assert after == before;
        }
      }
    }

    method EvaluateOverages() returns (over: seq<string>)
      ensures over == Overages(View())
    {
      if snapshot.None? {
        return [];
      }
      var p := snapshot.value;
      var totals := Totals(p);
      over := [];
      for i := 0 to |p.circuits|
        invariant over == OverIds(p, latestDraw, localTripped, p.circuits[..i])
      {
        assert p.circuits[..i + 1][..i] == p.circuits[..i];
        var c := p.circuits[i];
        if c.limit.Some? {
          var total := if c.id in totals then totals[c.id] else 0.0;
          if total > c.limit.value && c.id !in localTripped {
            over := over + [c.id];
          }
        }
      }
      assert p.circuits[..|p.circuits|] == p.circuits;
      over := Sort(NotAfter, over);
    }

    /** The fast trip: trip every circuit that is over, and say which. */
    method FastTrip() returns (tripped: seq<string>)
      modifies this`localTripped
      ensures tripped == old(Overages(View()))
      ensures View() == old(View()).(localTripped := old(localTripped) + set id | id in tripped)
      ensures Overages(View()) == []
    {
      tripped := EvaluateOverages();
      for i := 0 to |tripped|
        invariant View() == old(View()).(localTripped := old(localTripped) + set id | id in tripped[..i])
      {
        MarkTripped(tripped[i]);
        assert tripped[..i + 1] == tripped[..i] + [tripped[i]];
      }
      assert tripped[..|tripped|] == tripped;
      TrippingAllIsAFixpoint(old(View()), View());
    }

    method AskLocked(name: string) returns (locked: bool)
      ensures locked == IsLocked(View(), name)
    {
      if snapshot.None? {
        return false;
      }
      var t := FindTool(snapshot.value.tools, name);
      match t
      case Some(tool) =>
        locked := tool.id in snapshot.value.lockedToolIds
                  || (tool.circuitId.Some? && tool.circuitId.value in localTripped);
      case None =>
        locked := name in snapshot.value.lockedToolIds;
    }
  }
}
