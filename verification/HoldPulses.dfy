/** The Open Access hold: a strike held released by momentary pulses, each sent
    before the last one ends and none outlasting the window. Instants are counted
    in clock units, `perMs` of them to the millisecond. */
module HoldPulses {
  import opened Wrappers
  import opened ResourcePolicy

  /** How often a held door's pulse is sent again: thirty seconds. */
  function HoldRefresh(perMs: int): int {
    30_000 * perMs
  }

  /** How far a pulse outlasts the refresh: fifteen seconds. */
  function HoldPulseMargin(perMs: int): int {
    15_000 * perMs
  }

  /** The pulse that keeps a door held now: it outlasts the refresh, is cut to
      whole milliseconds of what is left of the window, and is never zero. */
  function HoldPulseMs(until: Option<int>, now: int, refresh: int, perMs: int): Option<int>
    requires perMs >= 1
  {
    if until.None? || until.value - now <= 0 then None
    else Some(Max(Min(refresh + HoldPulseMargin(perMs), until.value - now) / perMs, 1))
  }

  datatype HoldPulse = HoldPulse(door: Uuid, ms: int)

  /** The doors held right now and the pulse each is due. */
  function HeldNow(entries: seq<Entry>, now: int, refresh: int, perMs: int): seq<HoldPulse>
    requires perMs >= 1
  {
    if |entries| == 0 then []
    else
      var n := |entries| - 1;
      var e := entries[n];
      var ms := if e.enabled then HoldPulseMs(e.holdUntil, now, refresh, perMs) else None;
      HeldNow(entries[..n], now, refresh, perMs) + if ms.Some? then [HoldPulse(e.id, ms.value)] else []
  }

  function DoorsIn(held: seq<HoldPulse>): set<Uuid> {
    set h | h in held :: h.door
  }

  /** The pulses of a pass, beside the instant of each door's latest. */
  datatype Outgoing = Outgoing(sent: map<Uuid, int>, out: seq<HoldPulse>)

  predicate IsDue(sent: map<Uuid, int>, door: Uuid, now: int, refresh: int) {
    door !in sent || now - sent[door] >= refresh
  }

  function SendIfDue(o: Outgoing, h: HoldPulse, now: int, refresh: int): Outgoing {
    if IsDue(o.sent, h.door, now, refresh) then Outgoing(o.sent[h.door := now], o.out + [h]) else o
  }

  function SendDue(sent: map<Uuid, int>, held: seq<HoldPulse>, now: int, refresh: int): Outgoing {
    if |held| == 0 then Outgoing(sent, [])
    else
      var n := |held| - 1;
      SendIfDue(SendDue(sent, held[..n], now, refresh), held[n], now, refresh)
  }

  function Retain(sent: map<Uuid, int>, doors: set<Uuid>): map<Uuid, int> {
    map d | d in sent && d in doors :: sent[d]
  }

  /** One pass: a door no longer held is forgotten, a held one is sent a pulse
      when its last is a refresh old. */
  function HoldTick(sent: map<Uuid, int>, entries: seq<Entry>, now: int, refresh: int, perMs: int): Outgoing
    requires perMs >= 1
  {
    var held := HeldNow(entries, now, refresh, perMs);
    SendDue(Retain(sent, DoorsIn(held)), held, now, refresh)
  }

  // ----- one door's share of a pass -------------------------------------

  function PulsesFor(out: seq<HoldPulse>, door: Uuid): seq<int> {
    if |out| == 0 then []
    else
      var n := |out| - 1;
      PulsesFor(out[..n], door) + if out[n].door == door then [out[n].ms] else []
  }

  /** What a pass has sent one door, given whether it has been reached as held. */
  ghost predicate SentToDoor(sent: map<Uuid, int>, o: Outgoing, isHeld: bool, door: Uuid, ms: int, now: int,
                             refresh: int)
  {
    var due := IsDue(sent, door, now, refresh);
    if isHeld then
      && door in o.sent
      && o.sent[door] == (if due then now else sent[door])
      && PulsesFor(o.out, door) == if due then [ms] else []
    else
      && (door in o.sent <==> door in sent) && (door in o.sent ==> o.sent[door] == sent[door])
      && PulsesFor(o.out, door) == []
  }

  lemma SendOneMore(sent: map<Uuid, int>, o: Outgoing, h: HoldPulse, isHeld: bool, door: Uuid, ms: int, now: int,
                    refresh: int)
    requires refresh > 0 && SentToDoor(sent, o, isHeld, door, ms, now, refresh)
    requires h.door == door ==> h.ms == ms
    ensures SentToDoor(sent, SendIfDue(o, h, now, refresh), isHeld || h.door == door, door, ms, now, refresh)
  {
    PulsesForAppend(o.out, h, door);
  }

  lemma {:induction false} SendDueOnDoor(sent: map<Uuid, int>, held: seq<HoldPulse>, now: int, refresh: int,
                                         door: Uuid, ms: int)
    requires refresh > 0
    requires forall h :: h in held && h.door == door ==> h.ms == ms
    ensures SentToDoor(sent, SendDue(sent, held, now, refresh), door in DoorsIn(held), door, ms, now, refresh)
  {
    if |held| > 0 {
      var n := |held| - 1;
      SendDueOnDoor(sent, held[..n], now, refresh, door, ms);
      assert held == held[..n] + [held[n]];
      assert DoorsIn(held) == DoorsIn(held[..n]) + {held[n].door};
      SendOneMore(sent, SendDue(sent, held[..n], now, refresh), held[n], door in DoorsIn(held[..n]), door, ms, now,
                  refresh);
    }
  }

  lemma PulsesForAppend(out: seq<HoldPulse>, h: HoldPulse, door: Uuid)
    ensures PulsesFor(out + [h], door) == PulsesFor(out, door) + if h.door == door then [h.ms] else []
  {
    assert (out + [h])[..|out|] == out;
  }

  /** The entry is the only one with its id. */
  ghost predicate OnlyEntry(entries: seq<Entry>, e: Entry) {
    e in entries && forall f :: f in entries && f.id == e.id ==> f == e
  }

  lemma {:induction false} HeldNowMeans(entries: seq<Entry>, now: int, refresh: int, perMs: int, h: HoldPulse)
    requires perMs >= 1
    ensures h in HeldNow(entries, now, refresh, perMs) <==>
            exists e :: e in entries && e.enabled && e.id == h.door
                        && HoldPulseMs(e.holdUntil, now, refresh, perMs) == Some(h.ms)
  {
    if |entries| > 0 {
      var n := |entries| - 1;
      HeldNowMeans(entries[..n], now, refresh, perMs, h);
      assert entries == entries[..n] + [entries[n]];
    }
  }

  /** What a pass does for one held door, whatever else the cache holds. */
  lemma HoldTickOnDoor(sent: map<Uuid, int>, entries: seq<Entry>, e: Entry, now: int, refresh: int, perMs: int)
    requires perMs >= 1 && refresh > 0 && OnlyEntry(entries, e) && e.enabled
    ensures var o, ms := HoldTick(sent, entries, now, refresh, perMs), HoldPulseMs(e.holdUntil, now, refresh, perMs);
            if ms.Some? then
              && e.id in o.sent
              && o.sent[e.id] == (if IsDue(sent, e.id, now, refresh) then now else sent[e.id])
              && PulsesFor(o.out, e.id) == if IsDue(sent, e.id, now, refresh) then [ms.value] else []
            else e.id !in o.sent && PulsesFor(o.out, e.id) == []
  {
    var held := HeldNow(entries, now, refresh, perMs);
    var ms := HoldPulseMs(e.holdUntil, now, refresh, perMs);
    forall h | h in held && h.door == e.id ensures ms == Some(h.ms) {
      HeldNowMeans(entries, now, refresh, perMs, h);
    }
    if ms.Some? {
      HeldNowMeans(entries, now, refresh, perMs, HoldPulse(e.id, ms.value));
      assert HoldPulse(e.id, ms.value) in held;
    }
    SendDueOnDoor(Retain(sent, DoorsIn(held)), held, now, refresh, e.id, ms.GetOr(0));
  }

  // ----- a run of passes ------------------------------------------------

  /** One pass of the loop: when, and over which policy. */
  datatype Pass = Pass(now: int, entries: seq<Entry>)

  /** A pulse as the strike receives it. */
  datatype SentPulse = SentPulse(at: int, ms: int)

  function SentAfter(sent: map<Uuid, int>, passes: seq<Pass>, perMs: int): map<Uuid, int>
    requires perMs >= 1
  {
    if |passes| == 0 then sent
    else
      var n := |passes| - 1;
      HoldTick(SentAfter(sent, passes[..n], perMs), passes[n].entries, passes[n].now, HoldRefresh(perMs), perMs).sent
  }

  function Timed(at: int, ms: seq<int>): seq<SentPulse> {
    seq(|ms|, i requires 0 <= i < |ms| => SentPulse(at, ms[i]))
  }

  /** Every pulse a run sends one door. */
  function PulsesSent(sent: map<Uuid, int>, passes: seq<Pass>, perMs: int, door: Uuid): seq<SentPulse>
    requires perMs >= 1
  {
    if |passes| == 0 then []
    else
      var n := |passes| - 1;
      var pass := passes[n];
      var o := HoldTick(SentAfter(sent, passes[..n], perMs), pass.entries, pass.now, HoldRefresh(perMs), perMs);
      PulsesSent(sent, passes[..n], perMs, door) + Timed(pass.now, PulsesFor(o.out, door))
  }

  /** The strike is released at `x` by one of the pulses. */
  ghost predicate Released(pulses: seq<SentPulse>, x: int, perMs: int) {
    exists k :: 0 <= k < |pulses| && pulses[k].at <= x < pulses[k].at + pulses[k].ms * perMs
  }

  /** The door keeps its entry through the run, passes come at most a margin
      apart, and the first finds the window open. */
  ghost predicate HeldThrough(passes: seq<Pass>, e: Entry, until: int, perMs: int) {
    && |passes| > 0 && e.enabled && e.holdUntil == Some(until) && passes[0].now < until
    && (forall i :: 0 <= i < |passes| ==> OnlyEntry(passes[i].entries, e))
    && (forall i :: 0 < i < |passes| ==> SoonAfter(passes, i, perMs))
  }

  /** The pass comes no more than the margin after the one before it. */
  predicate SoonAfter(passes: seq<Pass>, i: int, perMs: int)
    requires 0 < i < |passes|
  {
    passes[i - 1].now <= passes[i].now <= passes[i - 1].now + HoldPulseMargin(perMs)
  }

  lemma HeldThroughPrefix(passes: seq<Pass>, e: Entry, until: int, perMs: int)
    requires HeldThrough(passes, e, until, perMs) && |passes| > 1
    ensures var n := |passes| - 1;
            && HeldThrough(passes[..n], e, until, perMs)
            && passes[..n][n - 1].now <= passes[n].now <= passes[..n][n - 1].now + HoldPulseMargin(perMs)
  {
    var n := |passes| - 1;
    assert SoonAfter(passes, n, perMs);
    forall i | 0 < i < n ensures SoonAfter(passes[..n], i, perMs) {
      assert SoonAfter(passes, i, perMs);
    }
  }

  /** A pulse sent with `left` of the window to go, in clock units: long enough to
      reach the next refresh or to within a millisecond of the end, and no longer
      than what is left unless less than a millisecond was. */
  lemma PulseLength(until: int, now: int, perMs: int)
    requires perMs >= 1 && now < until
    ensures var ms := HoldPulseMs(Some(until), now, HoldRefresh(perMs), perMs).value;
            var left := until - now;
            && (left >= 45_000 * perMs ==> ms * perMs == 45_000 * perMs)
            && (left < 45_000 * perMs ==> ms * perMs > left - perMs)
            && (left >= perMs ==> ms * perMs <= left)
            && (left < perMs ==> ms == 1)
            && (left % perMs == 0 && left <= 45_000 * perMs ==> ms * perMs == left)
  {
    var left := until - now;
    var length := Min(45_000 * perMs, left);
    assert HoldRefresh(perMs) + HoldPulseMargin(perMs) == 45_000 * perMs;
    var q := length / perMs;
    Quotient(length, perMs);
    if left >= 45_000 * perMs {
      QuotientIs(length, 45_000, perMs);
    } else if left < perMs {
      QuotientIs(length, 0, perMs);
    } else if q < 1 {
      Times(q, 0, perMs);
    }
  }

  lemma Times(a: int, b: int, perMs: int)
    requires perMs >= 1 && a <= b
    ensures a * perMs <= b * perMs
  {
    assert (b - a) * perMs >= 0;
  }

  lemma Quotient(x: int, perMs: int)
    requires perMs >= 1
    ensures (x / perMs) * perMs <= x < (x / perMs) * perMs + perMs
    ensures x % perMs == 0 ==> (x / perMs) * perMs == x
  {
    assert x == (x / perMs) * perMs + x % perMs;
  }

  lemma QuotientIs(x: int, q: int, perMs: int)
    requires perMs >= 1 && q * perMs <= x < q * perMs + perMs
    ensures x / perMs == q
  {
    var r := x / perMs;
    Quotient(x, perMs);
    if r < q {
      Times(r + 1, q, perMs);
    } else if r > q {
      Times(q + 1, r, perMs);
    }
  }

  // ----- the window is covered ------------------------------------------

  /** Where a run stands: its last pulse, and everything up to it released. */
  ghost predicate CoveredTo(pulses: seq<SentPulse>, first: int, last: SentPulse, until: int, perMs: int) {
    && perMs >= 1
    && |pulses| > 0 && pulses[|pulses| - 1] == last && first <= last.at < until
    && (forall k :: 0 <= k < |pulses| ==>
                    && first <= pulses[k].at < until
                    && HoldPulseMs(Some(until), pulses[k].at, HoldRefresh(perMs), perMs) == Some(pulses[k].ms))
    && (forall x :: first <= x <= last.at && x <= until - perMs ==> Released(pulses, x, perMs))
  }

  lemma ReleasedGrows(pulses: seq<SentPulse>, more: seq<SentPulse>, x: int, perMs: int)
    requires Released(pulses, x, perMs)
    ensures Released(pulses + more, x, perMs)
  {
    var k :| 0 <= k < |pulses| && pulses[k].at <= x < pulses[k].at + pulses[k].ms * perMs;
    assert (pulses + more)[k] == pulses[k];
  }

  /** One pass more of a run, seen from a door that is held. */
  lemma RunOnDoor(sent: map<Uuid, int>, passes: seq<Pass>, e: Entry, until: int, perMs: int)
    requires perMs >= 1 && |passes| > 0 && e.enabled && e.holdUntil == Some(until)
    requires OnlyEntry(passes[|passes| - 1].entries, e)
    ensures var n := |passes| - 1;
            var now, before, after := passes[n].now, SentAfter(sent, passes[..n], perMs), SentAfter(sent, passes,
                perMs);
            var pulses := PulsesSent(sent, passes[..n], perMs, e.id);
            var due := IsDue(before, e.id, now, HoldRefresh(perMs));
            var ms := HoldPulseMs(Some(until), now, HoldRefresh(perMs), perMs);
            if now < until then
              && e.id in after && after[e.id] == (if due then now else before[e.id])
              && PulsesSent(sent, passes, perMs, e.id) == if due then pulses + [SentPulse(now, ms.value)] else pulses
            else PulsesSent(sent, passes, perMs, e.id) == pulses
  {
    var n := |passes| - 1;
    var now, before := passes[n].now, SentAfter(sent, passes[..n], perMs);
    HoldTickOnDoor(before, passes[n].entries, e, now, HoldRefresh(perMs), perMs);
    var o := HoldTick(before, passes[n].entries, now, HoldRefresh(perMs), perMs);
    var mine := PulsesFor(o.out, e.id);
    if |mine| == 0 {
      assert Timed(now, mine) == [];
    } else {
      assert Timed(now, mine) == [SentPulse(now, mine[0])];
    }
  }

  /** Where a run that is still inside the window leaves the door: its last pulse
      is remembered, is younger than a refresh, and has kept it covered so far. */
  ghost predicate Standing(sent: map<Uuid, int>, passes: seq<Pass>, e: Entry, until: int, perMs: int, last: SentPulse)
    requires |passes| > 0
  {
    && perMs >= 1
    && CoveredTo(PulsesSent(sent, passes, perMs, e.id), passes[0].now, last, until, perMs)
    && e.id in SentAfter(sent, passes, perMs) && SentAfter(sent, passes, perMs)[e.id] == last.at
    && 0 <= passes[|passes| - 1].now - last.at < HoldRefresh(perMs)
  }

  /** Until the window ends, the last pulse is always younger than a refresh, and
      everything before it that is a millisecond clear of the end is released. */
  lemma {:induction false} RunCovers(sent: map<Uuid, int>, passes: seq<Pass>, e: Entry, until: int, perMs: int)
    returns (last: SentPulse)
    requires perMs >= 1 && e.id !in sent && HeldThrough(passes, e, until, perMs)
    requires passes[|passes| - 1].now < until
    ensures Standing(sent, passes, e, until, perMs, last)
  {
    if |passes| == 1 {
      RunOnDoor(sent, passes, e, until, perMs);
      last := SentPulse(passes[0].now, HoldPulseMs(Some(until), passes[0].now, HoldRefresh(perMs), perMs).value);
      FirstPulseCovers(last, until, perMs);
    } else {
      HeldThroughPrefix(passes, e, until, perMs);
      last := RunCovers(sent, passes[..|passes| - 1], e, until, perMs);
      last := StillStanding(sent, passes, e, until, perMs, last);
    }
  }

  lemma StillStanding(sent: map<Uuid, int>, passes: seq<Pass>, e: Entry, until: int, perMs: int, last: SentPulse)
    returns (newest: SentPulse)
    requires |passes| > 1 && Standing(sent, passes[..|passes| - 1], e, until, perMs, last)
    requires e.enabled && e.holdUntil == Some(until) && OnlyEntry(passes[|passes| - 1].entries, e)
    requires var n := |passes| - 1;
             passes[n - 1].now <= passes[n].now <= passes[n - 1].now + HoldPulseMargin(perMs) && passes[n].now < until
    ensures Standing(sent, passes, e, until, perMs, newest)
  {
    var n := |passes| - 1;
    var now, before := passes[n].now, passes[..n];
    RunOnDoor(sent, passes, e, until, perMs);
    newest := last;
    if now - last.at >= HoldRefresh(perMs) {
      newest := SentPulse(now, HoldPulseMs(Some(until), now, HoldRefresh(perMs), perMs).value);
      NextPulseCovers(PulsesSent(sent, before, perMs, e.id), passes[0].now, last, newest, until, perMs);
    }
  }

  lemma FirstPulseCovers(pulse: SentPulse, until: int, perMs: int)
    requires perMs >= 1 && pulse.at < until
    requires HoldPulseMs(Some(until), pulse.at, HoldRefresh(perMs), perMs) == Some(pulse.ms)
    ensures CoveredTo([pulse], pulse.at, pulse, until, perMs)
  {
    PulseLength(until, pulse.at, perMs);
    assert pulse.ms >= 1;
    Times(1, pulse.ms, perMs);
    assert [pulse][0] == pulse;
    assert Released([pulse], pulse.at, perMs);
  }

  lemma NextPulseCovers(pulses: seq<SentPulse>, first: int, last: SentPulse, next: SentPulse, until: int, perMs: int)
    requires CoveredTo(pulses, first, last, until, perMs)
    requires last.at <= next.at < until && next.at - last.at < 45_000 * perMs
    requires HoldPulseMs(Some(until), next.at, HoldRefresh(perMs), perMs) == Some(next.ms)
    ensures CoveredTo(pulses + [next], first, next, until, perMs)
  {
    forall x | first <= x <= next.at && x <= until - perMs
      ensures Released(pulses + [next], x, perMs)
    {
      if x <= last.at {
        ReleasedGrows(pulses, [next], x, perMs);
      } else {
        PulseLength(until, last.at, perMs);
        assert pulses[|pulses| - 1].at <= x < pulses[|pulses| - 1].at + pulses[|pulses| - 1].ms * perMs;
        ReleasedGrows(pulses, [next], x, perMs);
      }
    }
  }

  // ----- the hold covers the window -------------------------------------

  /** A run that has reached the end of the window: its last pulse was sent less
      than a full pulse before the end, and passes after the end send nothing. */
  lemma {:induction false} RunToTheEnd(sent: map<Uuid, int>, passes: seq<Pass>, e: Entry, until: int, perMs: int)
    returns (last: SentPulse)
    requires perMs >= 1 && e.id !in sent && HeldThrough(passes, e, until, perMs)
    requires passes[|passes| - 1].now >= until
    ensures CoveredTo(PulsesSent(sent, passes, perMs, e.id), passes[0].now, last, until, perMs)
    ensures until - last.at < 45_000 * perMs
  {
    var n := |passes| - 1;
    HeldThroughPrefix(passes, e, until, perMs);
    RunOnDoor(sent, passes, e, until, perMs);
    if passes[n - 1].now >= until {
      last := RunToTheEnd(sent, passes[..n], e, until, perMs);
    } else {
      last := RunCovers(sent, passes[..n], e, until, perMs);
    }
  }

  /** Some pulse went out in the window's last millisecond. */
  ghost predicate SentAtTheLast(pulses: seq<SentPulse>, until: int, perMs: int) {
    exists k :: 0 <= k < |pulses| && 0 < until - pulses[k].at < perMs
  }

  /** Open Access holds the strike: from the first pass to the end of the window,
      every instant at least a millisecond before the end is released; nothing
      before the first pass is, and nothing at or past the end is but by a pulse
      sent in the window's last millisecond. */
  lemma HoldCoversTheWindow(sent: map<Uuid, int>, passes: seq<Pass>, e: Entry, until: int, perMs: int)
    requires perMs >= 1 && e.id !in sent && HeldThrough(passes, e, until, perMs)
    requires passes[|passes| - 1].now >= until
    ensures var pulses, first := PulsesSent(sent, passes, perMs, e.id), passes[0].now;
            && (forall x :: first <= x <= until - perMs ==> Released(pulses, x, perMs))
            && (forall x :: Released(pulses, x, perMs) ==>
                  && first <= x < until + perMs
                  && (x >= until ==> SentAtTheLast(pulses, until, perMs)))
  {
    var last := RunToTheEnd(sent, passes, e, until, perMs);
    LastPulseReachesTheEnd(PulsesSent(sent, passes, perMs, e.id), passes[0].now, last, until, perMs);
    NothingPastTheEnd(PulsesSent(sent, passes, perMs, e.id), passes[0].now, last, until, perMs);
  }

  lemma LastPulseReachesTheEnd(pulses: seq<SentPulse>, first: int, last: SentPulse, until: int, perMs: int)
    requires CoveredTo(pulses, first, last, until, perMs) && until - last.at < 45_000 * perMs
    ensures forall x :: first <= x <= until - perMs ==> Released(pulses, x, perMs)
  {
    forall x | first <= x <= until - perMs ensures Released(pulses, x, perMs) {
      if x > last.at {
        PulseLength(until, last.at, perMs);
        assert pulses[|pulses| - 1].at <= x < pulses[|pulses| - 1].at + pulses[|pulses| - 1].ms * perMs;
      }
    }
  }

  lemma NothingPastTheEnd(pulses: seq<SentPulse>, first: int, last: SentPulse, until: int, perMs: int)
    requires CoveredTo(pulses, first, last, until, perMs)
    ensures forall x :: Released(pulses, x, perMs) ==>
              && first <= x < until + perMs
              && (x >= until ==> SentAtTheLast(pulses, until, perMs))
  {
    forall x | Released(pulses, x, perMs)
      ensures first <= x < until + perMs
      ensures x >= until ==> SentAtTheLast(pulses, until, perMs)
    {
      var k :| 0 <= k < |pulses| && pulses[k].at <= x < pulses[k].at + pulses[k].ms * perMs;
      PulseLength(until, pulses[k].at, perMs);
      assert x >= until ==> 0 < until - pulses[k].at < perMs;
    }
  }
}
