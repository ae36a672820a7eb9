/** Exactly when the hold releases the strike for the window and for nothing else,
    in terms of the passes that send a pulse. */
module HoldExactness {
  import opened Wrappers
  import opened ResourcePolicy
  import opened HoldPulses

  // ----- the passes that send -------------------------------------------------

  /** When a run sends a door held until `until` a pulse: at its first pass, then at
      each first pass a refresh after the last that sent, while the window is open. */
  function Senders(passes: seq<Pass>, until: int, perMs: int): seq<int> {
    if |passes| == 0 then []
    else
      var before, now := Senders(passes[..|passes| - 1], until, perMs), passes[|passes| - 1].now;
      if now < until && (|before| == 0 || now - before[|before| - 1] >= HoldRefresh(perMs)) then before + [now]
      else before
  }

  /** The pulse a pass at this instant sends. */
  function PulseAt(at: int, until: int, perMs: int): SentPulse
    requires perMs >= 1 && at < until
  {
    SentPulse(at, HoldPulseMs(Some(until), at, HoldRefresh(perMs), perMs).value)
  }

  ghost predicate PulsesOf(pulses: seq<SentPulse>, senders: seq<int>, until: int, perMs: int)
    requires perMs >= 1
  {
    && |pulses| == |senders|
    && forall k :: 0 <= k < |senders| ==> senders[k] < until && pulses[k] == PulseAt(senders[k], until, perMs)
  }

  lemma FirstSender(sent: map<Uuid, int>, passes: seq<Pass>, e: Entry, until: int, perMs: int)
    requires perMs >= 1 && e.id !in sent && HeldThrough(passes, e, until, perMs) && |passes| == 1
    ensures PulsesOf(PulsesSent(sent, passes, perMs, e.id), Senders(passes, until, perMs), until, perMs)
    ensures Senders(passes, until, perMs) == [passes[0].now]
    ensures e.id in SentAfter(sent, passes, perMs) && SentAfter(sent, passes, perMs)[e.id] == passes[0].now
  {
    RunOnDoor(sent, passes, e, until, perMs);
    assert passes[..0] == [];
    assert PulsesSent(sent, passes, perMs, e.id) == [PulseAt(passes[0].now, until, perMs)];
  }

  /** What a run has sent a door and remembers of it, and the senders it stands for. */
  ghost predicate Stands(pulses: seq<SentPulse>, after: map<Uuid, int>, senders: seq<int>, door: Uuid, last: int,
                         until: int, perMs: int)
    requires perMs >= 1
  {
    && PulsesOf(pulses, senders, until, perMs)
    && |senders| > 0
    && (last < until ==> door in after && after[door] == senders[|senders| - 1])
  }

  lemma OneMoreSender(pulses: seq<SentPulse>, senders: seq<int>, now: int, until: int, perMs: int)
    requires perMs >= 1 && now < until && PulsesOf(pulses, senders, until, perMs)
    ensures PulsesOf(pulses + [PulseAt(now, until, perMs)], senders + [now], until, perMs)
  {
  }

  lemma NextSender(sent: map<Uuid, int>, passes: seq<Pass>, e: Entry, until: int, perMs: int)
    requires perMs >= 1 && |passes| > 1 && HeldThrough(passes, e, until, perMs)
    requires var before := passes[..|passes| - 1];
             Stands(PulsesSent(sent, before, perMs, e.id), SentAfter(sent, before, perMs), Senders(before, until,
                 perMs),
                    e.id, before[|before| - 1].now, until, perMs)
    ensures Stands(PulsesSent(sent, passes, perMs, e.id), SentAfter(sent, passes, perMs), Senders(passes, until, perMs),
                   e.id, passes[|passes| - 1].now, until, perMs)
  {
    var before, now := passes[..|passes| - 1], passes[|passes| - 1].now;
    HeldThroughPrefix(passes, e, until, perMs);
    RunOnDoor(sent, passes, e, until, perMs);
    var pulses, senders := PulsesSent(sent, before, perMs, e.id), Senders(before, until, perMs);
    if now < until {
      assert IsDue(SentAfter(sent, before, perMs), e.id, now, HoldRefresh(perMs))
        <==> now - senders[|senders| - 1] >= HoldRefresh(perMs);
      OneMoreSender(pulses, senders, now, until, perMs);
    }
  }

  /** The door's pulses are those of the senders, and the last sender is the one the
      cache remembers while the window is open. */
  lemma {:induction false} PulsesAreTheSenders(sent: map<Uuid, int>, passes: seq<Pass>, e: Entry, until: int,
                                               perMs: int)
    requires perMs >= 1 && e.id !in sent && HeldThrough(passes, e, until, perMs)
    ensures Stands(PulsesSent(sent, passes, perMs, e.id), SentAfter(sent, passes, perMs), Senders(passes, until, perMs),
                   e.id, passes[|passes| - 1].now, until, perMs)
  {
    if |passes| == 1 {
      FirstSender(sent, passes, e, until, perMs);
    } else {
      HeldThroughPrefix(passes, e, until, perMs);
      PulsesAreTheSenders(sent, passes[..|passes| - 1], e, until, perMs);
      NextSender(sent, passes, e, until, perMs);
    }
  }

  lemma {:induction false} SendersArePasses(passes: seq<Pass>, until: int, perMs: int, at: int)
    requires at in Senders(passes, until, perMs)
    ensures exists i :: 0 <= i < |passes| && passes[i].now == at
  {
    var n := |passes| - 1;
    if at in Senders(passes[..n], until, perMs) {
      SendersArePasses(passes[..n], until, perMs, at);
      var i :| 0 <= i < n && passes[..n][i].now == at;
      assert passes[i].now == at;
    } else {
      assert passes[n].now == at;
    }
  }

  // ----- the law -----------------------------------------------------------------

  predicate IsWhole(left: int, perMs: int)
    requires perMs >= 1
  {
    left % perMs == 0
  }

  /** This sender's pulse runs to the very end: it is sent a whole number of
      milliseconds before, and no more than a full pulse. */
  predicate RunsToTheEnd(at: int, until: int, perMs: int)
    requires perMs >= 1
  {
    until - at <= 45_000 * perMs && IsWhole(until - at, perMs)
  }

  /** This sender's pulse outlasts the window: it is sent in its last millisecond. */
  predicate RunsOver(at: int, until: int, perMs: int) {
    until - at < perMs
  }

  ghost predicate EndsOnTheDot(senders: seq<int>, until: int, perMs: int)
    requires perMs >= 1
  {
    (exists at :: at in senders && RunsToTheEnd(at, until, perMs))
    && forall at :: at in senders ==> !RunsOver(at, until, perMs)
  }

  /** Where a pulse ends: at the window's end exactly when it is whole milliseconds
      and no more than a full pulse away, and past it only from the last millisecond. */
  lemma PulseEnd(at: int, until: int, perMs: int)
    requires perMs >= 1 && at < until
    ensures var end := at + PulseAt(at, until, perMs).ms * perMs;
            && (end == until <==> RunsToTheEnd(at, until, perMs))
            && (end > until <==> RunsOver(at, until, perMs))
            && end > at
  {
    PulseLength(until, at, perMs);
    var ms := PulseAt(at, until, perMs).ms;
    Times(1, ms, perMs);
    if ms * perMs == until - at {
      ProductIsWhole(ms, perMs);
    }
    if IsWhole(until - at, perMs) {
      WholeMillisecondsApart(until - at, perMs);
    }
  }

  lemma ProductIsWhole(ms: int, perMs: int)
    requires perMs >= 1
    ensures IsWhole(ms * perMs, perMs)
  {
  }

  /** A whole number of milliseconds less than one is none. */
  lemma WholeMillisecondsApart(left: int, perMs: int)
    requires perMs >= 1 && left > 0 && IsWhole(left, perMs)
    ensures left >= perMs
  {
  }

  /** The strike is released for the window from `first` on and at no other time. */
  ghost predicate IsExact(pulses: seq<SentPulse>, first: int, until: int, perMs: int) {
    forall x :: Released(pulses, x, perMs) <==> first <= x < until
  }

  lemma PulseOfSender(pulses: seq<SentPulse>, senders: seq<int>, until: int, perMs: int, k: int)
    requires perMs >= 1 && PulsesOf(pulses, senders, until, perMs) && 0 <= k < |pulses|
    ensures senders[k] in senders && senders[k] < until && pulses[k] == PulseAt(senders[k], until, perMs)
  {
  }

  lemma ExactEndsOnTheDot(pulses: seq<SentPulse>, senders: seq<int>, first: int, until: int, perMs: int)
    requires perMs >= 1 && first < until && PulsesOf(pulses, senders, until, perMs)
    requires IsExact(pulses, first, until, perMs)
    ensures EndsOnTheDot(senders, until, perMs)
  {
    assert !Released(pulses, until, perMs) && Released(pulses, until - 1, perMs);
    forall at | at in senders ensures !RunsOver(at, until, perMs) {
      var k :| 0 <= k < |senders| && senders[k] == at;
      PulseOfSender(pulses, senders, until, perMs, k);
      PulseEnd(at, until, perMs);
    }
    var k :| 0 <= k < |pulses| && pulses[k].at <= until - 1 < pulses[k].at + pulses[k].ms * perMs;
    PulseOfSender(pulses, senders, until, perMs, k);
    PulseEnd(senders[k], until, perMs);
  }

  lemma OnTheDotIsExact(pulses: seq<SentPulse>, senders: seq<int>, first: int, until: int, perMs: int)
    requires perMs >= 1 && PulsesOf(pulses, senders, until, perMs) && EndsOnTheDot(senders, until, perMs)
    requires forall x :: first <= x <= until - perMs ==> Released(pulses, x, perMs)
    requires forall x :: Released(pulses, x, perMs) ==> first <= x
    ensures IsExact(pulses, first, until, perMs)
  {
    forall x ensures Released(pulses, x, perMs) <==> first <= x < until {
      if Released(pulses, x, perMs) {
        var k :| 0 <= k < |pulses| && pulses[k].at <= x < pulses[k].at + pulses[k].ms * perMs;
        PulseOfSender(pulses, senders, until, perMs, k);
        PulseEnd(senders[k], until, perMs);
      } else if until - perMs < x < until {
        var at :| at in senders && RunsToTheEnd(at, until, perMs);
        var k :| 0 <= k < |senders| && senders[k] == at;
        PulseOfSender(pulses, senders, until, perMs, k);
        PulseEnd(at, until, perMs);
        WholeMillisecondsApart(until - at, perMs);
      }
    }
  }

  /** The hold's exactness: over a run of passes at most fifteen seconds apart that
      reaches the window's end, the strike is released from the first pass to the
      end and at no other time exactly when some pass that sends does so a whole
      number of milliseconds before the end, no more than a full pulse, and none
      does so in the last millisecond. */
  lemma HoldExactness(sent: map<Uuid, int>, passes: seq<Pass>, e: Entry, until: int, perMs: int)
    requires perMs >= 1 && e.id !in sent && HeldThrough(passes, e, until, perMs)
    requires passes[|passes| - 1].now >= until
    ensures IsExact(PulsesSent(sent, passes, perMs, e.id), passes[0].now, until, perMs)
       <==> EndsOnTheDot(Senders(passes, until, perMs), until, perMs)
  {
    var pulses, senders, first := PulsesSent(sent, passes, perMs, e.id), Senders(passes, until, perMs), passes[0].now;
    PulsesAreTheSenders(sent, passes, e, until, perMs);
    var last := RunToTheEnd(sent, passes, e, until, perMs);
    LastPulseReachesTheEnd(pulses, first, last, until, perMs);
    NothingPastTheEnd(pulses, first, last, until, perMs);
    if IsExact(pulses, first, until, perMs) {
      ExactEndsOnTheDot(pulses, senders, first, until, perMs);
    }
    if EndsOnTheDot(senders, until, perMs) {
      OnTheDotIsExact(pulses, senders, first, until, perMs);
    }
  }

  lemma SenderIsWhole(passes: seq<Pass>, until: int, perMs: int, at: int)
    requires perMs >= 1 && at in Senders(passes, until, perMs) && at < until
    requires forall i :: 0 <= i < |passes| ==> IsWhole(until - passes[i].now, perMs)
    ensures IsWhole(until - at, perMs) && !RunsOver(at, until, perMs)
  {
    SendersArePasses(passes, until, perMs, at);
    var i :| 0 <= i < |passes| && passes[i].now == at;
    assert IsWhole(until - passes[i].now, perMs);
    WholeMillisecondsApart(until - at, perMs);
  }

  lemma WholePassesEndOnTheDot(sent: map<Uuid, int>, passes: seq<Pass>, e: Entry, until: int, perMs: int)
    requires perMs >= 1 && e.id !in sent && HeldThrough(passes, e, until, perMs)
    requires passes[|passes| - 1].now >= until
    requires forall i :: 0 <= i < |passes| ==> IsWhole(until - passes[i].now, perMs)
    ensures EndsOnTheDot(Senders(passes, until, perMs), until, perMs)
  {
    var pulses, senders := PulsesSent(sent, passes, perMs, e.id), Senders(passes, until, perMs);
    PulsesAreTheSenders(sent, passes, e, until, perMs);
    forall at | at in senders ensures !RunsOver(at, until, perMs) {
      var k :| 0 <= k < |senders| && senders[k] == at;
      PulseOfSender(pulses, senders, until, perMs, k);
      SenderIsWhole(passes, until, perMs, at);
    }
    var last := RunToTheEnd(sent, passes, e, until, perMs);
    PulseOfSender(pulses, senders, until, perMs, |senders| - 1);
    SenderIsWhole(passes, until, perMs, last.at);
    assert RunsToTheEnd(last.at, until, perMs);
  }

  /** On a millisecond clock, and wherever every pass falls a whole number of
      milliseconds before the end, the hold is exact. */
  lemma HoldIsExactOnWholeMilliseconds(sent: map<Uuid, int>, passes: seq<Pass>, e: Entry, until: int, perMs: int,
                                       x: int)
    requires perMs >= 1 && e.id !in sent && HeldThrough(passes, e, until, perMs)
    requires passes[|passes| - 1].now >= until
    requires forall i :: 0 <= i < |passes| ==> IsWhole(until - passes[i].now, perMs)
    ensures Released(PulsesSent(sent, passes, perMs, e.id), x, perMs) <==> passes[0].now <= x < until
  {
    WholePassesEndOnTheDot(sent, passes, e, until, perMs);
    HoldExactness(sent, passes, e, until, perMs);
  }

  // ----- two runs off the grid ------------------------------------------------------

  /** Where it fails: half a millisecond off the grid, the one pulse is cut short and
      leaves the strike closed for the half millisecond before the end. */
  lemma FinerClockLeavesASliver(e: Entry, passes: seq<Pass>)
    requires e.enabled && e.holdUntil == Some(21)
    requires passes == [Pass(0, [e]), Pass(30, [e])]
    ensures HeldThrough(passes, e, 21, 2) && passes[1].now >= 21
    ensures !Released(PulsesSent(map[], passes, 2, e.id), 20, 2)
  {
    RunOnDoor(map[], passes[..1], e, 21, 2);
    RunOnDoor(map[], passes, e, 21, 2);
    assert passes[..1][..0] == [];
    assert PulsesSent(map[], passes, 2, e.id) == [SentPulse(0, 10)];
  }

  lemma OneSender(e: Entry)
    ensures Senders([Pass(1, [e]), Pass(4, [e]), Pass(30, [e])], 21, 2) == [1]
  {
    var passes, two := [Pass(1, [e]), Pass(4, [e]), Pass(30, [e])], [Pass(1, [e]), Pass(4, [e])];
    assert passes[..2] == two && two[..1] == [Pass(1, [e])] && [Pass(1, [e])][..0] == [];
    assert Senders([Pass(1, [e])], 21, 2) == [1];
    assert Senders(two, 21, 2) == [1];
  }

  lemma OneSenderHolds(e: Entry, passes: seq<Pass>)
    requires e.enabled && e.holdUntil == Some(21)
    requires passes == [Pass(1, [e]), Pass(4, [e]), Pass(30, [e])]
    ensures HeldThrough(passes, e, 21, 2) && passes[2].now >= 21
  {
  }

  /** And where it holds all the same: the second pass falls off the grid too, but
      it does not send, and the one that does falls on it. */
  lemma OffTheGridAndExact(e: Entry, passes: seq<Pass>)
    requires e.enabled && e.holdUntil == Some(21)
    requires passes == [Pass(1, [e]), Pass(4, [e]), Pass(30, [e])]
    ensures !IsWhole(21 - passes[1].now, 2)
    ensures IsExact(PulsesSent(map[], passes, 2, e.id), 1, 21, 2)
  {
    OneSender(e);
    OneSenderHolds(e, passes);
    assert IsWhole(21 - 1, 2) && RunsToTheEnd(1, 21, 2);
    assert 1 in [1];
    HoldExactness(map[], passes, e, 21, 2);
  }
}
