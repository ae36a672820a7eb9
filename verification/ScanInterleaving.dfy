/** A badge against stores that change while it is decided. A scan reads the power, the
    wiring and the policy each under its own lock, one after another, and an opening
    reads the wiring and the policy before it writes; anything may be written between.
    Which mixture of instants the answer reflects, and when it is not the answer of any. */
module ScanInterleaving {
  import opened Wrappers
  import opened ResourcePolicy
  import LeaseEngine
  import PowerState
  import ResourceCache

  /** What is locked separately. */
  datatype Stores = Stores(power: PowerState.PowerStore, wiring: LeaseEngine.Store, policy: Policy)

  /** The badge: which resource, which card, and when by the edge's clock. */
  datatype Badge = Badge(name: string, token: string, now: int)

  datatype Task =
    | Asked(badge: Badge)
    | PastPower(badge: Badge)
    | PastWiring(badge: Badge, wired: Option<Wired>)
    | Answered(badge: Badge, answer: ScanDecision)
    | Opening(badge: Badge)
    | OpeningWired(badge: Badge, wired: Option<Wired>)
    | OpeningUntil(badge: Badge, end: Option<int>)

  datatype World = World(stores: Stores, tasks: map<nat, Task>)

  datatype Event =
    | Becomes(stores: Stores)
    | Asks(task: nat, badge: Badge)
    | ReadsPower(task: nat)
    | ReadsWiring(task: nat)
    | ReadsPolicy(task: nat)
    | Opens(task: nat, badge: Badge)
    | Writes(task: nat)

  predicate MayHappen(w: World, e: Event) {
    match e
    case Becomes(_) => true
    case Asks(task, _) => task !in w.tasks
    case ReadsPower(task) => task in w.tasks && w.tasks[task].Asked?
    case ReadsWiring(task) => task in w.tasks && (w.tasks[task].PastPower? || w.tasks[task].Opening?)
    case ReadsPolicy(task) => task in w.tasks && (w.tasks[task].PastWiring? || w.tasks[task].OpeningWired?)
    case Opens(task, _) => task !in w.tasks
    case Writes(task) => task in w.tasks && w.tasks[task].OpeningUntil?
  }

  predicate IsLockedOut(s: Stores, b: Badge) {
    PowerState.IsLocked(s.power, b.name)
  }

  function WiredIn(s: Stores, b: Badge): Option<Wired> {
    ResourceCache.WiredAs(LeaseEngine.ResourceIn(s.wiring, b.name))
  }

  /** When a session opened on the badge ends by itself. */
  function EndOf(p: Policy, wired: Option<Wired>, b: Badge): Option<int> {
    SessionEnd(ResolvedFrom(p.entries, wired, b.name), b.now)
  }

  /** The answer with all three read at once. */
  function AnswerIn(s: Stores, b: Badge): ScanDecision {
    Decide(s.policy, IsLockedOut(s, b), WiredIn(s, b), b.name, b.token, b.now)
  }

  function Happen(w: World, e: Event): World
    requires MayHappen(w, e)
  {
    match e
    case Becomes(stores) => w.(stores := stores)
    case Asks(task, badge) => w.(tasks := w.tasks[task := Asked(badge)])
    case ReadsPower(task) =>
      var b := w.tasks[task].badge;
      w.(tasks := w.tasks[task := if IsLockedOut(w.stores, b) then Answered(b, Deny(LOCKED_OUT)) else PastPower(b)])
    case ReadsWiring(task) =>
      var b := w.tasks[task].badge;
      var wired := WiredIn(w.stores, b);
      w.(tasks := w.tasks[task := if w.tasks[task].Opening? then OpeningWired(b, wired) else PastWiring(b, wired)])
    case ReadsPolicy(task) =>
      var b, wired, policy := w.tasks[task].badge, w.tasks[task].wired, w.stores.policy;
      w.(tasks := w.tasks[task :=
        if w.tasks[task].OpeningWired? then OpeningUntil(b, EndOf(policy, wired, b))
        else Answered(b, Decide(policy, false, wired, b.name, b.token, b.now))])
    case Opens(task, badge) => w.(tasks := w.tasks[task := Opening(badge)])
    case Writes(task) =>
      var t := w.tasks[task];
      World(w.stores.(wiring := LeaseEngine.OpenSession(w.stores.wiring, t.badge.name, t.badge.now, t.end)),
            w.tasks - {task})
  }

  datatype Instant = Instant(before: World, event: Event)

  type Run = seq<Instant>

  ghost predicate IsRun(s: Stores, r: Run)
    decreases |r|, 0
  {
    |r| > 0 ==>
      var n := |r| - 1;
      IsRun(s, r[..n]) && r[n].before == Last(s, r[..n]) && MayHappen(r[n].before, r[n].event)
  }

  ghost function Last(s: Stores, r: Run): World
    requires IsRun(s, r)
    decreases |r|, 1
  {
    if |r| == 0 then World(s, map[]) else Happen(r[|r| - 1].before, r[|r| - 1].event)
  }

  lemma Extend(s: Stores, r: Run, e: Event)
    requires IsRun(s, r) && MayHappen(Last(s, r), e)
    ensures IsRun(s, r + [Instant(Last(s, r), e)])
    ensures Last(s, r + [Instant(Last(s, r), e)]) == Happen(Last(s, r), e)
  {
    assert (r + [Instant(Last(s, r), e)])[..|r|] == r;
  }

  // ----- which mixture -------------------------------------------------------------

  function At(r: Run, n: nat): Stores
    requires n < |r|
  {
    r[n].before.stores
  }

  /** Asked at `a`, the badge found the power unlocked at `p`. */
  ghost predicate Unlocked(r: Run, b: Badge, task: nat, a: nat, p: nat) {
    a < p < |r| && r[a].event == Asks(task, b) && !IsLockedOut(At(r, p), b)
  }

  /** The answer is a lockout found at `p`, or that of the policy at `q` for a resource
      unlocked at `p` and wired as at `w`. */
  ghost predicate Mixes(r: Run, b: Badge, answer: ScanDecision, task: nat, a: nat, p: nat, w: nat, q: nat) {
    && a < p <= w <= q < |r| && r[a].event == Asks(task, b)
    && if IsLockedOut(At(r, p), b) then p == q && answer == Deny(LOCKED_OUT)
       else answer == Decide(At(r, q).policy, false, WiredIn(At(r, w), b), b.name, b.token, b.now)
  }

  /** The session ends as the policy at `q` says of the resource wired as at `w`. */
  ghost predicate MixesEnd(r: Run, b: Badge, end: Option<int>, task: nat, a: nat, w: nat, q: nat) {
    && a < w <= q < |r| && r[a].event == Opens(task, b)
    && end == EndOf(At(r, q).policy, WiredIn(At(r, w), b), b)
  }

  ghost predicate Explains(r: Run, t: Task, task: nat) {
    match t
    case Asked(b) => exists a: nat :: a < |r| && r[a].event == Asks(task, b)
    case PastPower(b) => exists a: nat, p: nat :: Unlocked(r, b, task, a, p)
    case PastWiring(b, wired) =>
      exists a: nat, p: nat, w: nat :: Unlocked(r, b, task, a, p) && p <= w < |r| && wired == WiredIn(At(r, w), b)
    case Answered(b, answer) => exists a: nat, p: nat, w: nat, q: nat :: Mixes(r, b, answer, task, a, p, w, q)
    case Opening(b) => exists a: nat :: a < |r| && r[a].event == Opens(task, b)
    case OpeningWired(b, wired) =>
      exists a: nat, w: nat :: a < w < |r| && r[a].event == Opens(task, b) && wired == WiredIn(At(r, w), b)
    case OpeningUntil(b, end) => exists a: nat, w: nat, q: nat :: MixesEnd(r, b, end, task, a, w, q)
  }

  lemma OpeningStays(r: Run, x: Instant, t: Task, task: nat)
    requires Explains(r, t, task) && (t.Opening? || t.OpeningWired? || t.OpeningUntil?)
    ensures Explains(r + [x], t, task)
  {
    var h, b := r + [x], t.badge;
    match t
    case Opening(_) =>
      var a: nat :| a < |r| && r[a].event == Opens(task, b);
      assert h[a] == r[a];
    case OpeningWired(_, wired) =>
      var a: nat, w: nat :| a < w < |r| && r[a].event == Opens(task, b) && wired == WiredIn(At(r, w), b);
      assert h[a] == r[a] && At(h, w) == At(r, w);
    case OpeningUntil(_, end) =>
      var a: nat, w: nat, q: nat :| MixesEnd(r, b, end, task, a, w, q);
      assert MixesEnd(h, b, end, task, a, w, q);
  }

  lemma ExplainsStays(r: Run, x: Instant, t: Task, task: nat)
    requires Explains(r, t, task)
    ensures Explains(r + [x], t, task)
  {
    var h := r + [x];
    match t
    case Asked(b) =>
      var a: nat :| a < |r| && r[a].event == Asks(task, b);
      assert h[a] == r[a];
    case PastPower(b) =>
      var a: nat, p: nat :| Unlocked(r, b, task, a, p);
      assert Unlocked(h, b, task, a, p);
    case PastWiring(b, wired) =>
      var a: nat, p: nat, w: nat :| Unlocked(r, b, task, a, p) && p <= w < |r| && wired == WiredIn(At(r, w), b);
      assert Unlocked(h, b, task, a, p) && At(h, w) == At(r, w);
    case Answered(b, answer) =>
      var a: nat, p: nat, w: nat, q: nat :| Mixes(r, b, answer, task, a, p, w, q);
      assert Mixes(h, b, answer, task, a, p, w, q);
    case _ => OpeningStays(r, x, t, task);
  }

  lemma WiringIsExplained(r: Run, x: Instant)
    requires MayHappen(x.before, x.event) && x.event.ReadsWiring?
    requires Explains(r, x.before.tasks[x.event.task], x.event.task)
    ensures Explains(r + [x], Happen(x.before, x.event).tasks[x.event.task], x.event.task)
  {
    var h, n, task := r + [x], |r|, x.event.task;
    var b := x.before.tasks[task].badge;
    assert h[n] == x && forall j :: 0 <= j < n ==> h[j] == r[j];
    assert At(h, n) == x.before.stores;
    if x.before.tasks[task].Opening? {
      var a: nat :| a < n && r[a].event == Opens(task, b);
      assert h[a].event == Opens(task, b);
    } else {
      var a: nat, p: nat :| Unlocked(r, b, task, a, p);
      assert Unlocked(h, b, task, a, p);
    }
  }

  lemma AnswerIsExplained(r: Run, x: Instant, task: nat, b: Badge, wired: Option<Wired>)
    requires Explains(r, PastWiring(b, wired), task)
    ensures Explains(r + [x], Answered(b, Decide(x.before.stores.policy, false, wired, b.name, b.token, b.now)), task)
  {
    var h, n := r + [x], |r|;
    var answer := Decide(x.before.stores.policy, false, wired, b.name, b.token, b.now);
    var a: nat, p: nat, w: nat :| Unlocked(r, b, task, a, p) && p <= w < n && wired == WiredIn(At(r, w), b);
    assert h[n] == x && h[a] == r[a] && h[p] == r[p] && h[w] == r[w];
    assert Mixes(h, b, answer, task, a, p, w, n);
  }

  lemma EndIsExplained(r: Run, x: Instant, task: nat, b: Badge, wired: Option<Wired>)
    requires Explains(r, OpeningWired(b, wired), task)
    ensures Explains(r + [x], OpeningUntil(b, EndOf(x.before.stores.policy, wired, b)), task)
  {
    var h, n := r + [x], |r|;
    var a: nat, w: nat :| a < w < n && r[a].event == Opens(task, b) && wired == WiredIn(At(r, w), b);
    assert h[n] == x && h[a] == r[a] && h[w] == r[w];
    assert MixesEnd(h, b, EndOf(x.before.stores.policy, wired, b), task, a, w, n);
  }

  /** What a read leaves is explained by what the reads before it were. */
  lemma ReadIsExplained(r: Run, x: Instant)
    requires MayHappen(x.before, x.event) && !x.event.Becomes? && !x.event.Writes?
    requires x.event.task in x.before.tasks ==> Explains(r, x.before.tasks[x.event.task], x.event.task)
    ensures Explains(r + [x], Happen(x.before, x.event).tasks[x.event.task], x.event.task)
  {
    var h, n, task := r + [x], |r|, x.event.task;
    assert h[n] == x && forall j :: 0 <= j < n ==> h[j] == r[j];
    match x.event
    case Asks(_, b) => assert h[n].event == Asks(task, b);
    case Opens(_, b) => assert h[n].event == Opens(task, b);
    case ReadsPower(_) =>
      var b := x.before.tasks[task].badge;
      var a: nat :| a < n && r[a].event == Asks(task, b);
      if IsLockedOut(x.before.stores, b) {
        assert Mixes(h, b, Deny(LOCKED_OUT), task, a, n, n, n);
      } else {
        assert Unlocked(h, b, task, a, n);
      }
    case ReadsWiring(_) => WiringIsExplained(r, x);
    case ReadsPolicy(_) =>
      var t := x.before.tasks[task];
      if t.OpeningWired? {
        EndIsExplained(r, x, task, t.badge, t.wired);
      } else {
        AnswerIsExplained(r, x, task, t.badge, t.wired);
      }
  }

  lemma {:induction false} TasksAreExplained(s: Stores, r: Run, task: nat)
    requires IsRun(s, r) && task in Last(s, r).tasks
    ensures Explains(r, Last(s, r).tasks[task], task)
  {
    var n := |r| - 1;
    var p, x := r[..n], r[n];
    assert r == p + [x];
    if task in x.before.tasks {
      TasksAreExplained(s, p, task);
    }
    if !x.event.Becomes? && !x.event.Writes? && x.event.task == task {
      ReadIsExplained(p, x);
    } else {
      ExplainsStays(p, x, x.before.tasks[task], task);
    }
  }

  /** Whatever is written meanwhile, a scan answers as the policy last read does, for a
      resource as unlocked as it was when the power was read and wired as it was when
      the wiring was, all three since it was asked. */
  lemma {:induction false} AnswerIsAMixture(s: Stores, r: Run, task: nat) returns (a: nat, p: nat, w: nat, q: nat)
    requires IsRun(s, r) && task in Last(s, r).tasks && Last(s, r).tasks[task].Answered?
    ensures var t := Last(s, r).tasks[task]; Mixes(r, t.badge, t.answer, task, a, p, w, q)
  {
    TasksAreExplained(s, r, task);
    var t := Last(s, r).tasks[task];
    a, p, w, q :| Mixes(r, t.badge, t.answer, task, a, p, w, q);
  }

  /** And an opening ends its session as the policy last read says of the resource
      wired as it was when the wiring was, under the id it has when it writes. */
  lemma {:induction false} OpeningIsAMixture(s: Stores, r: Run, task: nat) returns (a: nat, w: nat, q: nat)
    requires IsRun(s, r) && MayHappen(Last(s, r), Writes(task))
    ensures var t, engine := Last(s, r).tasks[task], Last(s, r).stores.wiring;
            var after := Happen(Last(s, r), Writes(task)).stores.wiring;
            var key := LeaseEngine.ToolKey(engine, t.badge.name);
            && MixesEnd(r, t.badge, t.end, task, a, w, q)
            && key in after.localSessions && key !in after.localStops
            && after.localSessions[key] == LeaseEngine.Session(t.badge.now, t.end)
            && forall k :: k != key ==>
                 && (k in after.localSessions <==> k in engine.localSessions)
                 && (k in engine.localSessions ==> after.localSessions[k] == engine.localSessions[k])
  {
    TasksAreExplained(s, r, task);
    var t := Last(s, r).tasks[task];
    a, w, q :| MixesEnd(r, t.badge, t.end, task, a, w, q);
  }

  // ----- when it is the answer of an instant ------------------------------------------

  /** The answer but for the pulse. */
  function Verdict(d: ScanDecision): ScanDecision {
    if d.Allow? then Allow(None) else d
  }

  /** The wiring decides no more of an answer than the pulse, and that only where the
      policy has none for the name. */
  lemma WiringDecidesThePulse(p: Policy, locked: bool, v: Option<Wired>, w: Option<Wired>, b: Badge)
    ensures var d, e := Decide(p, locked, v, b.name, b.token, b.now), Decide(p, locked, w, b.name, b.token, b.now);
            && Verdict(d) == Verdict(e)
            && (Find(p.entries, b.name).Some? && Find(p.entries, b.name).value.pulseMs.Some? ==> d == e)
  {
  }

  lemma OnlyALockoutSaysSo(p: Policy, w: Option<Wired>, b: Badge)
    ensures Decide(p, false, w, b.name, b.token, b.now) != Deny(LOCKED_OUT)
  {
    assert LOCKED_OUT[0] == 'T' && LOCKED_OUT[5] == 'i';
    assert DISABLED[0] == 'D' && DENIED_BY_RULE[0] == 'D' && UNKNOWN_CARD[0] == 'U' && USER_INACTIVE[0] == 'U'
        && NOT_AUTHORIZED[0] == 'C';
    assert forall status: string :: (UNAVAILABLE_PREFIX + status)[5] == 'u';
  }

  /** The verdict is the one all three stores would have given together when the policy
      was read, if and only if the resource was then locked out or not as it was when
      the power was read. The pulse of a yes is the policy's then, or failing that the
      strike's when the wiring was read. */
  lemma VerdictIsThatOfTheLastRead(r: Run, b: Badge, answer: ScanDecision, task: nat, a: nat, p: nat, w: nat, q: nat)
    requires Mixes(r, b, answer, task, a, p, w, q)
    ensures Verdict(answer) == Verdict(AnswerIn(At(r, q), b)) <==>
            (IsLockedOut(At(r, p), b) <==> IsLockedOut(At(r, q), b))
    ensures answer.Allow? ==>
              var e := Find(At(r, q).policy.entries, b.name);
              e.Some? && answer.strikeMs == (if e.value.pulseMs.Some? then e.value.pulseMs
                                             else if WiredIn(At(r, w), b).Some?
                                             then WiredIn(At(r, w), b).value.strikePulseMs else None)
  {
    var policy := At(r, q).policy;
    OnlyALockoutSaysSo(policy, WiredIn(At(r, q), b), b);
    OnlyALockoutSaysSo(policy, WiredIn(At(r, w), b), b);
    WiringDecidesThePulse(policy, false, WiredIn(At(r, w), b), WiredIn(At(r, q), b), b);
  }

  // ----- and a yes that no instant gives ---------------------------------------------

  const BADGE := Badge("d", "card", 0)

  const HELD_OPEN := Entry("d", None, DoorKind, "", "", false, true, None, [], [], Some(10))

  function Before(locked: bool, held: bool): Stores {
    Stores(PowerState.PowerStore(Some(PowerState.PowerSnapshot(if locked then ["d"] else [], [], [])), map[], {}),
           LeaseEngine.INITIAL, Policy(if held then [HELD_OPEN] else [], [], None))
  }

  lemma AnswersBefore(locked: bool, held: bool)
    ensures IsLockedOut(Before(locked, held), BADGE) <==> locked
    ensures AnswerIn(Before(locked, held), BADGE).Allow? <==> !locked && held
    ensures Decide(Before(locked, held).policy, false, None, "d", "card", 0).Allow? <==> held
    ensures WiredIn(Before(locked, held), BADGE) == None
  {
  }

  /** At no instant would the badge have been let in. */
  ghost predicate NeverLetIn(r: Run) {
    forall n :: 0 <= n < |r| ==> !AnswerIn(At(r, n), BADGE).Allow?
  }

  /** One event more, found by stores that would not have let the badge in. */
  lemma {:induction false} Then(s: Stores, r: Run, e: Event) returns (q: Run)
    requires IsRun(s, r) && MayHappen(Last(s, r), e) && NeverLetIn(r)
    requires !AnswerIn(Last(s, r).stores, BADGE).Allow?
    ensures IsRun(s, q) && NeverLetIn(q) && Last(s, q) == Happen(Last(s, r), e)
  {
    Extend(s, r, e);
    q := r + [Instant(Last(s, r), e)];
    assert forall n: nat :: n < |r| ==> At(q, n) == At(r, n);
  }

  lemma {:induction false} AskedWhileUnlocked(s: Stores) returns (r: Run)
    requires s == Before(false, false)
    ensures IsRun(s, r) && NeverLetIn(r) && Last(s, r) == World(Before(true, false), map[0 := PastPower(BADGE)])
  {
    AnswersBefore(false, false);
    var r1 := Then(s, [], Asks(0, BADGE));
    var r2 := Then(s, r1, ReadsPower(0));
    r := Then(s, r2, Becomes(Before(true, false)));
  }

  /** A run in which the door is let open though at no instant would all three stores
      together have let it: it is locked out before the policy comes to hold it open,
      and the scan reads the power before the one and the policy after the other. */
  lemma {:induction false} AYesOfNoInstant() returns (s: Stores, r: Run)
    ensures IsRun(s, r) && NeverLetIn(r) && 0 in Last(s, r).tasks
    ensures Last(s, r).tasks[0].Answered? && Last(s, r).tasks[0].answer.Allow?
  {
    s := Before(false, false);
    var r3 := AskedWhileUnlocked(s);
    AnswersBefore(true, false);
    AnswersBefore(true, true);
    var r4 := Then(s, r3, ReadsWiring(0));
    var r5 := Then(s, r4, Becomes(Before(true, true)));
    r := Then(s, r5, ReadsPolicy(0));
  }
}
