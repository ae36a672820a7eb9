/** Two races that end with two grants for one registration, from the opening on: one in
    which two calls overlap, and one in which the first call is abandoned before it marks
    the registration and the second comes after it. */
module Cmi5DoubleGrants {
  import opened Wrappers
  import opened Cmi5Validation
  import opened Cmi5Recorder
  import opened Cmi5Grants
  import opened Cmi5Races

  const SITE_URL := "https://makers"
  const CREDENTIAL := Session("r", "u", "a", "course", NORMAL)
  const COURSE := World(SITE_URL, map["r" := CREDENTIAL], map["a" := Au(None, "Passed", Some("step"))])

  const LAUNCHED := Statement(None, None, "launched", "course", None, Some("r"), [])

  /** What the AU says of the learner, under this id. */
  function Said(verb: string, id: Uuid): Statement {
    Statement(Some(id), Some(Account(SITE_URL, "u")), verb, "course", Some(XResult(Some(true), None, None)),
              Some("r"), [CMI5_CATEGORY, MOVEON_CATEGORY])
  }

  const ROWS := [Row("r", "l", LAUNCHED), Row("r", "i", Said(INITIALIZED, "i"))]
  const FIRST := Row("r", "p", Said(PASSED, "p"))
  const SECOND := Row("r", "q", Said(PASSED, "q"))

  /** The registration launched and unmarked, with these rows and grants. */
  function CourseDb(rows: seq<Row>, grants: seq<Grant>): Db {
    Db(COURSE.aus, map["r" := Registration(false, false, false)], rows, {"step"}, grants)
  }

  const HAS_PASSED := SessionState(true, false, true, false, false)

  ghost predicate NoneAbandoned(r: Race) {
    forall j :: 0 <= j < |r| ==> !r[j].event.Abandon?
  }

  /** Nothing is under way, and the registration has this many grants. */
  ghost predicate Leaves(r: Race, grants: nat) {
    && IsRace(COURSE, r) && Ends(COURSE, r).tasks == map[]
    && GrantCount(Ends(COURSE, r).db.grants, "r") == grants
  }

  lemma {:induction false} SaidIsValid(id: Uuid)
    ensures COURSE.Known("r")
    ensures Validate(Said(INITIALIZED, id), COURSE.TruthOf("r")).None?
    ensures Validate(Said(PASSED, id), COURSE.TruthOf("r")).None?
    ensures StatementId(None, Said(PASSED, id), "") == id && StatementId(None, Said(INITIALIZED, id), "") == id
  {
    VerbsAreDistinct();
    assert Said(PASSED, id).categories[0] == CMI5_CATEGORY;
  }

  lemma {:induction false} Replays()
    ensures LogOf(ROWS[..1], "r") == [LAUNCHED] && LogOf(ROWS, "r") == [LAUNCHED, Said(INITIALIZED, "i")]
    ensures !IsAuVerb("launched")
    ensures Replay([LAUNCHED]) == NEW_SESSION
    ensures Replay([LAUNCHED, Said(INITIALIZED, "i")]) == NEW_SESSION.(initialized := true)
  {
    assert |"launched"| == 8;
    assert ROWS[..1][..0] == [] && ROWS[..1][0] == ROWS[0];
    ReplayAppends([], LAUNCHED);
    ReplayAppends([LAUNCHED], Said(INITIALIZED, "i"));
  }

  lemma {:induction false} PassedAdvances()
    ensures Advance(NEW_SESSION.(initialized := true), Said(PASSED, "p")) == Step(HAS_PASSED, None)
    ensures Advance(NEW_SESSION.(initialized := true), Said(PASSED, "q")) == Step(HAS_PASSED, None)
    ensures Advance(HAS_PASSED, Said(PASSED, "q")) == Step(HAS_PASSED, None)
    ensures LogOf(ROWS + [FIRST], "r") == [LAUNCHED, Said(INITIALIZED, "i"), Said(PASSED, "p")]
    ensures Replay([LAUNCHED, Said(INITIALIZED, "i"), Said(PASSED, "p")]) == HAS_PASSED
  {
    VerbsAreDistinct();
    Replays();
    assert Said(PASSED, "p").categories[1] == MOVEON_CATEGORY && Said(PASSED, "q").categories[1] == MOVEON_CATEGORY;
    LogAppends(ROWS, FIRST, "r");
    ReplayAppends([LAUNCHED, Said(INITIALIZED, "i")], Said(PASSED, "p"));
    assert [LAUNCHED, Said(INITIALIZED, "i"), Said(PASSED, "p")]
        == [LAUNCHED, Said(INITIALIZED, "i")] + [Said(PASSED, "p")];
  }

  /** A statement of the learner's that may be stored, with the row it would be. */
  ghost predicate MayStore(row: Row) {
    && row.registration == "r" && COURSE.Known("r") && Validate(row.stmt, COURSE.TruthOf("r")).None?
    && StatementId(None, row.stmt, "") == row.statementId
  }

  /** The machine takes the statement after this log, and then has passed. */
  ghost predicate Accepts(log: seq<Statement>, stmt: Statement) {
    Advance(Replay(log), stmt) == Step(HAS_PASSED, None)
  }

  /** Two rows the registration may have after these, either first or one by one. */
  ghost predicate TwoToStore(rows: seq<Row>, first: Row, second: Row) {
    && MayStore(first) && MayStore(second) && first.statementId != second.statementId
    && !IsStored(rows, first.statementId) && !IsStored(rows, second.statementId)
    && Accepts(LogOf(rows, "r"), first.stmt) && Accepts(LogOf(rows, "r"), second.stmt)
    && Accepts(LogOf(rows + [first], "r"), second.stmt)
  }

  lemma {:induction false} PassedTwice()
    ensures TwoToStore(ROWS, FIRST, SECOND)
  {
    Replays();
    PassedAdvances();
    SaidIsValid("p");
    SaidIsValid("q");
  }

  /** The race has come to these rows, grants and calls under way. */
  ghost predicate StandsAt(r: Race, rows: seq<Row>, grants: seq<Grant>, tasks: map<nat, Task>) {
    IsRace(COURSE, r) && Ends(COURSE, r) == Site(CourseDb(rows, grants), tasks)
  }

  /** The race `q` goes on from `r`, abandoning nothing more. */
  ghost predicate GoesOn(r: Race, q: Race) {
    |r| < |q| && q[..|r|] == r && (NoneAbandoned(r) ==> NoneAbandoned(q))
  }

  function Holding(log: seq<Statement>, row: Row): Task {
    Loaded("r", row.statementId, row.stmt, Some("step"), log)
  }

  const STORED := Stored("r", HAS_PASSED, Some("step"))
  const GRANTED := Granted("r", HAS_PASSED)
  const GRANT := Grant("r", "u", "a", "step")

  lemma {:induction false} OneMore(r: Race, e: Event) returns (q: Race)
    requires IsRace(COURSE, r) && MayHappen(COURSE, Ends(COURSE, r), e) && !e.Abandon?
    ensures IsRace(COURSE, q) && GoesOn(r, q) && Ends(COURSE, q) == Happen(COURSE, Ends(COURSE, r), e)
  {
    q := Then(COURSE, r, e);
    assert NoneAbandoned(r) ==> NoneAbandoned(q) by {
      assert forall j :: 0 <= j < |r| ==> q[j] == q[..|r|][j];
    }
  }

  lemma GoesOnTwice(p: Race, q: Race, r: Race)
    requires GoesOn(p, q) && GoesOn(q, r)
    ensures GoesOn(p, r)
  {
    assert r[..|p|] == q[..|p|];
  }

  function Beginning(row: Row): Task {
    Began("r", None, "", row.stmt, Some("step"))
  }

  lemma CourseIsMapped()
    ensures "a" in COURSE.aus && COURSE.aus["a"].stepId == Some("step") && COURSE.Known("r")
    ensures COURSE.sessions["r"].auId == "a"
    ensures Truth(COURSE.sessions["r"], COURSE.siteUrl, COURSE.aus["a"]) == COURSE.TruthOf("r")
  {
  }

  /** A call reads its AU. */
  lemma {:induction false} ReadsItsAu(r: Race, task: nat, row: Row, rows: seq<Row>, grants: seq<Grant>,
                                      tasks: map<nat, Task>) returns (q: Race)
    requires StandsAt(r, rows, grants, tasks) && task !in tasks && MayStore(row)
    ensures StandsAt(q, rows, grants, tasks[task := Beginning(row)]) && GoesOn(r, q)
  {
    CourseIsMapped();
    q := OneMore(r, Begin(task, "r", None, "", row.stmt));
  }

  /** Looks for its statement and, not finding it, reads the log. */
  lemma {:induction false} ReadsTheLog(r: Race, task: nat, row: Row, rows: seq<Row>, grants: seq<Grant>,
                                       tasks: map<nat, Task>) returns (q: Race)
    requires StandsAt(r, rows, grants, tasks) && task in tasks && tasks[task] == Beginning(row)
    requires MayStore(row) && !IsStored(rows, row.statementId)
    ensures StandsAt(q, rows, grants, tasks[task := Holding(LogOf(rows, "r"), row)]) && GoesOn(r, q)
  {
    var q1 := OneMore(r, Look(task));
    q := OneMore(q1, Load(task));
    GoesOnTwice(r, q1, q);
  }

  lemma {:induction false} Loads(r: Race, task: nat, row: Row, rows: seq<Row>, grants: seq<Grant>,
                                 tasks: map<nat, Task>) returns (q: Race)
    requires StandsAt(r, rows, grants, tasks) && task !in tasks && MayStore(row) && !IsStored(rows, row.statementId)
    ensures StandsAt(q, rows, grants, tasks[task := Holding(LogOf(rows, "r"), row)]) && GoesOn(r, q)
  {
    var q1 := ReadsItsAu(r, task, row, rows, grants, tasks);
    q := ReadsTheLog(q1, task, row, rows, grants, tasks[task := Beginning(row)]);
    var held := Holding(LogOf(rows, "r"), row);
    assert tasks[task := Beginning(row)][task := held] == tasks[task := held];
    GoesOnTwice(r, q1, q);
  }

  /** The learner has launched the course. */
  lemma {:induction false} Launches() returns (r: Race)
    ensures StandsAt(r, ROWS[..1], [], map[]) && NoneAbandoned(r)
  {
    Replays();
    var r1 := OneMore([], StepsBecome({"step"}));
    r := OneMore(r1, Launch("r", "l", LAUNCHED));
  }

  /** And begun it. */
  lemma {:induction false} Begins() returns (r: Race)
    ensures StandsAt(r, ROWS, [], map[]) && NoneAbandoned(r)
  {
    Replays();
    SaidIsValid("i");
    var p := Launches();
    var r1 := Loads(p, 0, ROWS[1], ROWS[..1], [], map[]);
    var r2 := OneMore(r1, Insert(0));
    assert ROWS[..1] + [ROWS[1]] == ROWS;
    r := OneMore(r2, Check(0));
  }

  /** And stores its statement. */
  lemma {:induction false} Stores(r: Race, task: nat, row: Row, log: seq<Statement>, rows: seq<Row>,
                                  grants: seq<Grant>, tasks: map<nat, Task>) returns (q: Race)
    requires StandsAt(r, rows, grants, tasks) && task in tasks && tasks[task] == Holding(log, row)
    requires MayStore(row) && !IsStored(rows, row.statementId) && Accepts(log, row.stmt)
    ensures StandsAt(q, rows + [row], grants, tasks[task := STORED]) && GoesOn(r, q)
  {
    q := OneMore(r, Insert(task));
  }

  /** And, the registration being unmarked, checks and writes its grant. */
  lemma {:induction false} Grants(r: Race, task: nat, rows: seq<Row>, grants: seq<Grant>) returns (q: Race)
    requires StandsAt(r, rows, grants, map[task := STORED])
    ensures StandsAt(q, rows, grants + [GRANT], map[task := GRANTED]) && GoesOn(r, q)
  {
    var q1 := OneMore(r, Check(task));
    q := OneMore(q1, Write(task));
    GoesOnTwice(r, q1, q);
  }

  /** All of that, by a call alone. */
  lemma {:induction false} StoresAndGrants(r: Race, task: nat, row: Row, rows: seq<Row>, grants: seq<Grant>)
    returns (q: Race)
    requires StandsAt(r, rows, grants, map[])
    requires MayStore(row) && !IsStored(rows, row.statementId) && Accepts(LogOf(rows, "r"), row.stmt)
    ensures StandsAt(q, rows + [row], grants + [GRANT], map[task := GRANTED]) && GoesOn(r, q)
  {
    var log := LogOf(rows, "r");
    var q1 := Loads(r, task, row, rows, grants, map[]);
    assert map[][task := Holding(log, row)] == map[task := Holding(log, row)];
    var q2 := Stores(q1, task, row, log, rows, grants, map[task := Holding(log, row)]);
    assert map[task := Holding(log, row)][task := STORED] == map[task := STORED];
    q := Grants(q2, task, rows + [row], grants);
    GoesOnTwice(r, q1, q2);
    GoesOnTwice(r, q2, q);
  }

  // ----- two calls at once ------------------------------------------------------

  lemma {:induction false} BothLoad(p: Race, rows: seq<Row>, first: Row, second: Row) returns (r: Race)
    requires StandsAt(p, rows, [], map[]) && NoneAbandoned(p) && TwoToStore(rows, first, second)
    ensures NoneAbandoned(r)
    ensures var log := LogOf(rows, "r");
            StandsAt(r, rows, [], map[][0 := Holding(log, first)][1 := Holding(log, second)])
  {
    var q := Loads(p, 0, first, rows, [], map[]);
    r := Loads(q, 1, second, rows, [], map[][0 := Holding(LogOf(rows, "r"), first)]);
  }

  /** Two calls have each stored a statement that moves the learner on. */
  lemma {:induction false} BothStore(p: Race, rows: seq<Row>, first: Row, second: Row) returns (r: Race)
    requires StandsAt(p, rows, [], map[]) && NoneAbandoned(p) && TwoToStore(rows, first, second)
    ensures StandsAt(r, rows + [first] + [second], [], map[0 := STORED, 1 := STORED]) && NoneAbandoned(r)
  {
    var log := LogOf(rows, "r");
    var both := map[][0 := Holding(log, first)][1 := Holding(log, second)];
    var q := BothLoad(p, rows, first, second);
    var q1 := Stores(q, 0, first, log, rows, [], both);
    r := Stores(q1, 1, second, log, rows + [first], [], both[0 := STORED]);
    assert both[0 := STORED][1 := STORED] == map[0 := STORED, 1 := STORED];
  }

  lemma StoredPasses(r: Race, rows: seq<Row>, grants: seq<Grant>, tasks: map<nat, Task>)
    requires StandsAt(r, rows, grants, tasks)
    ensures Passes(COURSE, Ends(COURSE, r), STORED)
  {
    CourseIsMapped();
  }

  /** And both check before either grants. */
  lemma {:induction false} BothGrant(p: Race, rows: seq<Row>) returns (r: Race)
    requires StandsAt(p, rows, [], map[0 := STORED, 1 := STORED]) && NoneAbandoned(p)
    ensures IsRace(COURSE, r) && NoneAbandoned(r)
    ensures Ends(COURSE, r).tasks == map[0 := GRANTED, 1 := GRANTED]
    ensures GrantCount(Ends(COURSE, r).db.grants, "r") == 2
  {
    StoredPasses(p, rows, [], map[0 := STORED, 1 := STORED]);
    r := TwoCallsGrantTwice(COURSE, p, 0, 1, STORED, STORED);
    assert forall j :: 0 <= j < |p| ==> r[j] == r[..|p|][j];
    assert map[0 := STORED, 1 := STORED][0 := GRANTED][1 := GRANTED] == map[0 := GRANTED, 1 := GRANTED];
  }

  lemma {:induction false} BothMark(p: Race) returns (r: Race)
    requires IsRace(COURSE, p) && NoneAbandoned(p) && Ends(COURSE, p).tasks == map[0 := GRANTED, 1 := GRANTED]
    ensures IsRace(COURSE, r) && NoneAbandoned(r) && Ends(COURSE, r).tasks == map[]
    ensures Ends(COURSE, r).db.grants == Ends(COURSE, p).db.grants
  {
    var q := OneMore(p, Mark(0));
    r := OneMore(q, Mark(1));
  }

  /** So a race from the opening in which nothing is abandoned and every call comes to
      its end grants the step twice. */
  lemma {:induction false} OverlappingCallsGrantTwice() returns (r: Race)
    ensures Leaves(r, 2) && NoneAbandoned(r)
  {
    PassedTwice();
    var p := Begins();
    var p1 := BothStore(p, ROWS, FIRST, SECOND);
    var p2 := BothGrant(p1, ROWS + [FIRST] + [SECOND]);
    r := BothMark(p2);
  }

  // ----- one after another ---------------------------------------------------------

  /** One call stores, checks and grants, and is abandoned before it marks; another that
      begins once it is gone, at `n`, grants the step again and marks it. */
  lemma {:induction false} CallsInTurnGrantTwice() returns (r: Race, n: nat)
    ensures n < |r| && Leaves(r[..n], 1) && Leaves(r, 2)
  {
    PassedTwice();
    var p := Begins();
    r, n := InTurn(p, ROWS, FIRST, SECOND);
  }

  lemma {:induction false} InTurn(p: Race, rows: seq<Row>, first: Row, second: Row) returns (r: Race, n: nat)
    requires StandsAt(p, rows, [], map[]) && TwoToStore(rows, first, second)
    ensures n < |r| && Leaves(r[..n], 1) && Leaves(r, 2)
  {
    var p1 := StoresAndGrants(p, 0, first, rows, []);
    var q := Then(COURSE, p1, Abandon(0));
    n := |q|;
    var q1 := StoresAndGrants(q, 1, second, rows + [first], [] + [GRANT]);
    r := OneMore(q1, Mark(1));
    GoesOnTwice(q, q1, r);
    GrantsGrow([], GRANT, "r");
    GrantsGrow([] + [GRANT], GRANT, "r");
  }
}
