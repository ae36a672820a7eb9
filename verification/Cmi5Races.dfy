/** Recording cut at its database statements: any number of calls in flight, each a
    task that reads its AU, looks for a duplicate, reads the log, stores, checks, grants
    and marks in turn, while the mapping of AUs to steps is edited, with nothing to keep
    another from running between, or to keep a call from being abandoned. What a grant
    rests on survives this; that there is at most one does not, and holds exactly when
    no two calls overlap. */
module Cmi5Races {
  import opened Wrappers
  import opened Cmi5Terms
  import opened Cmi5Validation
  import opened Cmi5Recorder
  import opened Cmi5Grants

  // ----- tasks and their steps --------------------------------------------------

  /** How far a call has come, and the step its AU was mapped to when it began. */
  datatype Task =
    | Began(registration: Uuid, hint: Option<Uuid>, minted: Uuid, stmt: Statement, stepId: Option<Uuid>)
    | Fresh(registration: Uuid, id: Uuid, stmt: Statement, stepId: Option<Uuid>)
    | Loaded(registration: Uuid, id: Uuid, stmt: Statement, stepId: Option<Uuid>, prior: seq<Statement>)
    | Stored(registration: Uuid, state: SessionState, stepId: Option<Uuid>)
    | Due(registration: Uuid, state: SessionState, step: Uuid)
    | Granted(registration: Uuid, state: SessionState)

  datatype Site = Site(db: Db, tasks: map<nat, Task>)

  datatype Event =
    | Launch(registration: Uuid, statementId: Uuid, stmt: Statement)
    | Assign(auId: Uuid, stepId: Option<Uuid>)
    | StepsBecome(steps: set<Uuid>)
    | Begin(task: nat, registration: Uuid, hint: Option<Uuid>, minted: Uuid, stmt: Statement)
    | Look(task: nat)
    | Load(task: nat)
    | Insert(task: nat)
    | Check(task: nat)
    | Write(task: nat)
    | Mark(task: nat)
    | Abandon(task: nat)

  ghost predicate MayHappen(w: World, s: Site, e: Event) {
    match e
    case Launch(r, _, stmt) => r !in s.db.registrations && !IsAuVerb(stmt.verb)
    case Assign(_, _) => true
    case StepsBecome(_) => true
    case Begin(task, r, _, _, _) => task !in s.tasks && r in w.sessions
    case Look(task) => task in s.tasks && s.tasks[task].Began?
    case Load(task) => task in s.tasks && s.tasks[task].Fresh?
    case Insert(task) => task in s.tasks && s.tasks[task].Loaded?
    case Check(task) => task in s.tasks && s.tasks[task].Stored?
    case Write(task) => task in s.tasks && s.tasks[task].Due?
    case Mark(task) => task in s.tasks && s.tasks[task].Granted?
    case Abandon(task) => task in s.tasks
  }

  /** The check: a Normal launch of an AU mapped when the call began, whose moveOn the
      machine meets, of a registration that does not read as satisfied. */
  ghost predicate Passes(w: World, s: Site, t: Task)
    requires t.Stored?
  {
    && w.Known(t.registration)
    && w.sessions[t.registration].launchMode == NORMAL
    && ParseMoveOn(w.Au(t.registration).moveOn).Some?
    && EvaluateMoveOn(ParseMoveOn(w.Au(t.registration).moveOn).value, t.state)
    && t.stepId.Some?
    && t.registration in s.db.registrations && !s.db.registrations[t.registration].satisfied
  }

  /** The grant of this step a call for the registration writes. */
  function GrantOf(w: World, r: Uuid, step: Uuid): Grant
    requires r in w.sessions
  {
    Grant(r, w.sessions[r].userId, w.sessions[r].auId, step)
  }

  /** The step the call is to grant is still there. */
  ghost predicate CanWrite(w: World, s: Site, t: Task)
    requires t.Due?
  {
    w.Known(t.registration) && t.step in s.db.steps
  }

  /** Reading the AU and judging the statement by it. */
  ghost function BeginCall(w: World, s: Site, e: Event): Site
    requires e.Begin? && e.registration in w.sessions
  {
    var session := w.sessions[e.registration];
    if session.auId !in s.db.aus || Validate(e.stmt, Truth(session, w.siteUrl, s.db.aus[session.auId])).Some? then s
    else s.(tasks := s.tasks[e.task := Began(e.registration, e.hint, e.minted, e.stmt, s.db.aus[session.auId].stepId)])
  }

  /** Storing the statement, if it is in sequence after the log that was read. */
  ghost function InsertRow(s: Site, task: nat): Site
    requires task in s.tasks && s.tasks[task].Loaded?
  {
    var t := s.tasks[task];
    var step := Advance(Replay(t.prior), t.stmt);
    if step.violation.Some? || IsStored(s.db.statements, t.id) then s.(tasks := s.tasks - {task})
    else
      Site(s.db.(statements := s.db.statements + [Row(t.registration, t.id, t.stmt)]),
           s.tasks[task := Stored(t.registration, step.after, t.stepId)])
  }

  ghost function Happen(w: World, s: Site, e: Event): Site
    requires MayHappen(w, s, e)
  {
    match e
    case Launch(r, statementId, stmt) => s.(db := Next(w, s.db, Launched(r, statementId, stmt)))
    case Assign(auId, stepId) => s.(db := Next(w, s.db, StepAssigned(auId, stepId)))
    case StepsBecome(steps) => s.(db := Next(w, s.db, StepsBecame(steps)))
    case Begin(_, _, _, _, _) => BeginCall(w, s, e)
    case Look(task) =>
      var t := s.tasks[task];
      var id := StatementId(t.hint, t.stmt, t.minted);
      if IsStored(s.db.statements, id) then s.(tasks := s.tasks - {task})
      else s.(tasks := s.tasks[task := Fresh(t.registration, id, t.stmt, t.stepId)])
    case Load(task) =>
      var t := s.tasks[task];
      var log := LogOf(s.db.statements, t.registration);
      s.(tasks := s.tasks[task := Loaded(t.registration, t.id, t.stmt, t.stepId, log)])
    case Insert(task) => InsertRow(s, task)
    case Check(task) =>
      var t := s.tasks[task];
      if Passes(w, s, t) then s.(tasks := s.tasks[task := Due(t.registration, t.state, t.stepId.value)])
      else s.(tasks := s.tasks - {task})
    case Write(task) =>
      var t := s.tasks[task];
      if CanWrite(w, s, t)
      then Site(s.db.(grants := s.db.grants + [GrantOf(w, t.registration, t.step)]),
                s.tasks[task := Granted(t.registration, t.state)])
      else s.(tasks := s.tasks - {task})
    case Mark(task) =>
      var t := s.tasks[task];
      Site(s.db.(registrations := s.db.registrations[t.registration := Registration(true, t.state.passed,
          t.state.completed)]),
           s.tasks - {task})
    case Abandon(task) => s.(tasks := s.tasks - {task})
  }

  datatype Instant = Instant(before: Site, event: Event)

  type Race = seq<Instant>

  ghost function Opening(w: World): Site {
    Site(Start(w), map[])
  }

  ghost predicate IsRace(w: World, r: Race)
    decreases |r|, 0
  {
    |r| > 0 ==>
      var n := |r| - 1;
      IsRace(w, r[..n]) && r[n].before == Ends(w, r[..n]) && MayHappen(w, r[n].before, r[n].event)
  }

  ghost function Ends(w: World, r: Race): Site
    requires IsRace(w, r)
    decreases |r|, 1
  {
    if |r| == 0 then Opening(w) else Happen(w, r[|r| - 1].before, r[|r| - 1].event)
  }

  // ----- what a grant rests on -------------------------------------------------------

  /** Each AU statement in the registration's log is evidence for it. */
  ghost predicate LogIsEvidence(w: World, db: Db, r: Uuid) {
    forall x :: x in LogOf(db.statements, r) && IsAuVerb(x.verb) ==> w.Known(r) && IsEvidence(x, w.TruthOf(r))
  }

  /** The machine's outcome is borne out by the log as it stands. */
  ghost predicate IsBorneOut(w: World, db: Db, r: Uuid, state: SessionState) {
    && w.Known(r)
    && (state.passed ==> Witnessed(LogOf(db.statements, r), PASSED, w.TruthOf(r)))
    && (state.completed ==> Witnessed(LogOf(db.statements, r), COMPLETED, w.TruthOf(r)))
  }

  /** The registration may be granted: a Normal launch, and evidence in the log that
      meets its AU's moveOn. */
  ghost predicate HasEarned(w: World, db: Db, r: Uuid) {
    && w.Known(r)
    && w.sessions[r].launchMode == NORMAL
    && Meets(w.Au(r).moveOn, LogOf(db.statements, r), w.TruthOf(r))
  }

  ghost predicate TaskIsSound(w: World, db: Db, t: Task) {
    match t
    case Began(r, _, _, stmt, _) => w.Known(r) && IsEvidence(stmt, w.TruthOf(r))
    case Fresh(r, _, stmt, _) => w.Known(r) && IsEvidence(stmt, w.TruthOf(r))
    case Loaded(r, _, stmt, _, prior) =>
      w.Known(r) && IsEvidence(stmt, w.TruthOf(r)) && forall x :: x in prior ==> x in LogOf(db.statements, r)
    case Stored(r, state, _) => IsBorneOut(w, db, r, state)
    case Due(r, _, _) => HasEarned(w, db, r)
    case Granted(r, _) => HasEarned(w, db, r)
  }

  ghost predicate IsEarned(w: World, db: Db, g: Grant) {
    HasEarned(w, db, g.registration) && g == GrantOf(w, g.registration, g.stepId)
  }

  ghost predicate RaceIsSound(w: World, s: Site) {
    && SameAus(w, s.db)
    && (forall r :: LogIsEvidence(w, s.db, r))
    && (forall k :: k in s.tasks ==> TaskIsSound(w, s.db, s.tasks[k]))
    && (forall i :: 0 <= i < |s.db.grants| ==> IsEarned(w, s.db, s.db.grants[i]))
  }

  lemma WitnessIn(log: seq<Statement>, x: Statement, verb: string, truth: Expectation)
    requires x in log && x.verb == verb && x.IsMoveOn() && IsEvidence(x, truth)
    ensures Witnessed(log, verb, truth)
  {
    var i :| 0 <= i < |log| && log[i] == x;
  }

  lemma LogGrows(rows: seq<Row>, row: Row, r: Uuid, truth: Expectation)
    ensures forall x :: x in LogOf(rows, r) ==> x in LogOf(rows + [row], r)
    ensures forall verb :: Witnessed(LogOf(rows, r), verb, truth) ==> Witnessed(LogOf(rows + [row], r), verb, truth)
  {
    LogAppends(rows, row, r);
    forall verb | Witnessed(LogOf(rows, r), verb, truth) ensures Witnessed(LogOf(rows + [row], r), verb, truth) {
      WitnessedAppend(LogOf(rows, r), row.stmt, verb, truth);
    }
  }

  /** A row more leaves every task and grant as well founded as it was. */
  lemma RowKeepsSound(w: World, s: Site, row: Row)
    requires RaceIsSound(w, s)
    requires IsAuVerb(row.stmt.verb) ==> w.Known(row.registration) && IsEvidence(row.stmt, w.TruthOf(row.registration))
    ensures RaceIsSound(w, s.(db := s.db.(statements := s.db.statements + [row])))
  {
    var after := s.db.(statements := s.db.statements + [row]);
    forall r ensures LogIsEvidence(w, after, r) {
      LogAppends(s.db.statements, row, r);
      assert LogIsEvidence(w, s.db, r);
    }
    forall k | k in s.tasks ensures TaskIsSound(w, after, s.tasks[k]) {
      assert TaskIsSound(w, s.db, s.tasks[k]);
      var r := s.tasks[k].registration;
      LogGrows(s.db.statements, row, r, w.TruthOf(r));
    }
    forall i | 0 <= i < |after.grants| ensures IsEarned(w, after, after.grants[i]) {
      assert IsEarned(w, s.db, s.db.grants[i]);
      var r := s.db.grants[i].registration;
      LogGrows(s.db.statements, row, r, w.TruthOf(r));
    }
  }

  /** What the machine holds after a log it was loaded with and one statement more is
      borne out by any log that contains them. */
  lemma StateIsBorneOut(w: World, db: Db, r: Uuid, prior: seq<Statement>, stmt: Statement)
    requires w.Known(r) && LogIsEvidence(w, db, r) && stmt in LogOf(db.statements, r)
    requires forall x :: x in prior ==> x in LogOf(db.statements, r)
    ensures IsBorneOut(w, db, r, Advance(Replay(prior), stmt).after)
  {
    var log, run := LogOf(db.statements, r), prior + [stmt];
    ReplayAppends(prior, stmt);
    OutcomeIsInTheLog(run);
    if Replay(run).passed {
      var i :| 0 <= i < |run| && run[i].verb == PASSED && run[i].IsMoveOn();
      assert run[i] in log;
      WitnessIn(log, run[i], PASSED, w.TruthOf(r));
    }
    if Replay(run).completed {
      var i :| 0 <= i < |run| && run[i].verb == COMPLETED && run[i].IsMoveOn();
      assert run[i] in log;
      WitnessIn(log, run[i], COMPLETED, w.TruthOf(r));
    }
  }

  lemma InsertKeepsSound(w: World, s: Site, task: nat)
    requires RaceIsSound(w, s) && MayHappen(w, s, Insert(task))
    ensures RaceIsSound(w, Happen(w, s, Insert(task)))
  {
    var t, after := s.tasks[task], Happen(w, s, Insert(task));
    assert TaskIsSound(w, s.db, t);
    if after.db != s.db {
      var row := Row(t.registration, t.id, t.stmt);
      RowKeepsSound(w, s, row);
      LogAppends(s.db.statements, row, t.registration);
      assert LogIsEvidence(w, after.db, t.registration);
      StateIsBorneOut(w, after.db, t.registration, t.prior, t.stmt);
      forall k | k in after.tasks ensures TaskIsSound(w, after.db, after.tasks[k]) {
        if k != task {
          assert TaskIsSound(w, s.(db := after.db).db, s.tasks[k]);
        }
      }
    }
  }

  /** Soundness is of the statements alone. */
  lemma SameRowsKeepSound(w: World, s: Site, t: Site)
    requires RaceIsSound(w, s) && t.db.statements == s.db.statements && SameAus(w, t.db)
    requires forall k :: k in t.tasks ==> TaskIsSound(w, s.db, t.tasks[k])
    requires forall i :: 0 <= i < |t.db.grants| ==> IsEarned(w, s.db, t.db.grants[i])
    ensures RaceIsSound(w, t)
  {
    forall r ensures LogIsEvidence(w, t.db, r) {
      assert LogIsEvidence(w, s.db, r);
    }
    forall k | k in t.tasks ensures TaskIsSound(w, t.db, t.tasks[k]) {
      assert TaskIsSound(w, s.db, t.tasks[k]);
    }
    forall i | 0 <= i < |t.db.grants| ensures IsEarned(w, t.db, t.db.grants[i]) {
      assert IsEarned(w, s.db, t.db.grants[i]);
    }
  }

  lemma BeginKeepsSound(w: World, s: Site, e: Event)
    requires RaceIsSound(w, s) && MayHappen(w, s, e) && e.Begin?
    ensures RaceIsSound(w, Happen(w, s, e))
  {
    var session := w.sessions[e.registration];
    if session.auId in s.db.aus {
      assert Truth(session, w.siteUrl, s.db.aus[session.auId]) == w.TruthOf(e.registration);
      ValidateMeans(e.stmt, w.TruthOf(e.registration));
    }
    SameRowsKeepSound(w, s, Happen(w, s, e));
  }

  lemma LookKeepsSound(w: World, s: Site, task: nat)
    requires RaceIsSound(w, s)
    ensures MayHappen(w, s, Look(task)) ==> RaceIsSound(w, Happen(w, s, Look(task)))
    ensures MayHappen(w, s, Load(task)) ==> RaceIsSound(w, Happen(w, s, Load(task)))
  {
    if MayHappen(w, s, Look(task)) {
      assert TaskIsSound(w, s.db, s.tasks[task]);
      SameRowsKeepSound(w, s, Happen(w, s, Look(task)));
    }
    if MayHappen(w, s, Load(task)) {
      assert TaskIsSound(w, s.db, s.tasks[task]);
      SameRowsKeepSound(w, s, Happen(w, s, Load(task)));
    }
  }

  lemma CheckKeepsSound(w: World, s: Site, task: nat)
    requires RaceIsSound(w, s) && MayHappen(w, s, Check(task))
    ensures RaceIsSound(w, Happen(w, s, Check(task)))
  {
    assert TaskIsSound(w, s.db, s.tasks[task]);
    SameRowsKeepSound(w, s, Happen(w, s, Check(task)));
  }

  lemma WriteKeepsSound(w: World, s: Site, task: nat)
    requires RaceIsSound(w, s) && MayHappen(w, s, Write(task))
    ensures RaceIsSound(w, Happen(w, s, Write(task)))
  {
    assert TaskIsSound(w, s.db, s.tasks[task]);
    SameRowsKeepSound(w, s, Happen(w, s, Write(task)));
  }

  lemma EventKeepsSound(w: World, s: Site, e: Event)
    requires RaceIsSound(w, s) && MayHappen(w, s, e)
    ensures RaceIsSound(w, Happen(w, s, e))
  {
    match e
    case Launch(r, statementId, stmt) =>
      var row := Row(r, statementId, stmt);
      RowKeepsSound(w, s, row);
      SameRowsKeepSound(w, s.(db := s.db.(statements := s.db.statements + [row])), Happen(w, s, e));
    case Begin(_, r, _, _, stmt) => BeginKeepsSound(w, s, e);
    case Look(task) => LookKeepsSound(w, s, task);
    case Load(task) => LookKeepsSound(w, s, task);
    case Insert(task) => InsertKeepsSound(w, s, task);
    case Check(task) => CheckKeepsSound(w, s, task);
    case Write(task) => WriteKeepsSound(w, s, task);
    case _ => SameRowsKeepSound(w, s, Happen(w, s, e));
  }

  /** Soundness survives: however the calls interleave, whichever are abandoned, and
      however the mapping is edited meanwhile, every grant is of that learner and AU,
      from a Normal launch whose log holds the validated moveOn statements it asks for. */
  lemma {:induction false} EveryGrantIsEarned(w: World, r: Race)
    requires IsRace(w, r)
    ensures RaceIsSound(w, Ends(w, r))
  {
    if |r| == 0 {
      assert forall k :: LogOf([], k) == [];
    } else {
      var n := |r| - 1;
      EveryGrantIsEarned(w, r[..n]);
      EventKeepsSound(w, r[n].before, r[n].event);
    }
  }

  /** So behind every grant of a race too stand the statements its AU asks for: by that
      learner's account on this site, of that registration and activity, and no pass below
      the score asked for. */
  lemma GrantsRestOnTheLog(w: World, r: Race)
    requires IsRace(w, r)
    ensures var db := Ends(w, r).db;
            forall g :: g in db.grants ==> RestsOnTheLog(w, LogOf(db.statements, g.registration), g)
  {
    var db := Ends(w, r).db;
    EveryGrantIsEarned(w, r);
    forall g | g in db.grants ensures RestsOnTheLog(w, LogOf(db.statements, g.registration), g) {
      var i :| 0 <= i < |db.grants| && db.grants[i] == g;
      assert IsEarned(w, db, db.grants[i]);
      MeetsMeans(w, g.registration, LogOf(db.statements, g.registration));
    }
  }

  // ----- which step ---------------------------------------------------------------------

  /** Some call for the registration began when its AU was mapped to this step. */
  ghost predicate WasMapped(w: World, r: Race, registration: Uuid, step: Uuid) {
    registration in w.sessions &&
    exists j :: 0 <= j < |r| && r[j].event.Begin? && r[j].event.registration == registration
                && MapsTo(r[j].before.db, w.sessions[registration].auId, step)
  }

  predicate MapsTo(db: Db, auId: Uuid, step: Uuid) {
    auId in db.aus && db.aus[auId].stepId == Some(step)
  }

  /** The step, if any, that the call is to grant. */
  function StepOf(t: Task): Option<Uuid> {
    match t
    case Due(_, _, step) => Some(step)
    case Granted(_, _) => None
    case _ => t.stepId
  }

  ghost predicate StepsWereMapped(w: World, r: Race, s: Site) {
    && (forall k :: k in s.tasks && StepOf(s.tasks[k]).Some? ==>
          WasMapped(w, r, s.tasks[k].registration, StepOf(s.tasks[k]).value))
    && (forall i :: 0 <= i < |s.db.grants| ==> WasMapped(w, r, s.db.grants[i].registration, s.db.grants[i].stepId))
  }

  lemma MappedStays(w: World, r: Race, x: Instant, registration: Uuid, step: Uuid)
    requires WasMapped(w, r, registration, step)
    ensures WasMapped(w, r + [x], registration, step)
  {
    var j :| 0 <= j < |r| && r[j].event.Begin? && r[j].event.registration == registration
             && MapsTo(r[j].before.db, w.sessions[registration].auId, step);
    assert (r + [x])[j] == r[j];
  }

  lemma EventKeepsMapped(w: World, r: Race, s: Site, e: Event)
    requires StepsWereMapped(w, r, s) && MayHappen(w, s, e)
    ensures StepsWereMapped(w, r + [Instant(s, e)], Happen(w, s, e))
  {
    var x, t := Instant(s, e), Happen(w, s, e);
    var h := r + [x];
    assert h[|r|] == x;
    forall k | k in t.tasks && StepOf(t.tasks[k]).Some?
      ensures WasMapped(w, h, t.tasks[k].registration, StepOf(t.tasks[k]).value)
    {
      if k in s.tasks {
        assert StepOf(s.tasks[k]) == StepOf(t.tasks[k]) && s.tasks[k].registration == t.tasks[k].registration;
        MappedStays(w, r, x, s.tasks[k].registration, StepOf(s.tasks[k]).value);
      } else {
        assert h[|r|].event.Begin? && MapsTo(s.db, w.sessions[e.registration].auId, StepOf(t.tasks[k]).value);
      }
    }
    forall i | 0 <= i < |t.db.grants| ensures WasMapped(w, h, t.db.grants[i].registration, t.db.grants[i].stepId) {
      if i < |s.db.grants| {
        MappedStays(w, r, x, s.db.grants[i].registration, s.db.grants[i].stepId);
      } else {
        MappedStays(w, r, x, s.tasks[e.task].registration, s.tasks[e.task].step);
      }
    }
  }

  /** However the mapping is edited, the step a grant names is one its AU was mapped to
      when some call for the registration began. */
  lemma {:induction false} GrantsWereMapped(w: World, r: Race)
    requires IsRace(w, r)
    ensures StepsWereMapped(w, r, Ends(w, r))
  {
    if |r| > 0 {
      var n := |r| - 1;
      GrantsWereMapped(w, r[..n]);
      EventKeepsMapped(w, r[..n], r[n].before, r[n].event);
      assert r == r[..n] + [Instant(r[n].before, r[n].event)];
    }
  }

  // ----- what is stored, and what is granted of ---------------------------------------

  /** Some call for the registration read its log at this instant, and this statement was
      in sequence after it. */
  ghost predicate WasInSequence(r: Race, j: int, registration: Uuid, stmt: Statement) {
    && 0 <= j < |r| && r[j].event.Load?
    && Advance(Replay(LogOf(r[j].before.db.statements, registration)), stmt).violation.None?
  }

  /** The task holds the log as it was at some instant at which it was read. */
  ghost predicate PriorWasRead(r: Race, t: Task) {
    t.Loaded? ==>
      exists j :: 0 <= j < |r| && r[j].event.Load? && t.prior == LogOf(r[j].before.db.statements, t.registration)
  }

  ghost predicate RowIsInSequence(r: Race, row: Row) {
    IsAuVerb(row.stmt.verb) ==> exists j :: WasInSequence(r, j, row.registration, row.stmt)
  }

  ghost predicate StepWasThere(r: Race, step: Uuid) {
    exists j :: 0 <= j < |r| && r[j].event.Write? && step in r[j].before.db.steps
  }

  ghost predicate IsInOrder(r: Race, s: Site) {
    && (forall k :: k in s.tasks ==> PriorWasRead(r, s.tasks[k]))
    && (forall row :: row in s.db.statements ==> RowIsInSequence(r, row))
    && (forall g :: g in s.db.grants ==> StepWasThere(r, g.stepId))
  }

  lemma OrderStays(r: Race, x: Instant)
    ensures forall t :: PriorWasRead(r, t) ==> PriorWasRead(r + [x], t)
    ensures forall row :: RowIsInSequence(r, row) ==> RowIsInSequence(r + [x], row)
    ensures forall step :: StepWasThere(r, step) ==> StepWasThere(r + [x], step)
  {
    var h := r + [x];
    assert forall j :: 0 <= j < |r| ==> h[j] == r[j];
    forall t | PriorWasRead(r, t) ensures PriorWasRead(h, t) {
      if t.Loaded? {
        var j :| 0 <= j < |r| && r[j].event.Load? && t.prior == LogOf(r[j].before.db.statements, t.registration);
        assert h[j].event.Load?;
      }
    }
    forall row | RowIsInSequence(r, row) ensures RowIsInSequence(h, row) {
      if IsAuVerb(row.stmt.verb) {
        var j :| WasInSequence(r, j, row.registration, row.stmt);
        assert WasInSequence(h, j, row.registration, row.stmt);
      }
    }
    forall step | StepWasThere(r, step) ensures StepWasThere(h, step) {
      var j :| 0 <= j < |r| && r[j].event.Write? && step in r[j].before.db.steps;
      assert h[j].event.Write?;
    }
  }

  /** An insert stores the statement if it is in sequence after the log that was read and
      its id is new, and otherwise nothing. */
  lemma InsertStoresExactly(w: World, s: Site, task: nat)
    requires MayHappen(w, s, Insert(task))
    ensures var t, after := s.tasks[task], Happen(w, s, Insert(task)).db;
            if Advance(Replay(t.prior), t.stmt).violation.None?
               && forall row :: row in s.db.statements ==> row.statementId != t.id
            then after == s.db.(statements := s.db.statements + [Row(t.registration, t.id, t.stmt)])
            else after == s.db
  {
  }

  lemma EventKeepsOrder(w: World, r: Race, s: Site, e: Event)
    requires IsInOrder(r, s) && MayHappen(w, s, e)
    ensures IsInOrder(r + [Instant(s, e)], Happen(w, s, e))
  {
    var x, t := Instant(s, e), Happen(w, s, e);
    var h := r + [x];
    assert h[|r|] == x;
    OrderStays(r, x);
    forall k | k in t.tasks ensures PriorWasRead(h, t.tasks[k]) {
      if k in s.tasks && t.tasks[k] == s.tasks[k] {
        assert PriorWasRead(r, s.tasks[k]);
      }
    }
    forall row | row in t.db.statements ensures RowIsInSequence(h, row) {
      if row in s.db.statements {
        assert RowIsInSequence(r, row);
      } else if e.Insert? {
        InsertStoresExactly(w, s, e.task);
        assert PriorWasRead(r, s.tasks[e.task]);
        var j :| 0 <= j < |r| && r[j].event.Load?
                 && s.tasks[e.task].prior == LogOf(r[j].before.db.statements, s.tasks[e.task].registration);
        assert h[j] == r[j];
        assert WasInSequence(h, j, row.registration, row.stmt);
      }
    }
    forall g | g in t.db.grants ensures StepWasThere(h, g.stepId) {
      if g in s.db.grants {
        assert StepWasThere(r, g.stepId);
      } else {
        assert h[|r|].event.Write? && g.stepId in h[|r|].before.db.steps;
      }
    }
  }

  /** However the calls interleave, each AU statement stored was in sequence after the log
      as it stood when some call read it, and each step granted was there when its grant
      was written. */
  lemma {:induction false} StoredInSequence(w: World, r: Race)
    requires IsRace(w, r)
    ensures IsInOrder(r, Ends(w, r))
  {
    if |r| > 0 {
      var n := |r| - 1;
      StoredInSequence(w, r[..n]);
      EventKeepsOrder(w, r[..n], r[n].before, r[n].event);
      assert r == r[..n] + [Instant(r[n].before, r[n].event)];
    }
  }

  // ----- how many grants ----------------------------------------------------------------

  function GrantCount(grants: seq<Grant>, r: Uuid): nat {
    if |grants| == 0 then 0
    else GrantCount(grants[..|grants| - 1], r) + if grants[|grants| - 1].registration == r then 1 else 0
  }

  function DueTasks(tasks: map<nat, Task>, r: Uuid): set<nat> {
    set k | k in tasks && tasks[k].Due? && tasks[k].registration == r
  }

  /** The grants written and those a task has still to write. */
  function Weight(s: Site, r: Uuid): nat {
    GrantCount(s.db.grants, r) + |DueTasks(s.tasks, r)|
  }

  /** A call for the registration has passed its check and not yet marked it. */
  ghost predicate InFlight(s: Site, r: Uuid) {
    exists k :: k in s.tasks && (s.tasks[k].Due? || s.tasks[k].Granted?) && s.tasks[k].registration == r
  }

  predicate IsDropped(x: Instant, r: Uuid) {
    x.event.Abandon? && x.event.task in x.before.tasks && x.before.tasks[x.event.task].registration == r
  }

  /** The call is abandoned with its grant written and the registration unmarked: it
      will never be marked by that call. */
  predicate LeavesUnmarked(x: Instant, r: Uuid) {
    IsDropped(x, r) && x.before.tasks[x.event.task].Granted?
  }

  /** The call ends between its check and its write: it is abandoned there, or finds
      its step gone. */
  ghost predicate ForgoesItsGrant(w: World, x: Instant, r: Uuid) {
    && (x.event.Abandon? || x.event.Write?) && x.event.task in x.before.tasks
    && x.before.tasks[x.event.task].Due? && x.before.tasks[x.event.task].registration == r
    && (x.event.Write? ==> !CanWrite(w, x.before, x.before.tasks[x.event.task]))
  }

  ghost predicate LeftUnmarked(r: Race, registration: Uuid) {
    exists j :: 0 <= j < |r| && LeavesUnmarked(r[j], registration)
  }

  ghost predicate NoneForgone(w: World, r: Race, registration: Uuid) {
    forall j :: 0 <= j < |r| ==> !ForgoesItsGrant(w, r[j], registration)
  }

  ghost predicate PassesCheck(w: World, x: Instant, r: Uuid) {
    && x.event.Check? && x.event.task in x.before.tasks && x.before.tasks[x.event.task].Stored?
    && x.before.tasks[x.event.task].registration == r && Passes(w, x.before, x.before.tasks[x.event.task])
  }

  /** Two calls overlap: one passes its check at `j` while another has passed and not
      marked the registration. A call abandoned after its write never will mark it, and
      so is in flight for good. */
  ghost predicate OverlapsAt(w: World, r: Race, j: int, registration: Uuid) {
    && 0 <= j < |r| && PassesCheck(w, r[j], registration)
    && (InFlight(r[j].before, registration) || LeftUnmarked(r[..j], registration))
  }

  ghost predicate OverlapIn(w: World, r: Race, registration: Uuid) {
    exists j :: OverlapsAt(w, r, j, registration)
  }

  // What an event does to the weight.

  lemma CheckOnWeight(w: World, s: Site, task: nat, r: Uuid)
    requires MayHappen(w, s, Check(task))
    ensures Weight(Happen(w, s, Check(task)), r)
         == Weight(s, r) + if PassesCheck(w, Instant(s, Check(task)), r) then 1 else 0
  {
    var after := Happen(w, s, Check(task)).tasks;
    if PassesCheck(w, Instant(s, Check(task)), r) {
      assert DueTasks(after, r) == DueTasks(s.tasks, r) + {task} && task !in DueTasks(s.tasks, r);
    } else {
      assert DueTasks(after, r) == DueTasks(s.tasks, r);
    }
  }

  lemma WriteOnWeight(w: World, s: Site, task: nat, r: Uuid)
    requires MayHappen(w, s, Write(task))
    ensures Weight(Happen(w, s, Write(task)), r)
         == Weight(s, r) - if ForgoesItsGrant(w, Instant(s, Write(task)), r) then 1 else 0
  {
    var t := Happen(w, s, Write(task));
    assert CanWrite(w, s, s.tasks[task]) ==> t.db.grants[..|s.db.grants|] == s.db.grants;
    assert DueTasks(t.tasks, r) == DueTasks(s.tasks, r) - {task};
  }

  lemma AbandonOnWeight(w: World, s: Site, task: nat, r: Uuid)
    requires MayHappen(w, s, Abandon(task))
    ensures Weight(Happen(w, s, Abandon(task)), r)
         == Weight(s, r) - if ForgoesItsGrant(w, Instant(s, Abandon(task)), r) then 1 else 0
  {
    assert DueTasks(s.tasks - {task}, r) == DueTasks(s.tasks, r) - {task};
  }

  lemma OtherOnWeight(w: World, s: Site, e: Event, r: Uuid)
    requires MayHappen(w, s, e) && !e.Abandon? && !e.Check? && !e.Write?
    ensures Weight(Happen(w, s, e), r) == Weight(s, r)
  {
    assert DueTasks(Happen(w, s, e).tasks, r) == DueTasks(s.tasks, r);
  }

  /** One more grant, or one more to come, for each check passed; one less for each
      call that ends before its write; and nothing else. */
  lemma EventOnWeight(w: World, s: Site, e: Event, r: Uuid)
    requires MayHappen(w, s, e)
    ensures Weight(Happen(w, s, e), r)
         == Weight(s, r) + (if PassesCheck(w, Instant(s, e), r) then 1 else 0)
                         - (if ForgoesItsGrant(w, Instant(s, e), r) then 1 else 0)
  {
    match e
    case Check(task) => CheckOnWeight(w, s, task, r);
    case Write(task) => WriteOnWeight(w, s, task, r);
    case Abandon(task) => AbandonOnWeight(w, s, task, r);
    case _ => OtherOnWeight(w, s, e, r);
  }

  // What it does to who is owed a mark.

  ghost predicate HasGrantedTask(s: Site, r: Uuid) {
    exists k :: k in s.tasks && s.tasks[k].Granted? && s.tasks[k].registration == r
  }

  /** A grant is written exactly when the registration is marked, a call has still to
      mark it, or one was abandoned before it could. */
  ghost predicate IsAccounted(s: Site, r: Uuid, left: bool) {
    && (GrantCount(s.db.grants, r) > 0 ==> IsSatisfied(s.db, r) || HasGrantedTask(s, r) || left)
    && (HasGrantedTask(s, r) || left ==> GrantCount(s.db.grants, r) > 0)
  }

  lemma GrantsGrow(grants: seq<Grant>, g: Grant, r: Uuid)
    ensures GrantCount(grants + [g], r) == GrantCount(grants, r) + if g.registration == r then 1 else 0
  {
    assert (grants + [g])[..|grants|] == grants;
  }

  lemma WriteKeepsAccount(w: World, s: Site, task: nat, r: Uuid, left: bool)
    requires MayHappen(w, s, Write(task)) && IsAccounted(s, r, left)
    ensures IsAccounted(Happen(w, s, Write(task)), r, left)
  {
    var t := Happen(w, s, Write(task));
    if CanWrite(w, s, s.tasks[task]) {
      GrantsGrow(s.db.grants, GrantOf(w, s.tasks[task].registration, s.tasks[task].step), r);
      assert task in t.tasks && t.tasks[task].Granted?;
    }
    if HasGrantedTask(s, r) {
      var k :| k in s.tasks && s.tasks[k].Granted? && s.tasks[k].registration == r;
      assert k in t.tasks && t.tasks[k] == s.tasks[k];
    }
    assert HasGrantedTask(t, r) ==> HasGrantedTask(s, r) || GrantCount(t.db.grants, r) > 0;
  }

  lemma OtherKeepsAccount(w: World, s: Site, e: Event, r: Uuid, left: bool)
    requires MayHappen(w, s, e) && !e.Write? && IsAccounted(s, r, left)
    ensures IsAccounted(Happen(w, s, e), r, left || LeavesUnmarked(Instant(s, e), r))
  {
    var t := Happen(w, s, e);
    assert t.db.grants == s.db.grants;
    assert IsSatisfied(s.db, r) ==> IsSatisfied(t.db, r);
    assert HasGrantedTask(t, r) ==> HasGrantedTask(s, r);
    if HasGrantedTask(s, r) {
      var k :| k in s.tasks && s.tasks[k].Granted? && s.tasks[k].registration == r;
      assert (k in t.tasks && t.tasks[k] == s.tasks[k])
          || IsSatisfied(t.db, r) || LeavesUnmarked(Instant(s, e), r);
    }
  }

  /** A check that passes finds the weight at none exactly when nothing is in flight. */
  lemma PassingFindsNone(w: World, x: Instant, r: Uuid, left: bool)
    requires PassesCheck(w, x, r) && IsAccounted(x.before, r, left)
    ensures Weight(x.before, r) == 0 <==> !InFlight(x.before, r) && !left
  {
    var s := x.before;
    if InFlight(s, r) && !HasGrantedTask(s, r) {
      var k :| k in s.tasks && (s.tasks[k].Due? || s.tasks[k].Granted?) && s.tasks[k].registration == r;
      assert k in DueTasks(s.tasks, r);
    }
    if DueTasks(s.tasks, r) != {} {
      var k :| k in DueTasks(s.tasks, r);
      assert InFlight(s, r);
    }
  }

  // Over a race.

  lemma LeftGrows(r: Race, registration: Uuid)
    requires |r| > 0
    ensures LeftUnmarked(r, registration) <==>
            LeftUnmarked(r[..|r| - 1], registration) || LeavesUnmarked(r[|r| - 1], registration)
  {
    var p := r[..|r| - 1];
    if LeftUnmarked(p, registration) {
      var j :| 0 <= j < |p| && LeavesUnmarked(p[j], registration);
      assert LeavesUnmarked(r[j], registration);
    }
    if LeftUnmarked(r, registration) {
      var j :| 0 <= j < |r| && LeavesUnmarked(r[j], registration);
      assert j < |p| ==> LeavesUnmarked(p[j], registration);
    }
  }

  lemma OverlapGrows(w: World, r: Race, registration: Uuid)
    requires |r| > 0
    ensures OverlapIn(w, r, registration) <==>
            OverlapIn(w, r[..|r| - 1], registration) || OverlapsAt(w, r, |r| - 1, registration)
  {
    var n := |r| - 1;
    var p := r[..n];
    forall j | 0 <= j < n ensures OverlapsAt(w, p, j, registration) <==> OverlapsAt(w, r, j, registration) {
      assert p[..j] == r[..j];
    }
    if OverlapIn(w, p, registration) {
      var j :| OverlapsAt(w, p, j, registration);
      assert OverlapsAt(w, r, j, registration);
    }
    if OverlapIn(w, r, registration) {
      var j :| OverlapsAt(w, r, j, registration);
      assert j < n ==> OverlapsAt(w, p, j, registration);
    }
  }

  lemma {:induction false} RaceIsAccounted(w: World, r: Race, registration: Uuid)
    requires IsRace(w, r)
    ensures IsAccounted(Ends(w, r), registration, LeftUnmarked(r, registration))
  {
    if |r| > 0 {
      var n := |r| - 1;
      var p, x := r[..n], r[n];
      RaceIsAccounted(w, p, registration);
      LeftGrows(r, registration);
      if x.event.Write? {
        WriteKeepsAccount(w, x.before, x.event.task, registration, LeftUnmarked(p, registration));
      } else {
        OtherKeepsAccount(w, x.before, x.event, registration, LeftUnmarked(p, registration));
      }
    }
  }

  lemma {:induction false} WeightTellsOverlap(w: World, r: Race, registration: Uuid)
    requires IsRace(w, r)
    ensures !OverlapIn(w, r, registration) ==> Weight(Ends(w, r), registration) <= 1
    ensures NoneForgone(w, r, registration) && Weight(Ends(w, r), registration) <= 1 ==> !OverlapIn(w, r, registration)
  {
    if |r| == 0 {
      assert DueTasks(map[], registration) == {};
    } else {
      var n := |r| - 1;
      var p, x := r[..n], r[n];
      WeightTellsOverlap(w, p, registration);
      EventOnWeight(w, x.before, x.event, registration);
      OverlapGrows(w, r, registration);
      if PassesCheck(w, x, registration) {
        RaceIsAccounted(w, p, registration);
        PassingFindsNone(w, x, registration, LeftUnmarked(p, registration));
      }
    }
  }

  /** Uniqueness. In any race, a registration has at most one grant if no call for it
      passed its check while another had passed and not marked it; and only if, where
      no call for it ended between its check and its write and none is left with a
      grant still to write. */
  lemma AtMostOneGrantExactlyWithoutOverlap(w: World, r: Race, registration: Uuid)
    requires IsRace(w, r)
    ensures !OverlapIn(w, r, registration) ==> GrantCount(Ends(w, r).db.grants, registration) <= 1
    ensures NoneForgone(w, r, registration) && DueTasks(Ends(w, r).tasks, registration) == {} ==>
              (GrantCount(Ends(w, r).db.grants, registration) <= 1 <==> !OverlapIn(w, r, registration))
  {
    WeightTellsOverlap(w, r, registration);
  }

  // ----- two calls at once ---------------------------------------------------------------------

  /** The race one event longer. */
  ghost function Then(w: World, r: Race, e: Event): (q: Race)
    requires IsRace(w, r) && MayHappen(w, Ends(w, r), e)
    ensures IsRace(w, q) && Ends(w, q) == Happen(w, Ends(w, r), e) && |q| == |r| + 1 && q[..|r|] == r
    ensures q[|r|].event == e
  {
    var q := r + [Instant(Ends(w, r), e)];
    assert q[..|r|] == r;
    q
  }

  /** Two calls that would each pass both do, before either grants. */
  lemma {:induction false} TwoCallsPass(w: World, p: Race, a: nat, b: nat, s: Task, t: Task) returns (r: Race)
    requires IsRace(w, p) && a != b && a in Ends(w, p).tasks && b in Ends(w, p).tasks
    requires Ends(w, p).tasks[a] == s && Ends(w, p).tasks[b] == t && s.Stored? && t.Stored?
    requires Passes(w, Ends(w, p), s) && Passes(w, Ends(w, p), t)
    ensures IsRace(w, r) && |r| == |p| + 2 && r[..|p|] == p
    ensures r[|p|].event == Check(a) && r[|p| + 1].event == Check(b)
    ensures Ends(w, r) == Ends(w, p).(tasks := Ends(w, p).tasks[a := Due(s.registration, s.state, s.stepId.value)]
                                                              [b := Due(t.registration, t.state, t.stepId.value)])
  {
    var q := Then(w, p, Check(a));
    r := Then(w, q, Check(b));
    assert r[..|p|] == q[..|p|];
  }

  /** From any point where two calls have stored statements that meet the moveOn of a
      registration not yet satisfied, both may check before either grants: two grants. */
  lemma {:induction false} TwoCallsGrantTwice(w: World, p: Race, a: nat, b: nat, s: Task, t: Task) returns (r: Race)
    requires IsRace(w, p) && a != b && a in Ends(w, p).tasks && b in Ends(w, p).tasks
    requires Ends(w, p).tasks[a] == s && Ends(w, p).tasks[b] == t && s.Stored? && t.Stored?
    requires s.registration == t.registration && Passes(w, Ends(w, p), s) && Passes(w, Ends(w, p), t)
    requires s.stepId.value in Ends(w, p).db.steps && t.stepId.value in Ends(w, p).db.steps
    ensures IsRace(w, r) && |r| == |p| + 4 && r[..|p|] == p
    ensures r[|p|].event == Check(a) && r[|p| + 1].event == Check(b)
    ensures r[|p| + 2].event == Write(a) && r[|p| + 3].event == Write(b)
    ensures GrantCount(Ends(w, r).db.grants, s.registration) == GrantCount(Ends(w, p).db.grants, s.registration) + 2
    ensures Ends(w, r).tasks == Ends(w, p).tasks[a := Granted(s.registration, s.state)]
                                               [b := Granted(t.registration, t.state)]
  {
    var p2 := TwoCallsPass(w, p, a, b, s, t);
    var p3 := Then(w, p2, Write(a));
    r := Then(w, p3, Write(b));
    assert r[..|p|] == p3[..|p|] == p2[..|p|];
    GrantsGrow(Ends(w, p2).db.grants, GrantOf(w, s.registration, s.stepId.value), s.registration);
    GrantsGrow(Ends(w, p3).db.grants, GrantOf(w, s.registration, t.stepId.value), s.registration);
  }
}
