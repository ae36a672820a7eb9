/** Recording a statement and granting the training step it satisfies: the
    statement table in acceptance order, the registrations, and the grants. */
module Cmi5Recorder {
  import opened Wrappers
  import opened Cmi5Terms
  import opened Cmi5Validation

  const NORMAL := "Normal"

  /** What a session credential resolves to on the server. */
  datatype Session = Session(registration: Uuid, userId: Uuid, auId: Uuid, activityId: string, launchMode: string)

  datatype Au = Au(masteryScore: Option<real>, moveOn: string, stepId: Option<Uuid>)

  datatype Registration = Registration(satisfied: bool, passed: bool, completed: bool)

  datatype Row = Row(registration: Uuid, statementId: Uuid, stmt: Statement)

  datatype Grant = Grant(registration: Uuid, userId: Uuid, auId: Uuid, stepId: Uuid)

  datatype Db = Db(
    aus: map<Uuid, Au>,
    registrations: map<Uuid, Registration>,
    statements: seq<Row>,
    steps: set<Uuid>,
    grants: seq<Grant>)

  datatype Error =
    | BadStatement
    | AuNotFound
    | Rejected(violation: Violation)
    | BadMoveOn(word: string)
    | RegistrationNotFound
    | StepNotFound

  function Truth(session: Session, siteUrl: string, au: Au): Expectation {
    Expectation(siteUrl, session.userId, session.registration, session.activityId, au.masteryScore)
  }

  /** Whose statements a session takes, all said: its own learner's, by the account they
      have on this site, of its own registration and activity, in the cmi5 category and
      with a verb an AU may issue; and with that verb's result, a pass not below the score
      its AU asks for. */
  lemma ValidForTheSession(stmt: Statement, session: Session, siteUrl: string, au: Au)
    ensures Validate(stmt, Truth(session, siteUrl, au)).None? <==>
              && stmt.account == Some(Account(siteUrl, session.userId))
              && stmt.registration == Some(session.registration)
              && stmt.activityId == session.activityId
              && CMI5_CATEGORY in stmt.categories
              && stmt.verb in {INITIALIZED, COMPLETED, PASSED, FAILED, TERMINATED}
              && (stmt.verb == PASSED ==>
                    && stmt.result.Some? && stmt.result.value.success == Some(true)
                    && forall m :: au.masteryScore == Some(m) ==>
                         stmt.result.value.scaled.Some? && stmt.result.value.scaled.value >= m)
              && (stmt.verb == FAILED ==> stmt.result.Some? && stmt.result.value.success == Some(false))
              && (stmt.verb == COMPLETED ==> stmt.result.Some? && stmt.result.value.completion == Some(true))
  {
  }

  /** The id a statement is stored under: the caller's, its own, or a new one. */
  function StatementId(hint: Option<Uuid>, stmt: Statement, minted: Uuid): Uuid {
    if hint.Some? then hint.value else stmt.id.GetOr(minted)
  }

  predicate IsStored(rows: seq<Row>, statementId: Uuid) {
    exists row :: row in rows && row.statementId == statementId
  }

  /** What the log holds of one registration, in acceptance order. */
  function LogOf(rows: seq<Row>, registration: Uuid): seq<Statement> {
    if |rows| == 0 then []
    else
      var before, row := LogOf(rows[..|rows| - 1], registration), rows[|rows| - 1];
      if row.registration == registration then before + [row.stmt] else before
  }

  lemma LogAppends(rows: seq<Row>, row: Row, registration: Uuid)
    ensures LogOf(rows + [row], registration)
         == if row.registration == registration then LogOf(rows, registration) + [row.stmt]
              else LogOf(rows, registration)
  {
  }

  datatype Outcome = Outcome(db: Db, result: Result<Option<Grant>, Error>)

  /** The grant step, once a statement has been stored and the machine holds `s`. */
  function GrantOnSatisfaction(db: Db, session: Session, au: Au, s: SessionState): Outcome {
    match ParseMoveOn(au.moveOn)
    case None => Outcome(db, Err(BadMoveOn(au.moveOn)))
    case Some(moveOn) =>
      if session.launchMode != NORMAL || !EvaluateMoveOn(moveOn, s) || au.stepId.None? then Outcome(db, Ok(None))
      else if session.registration !in db.registrations then Outcome(db, Err(RegistrationNotFound))
      else if db.registrations[session.registration].satisfied then Outcome(db, Ok(None))
      else if au.stepId.value !in db.steps then Outcome(db, Err(StepNotFound))
      else
        var grant := Grant(session.registration, session.userId, session.auId, au.stepId.value);
        Outcome(db.(grants := db.grants + [grant],
                    registrations := db.registrations[session.registration := Registration(true, s.passed,
                        s.completed)]),
                Ok(Some(grant)))
  }

  /** One call. `raw` is absent when the body is not a statement; `minted` is the
      id the server would make up. */
  function Record(db: Db, session: Session, siteUrl: string, hint: Option<Uuid>, minted: Uuid,
                           raw: Option<Statement>): Outcome
  {
    if raw.None? then Outcome(db, Err(BadStatement))
    else if session.auId !in db.aus then Outcome(db, Err(AuNotFound))
    else
      var stmt, au := raw.value, db.aus[session.auId];
      var invalid := Validate(stmt, Truth(session, siteUrl, au));
      if invalid.Some? then Outcome(db, Err(Rejected(invalid.value)))
      else
        var id := StatementId(hint, stmt, minted);
        if IsStored(db.statements, id) then Outcome(db, Ok(None))
        else
          var step := Advance(Replay(LogOf(db.statements, session.registration)), stmt);
          if step.violation.Some? then Outcome(db, Err(Rejected(step.violation.value)))
          else
            GrantOnSatisfaction(db.(statements := db.statements + [Row(session.registration, id, stmt)]),
                                session, au, step.after)
  }

  /** One call stores its statement, under the caller's id, its own or a new one, exactly
      when that is valid for the session and its AU, no statement has that id, and it is
      in sequence after what the registration has stored. It changes nothing otherwise,
      and says why: a duplicate is accepted again, the rest are refused. */
  lemma StoresExactly(db: Db, session: Session, siteUrl: string, hint: Option<Uuid>, minted: Uuid,
                      raw: Option<Statement>)
    ensures var out := Record(db, session, siteUrl, hint, minted, raw);
            if raw.None? then out == Outcome(db, Err(BadStatement))
            else if session.auId !in db.aus then out == Outcome(db, Err(AuNotFound))
            else
              var stmt, mastery := raw.value, db.aus[session.auId].masteryScore;
              var id := if hint.Some? then hint.value else if stmt.id.Some? then stmt.id.value else minted;
              var isValid :=
                && stmt.account == Some(Account(siteUrl, session.userId))
                && stmt.registration == Some(session.registration)
                && stmt.activityId == session.activityId
                && CMI5_CATEGORY in stmt.categories
                && stmt.verb in {INITIALIZED, COMPLETED, PASSED, FAILED, TERMINATED}
                && (stmt.verb == PASSED ==>
                      && stmt.result.Some? && stmt.result.value.success == Some(true)
                      && forall m :: mastery == Some(m) ==>
                           stmt.result.value.scaled.Some? && stmt.result.value.scaled.value >= m)
                && (stmt.verb == FAILED ==> stmt.result.Some? && stmt.result.value.success == Some(false))
                && (stmt.verb == COMPLETED ==> stmt.result.Some? && stmt.result.value.completion == Some(true));
              var isNew := forall row :: row in db.statements ==> row.statementId != id;
              var refusal := Advance(Replay(LogOf(db.statements, session.registration)), stmt).violation;
              if !isValid then out.db == db && out.result.Err? && out.result.error.Rejected?
              else if !isNew then out == Outcome(db, Ok(None))
              else if refusal.Some? then out == Outcome(db, Err(Rejected(refusal.value)))
              else out.db.statements == db.statements + [Row(session.registration, id, stmt)]
  {
    if raw.Some? && session.auId in db.aus {
      ValidForTheSession(raw.value, session, siteUrl, db.aus[session.auId]);
    }
  }

  /** What the grant step answers once the statement is stored. */
  lemma SatisfactionAnswers(db: Db, session: Session, au: Au, s: SessionState)
    ensures var out, r := GrantOnSatisfaction(db, session, au, s), session.registration;
            var word := ParseMoveOn(au.moveOn);
            var earned := word.Some? && session.launchMode == NORMAL && EvaluateMoveOn(word.value, s)
                          && au.stepId.Some?;
            && (forall w :: out.result == Err(BadMoveOn(w)) <==> word.None? && w == au.moveOn)
            && (out.result == Err(RegistrationNotFound) <==> earned && r !in db.registrations)
            && (out.result == Err(StepNotFound) <==>
                  earned && r in db.registrations && !db.registrations[r].satisfied && au.stepId.value !in db.steps)
            && (forall g :: out.result == Ok(Some(g)) ==>
                  && earned && g == Grant(r, session.userId, session.auId, au.stepId.value)
                  && out.db.grants == db.grants + [g]
                  && r in out.db.registrations
                  && out.db.registrations[r] == Registration(true, s.passed, s.completed))
            && (out.result == Ok(None) <==>
                  word.Some? && (!earned || (r in db.registrations && db.registrations[r].satisfied)))
            && (!(out.result.Ok? && out.result.value.Some?) ==> out.db == db)
  {
  }

  // ----- the service ----------------------------------------------------

  class Cmi5Service {
    var aus: map<Uuid, Au>
    var registrations: map<Uuid, Registration>
    var statements: seq<Row>
    var steps: set<Uuid>
    var grants: seq<Grant>

    function View(): Db
      reads this
    {
      Db(aus, registrations, statements, steps, grants)
    }

    constructor (aus: map<Uuid, Au>, steps: set<Uuid>)
      ensures View() == Db(aus, map[], [], steps, [])
    {
      this.aus, this.steps := aus, steps;
      registrations, statements, grants := map[], [], [];
    }

    /** The machine rebuilt from what the table holds of the registration. */
    method Rebuild(registration: Uuid) returns (machine: SessionMachine)
      ensures fresh(machine) && machine.View() == Replay(LogOf(statements, registration))
    {
      machine := new SessionMachine();
      for i := 0 to |statements|
        invariant fresh(machine) && machine.View() == Replay(LogOf(statements[..i], registration))
      {
        var row := statements[i];
        assert statements[..i + 1] == statements[..i] + [row];
        LogAppends(statements[..i], row, registration);
        if row.registration == registration {
          ReplayAppends(LogOf(statements[..i], registration), row.stmt);
          var ignored := machine.Apply(row.stmt);
        }
      }
      assert statements[..|statements|] == statements;
    }

    method RecordStatement(session: Session, siteUrl: string, hint: Option<Uuid>, minted: Uuid, raw: Option<Statement>)
      returns (result: Result<Option<Grant>, Error>)
      modifies this`statements, this`grants, this`registrations
      ensures Outcome(View(), result)
           == Record(old(View()), session, siteUrl, hint, minted, raw)
      ensures statements != old(statements) ==>
                && raw.Some? && session.auId in aus
                && raw.value.account == Some(Account(siteUrl, session.userId))
                && raw.value.registration == Some(session.registration) && raw.value.activityId == session.activityId
                && (raw.value.verb == PASSED ==>
                      && raw.value.result.Some? && raw.value.result.value.success == Some(true)
                      && forall m :: aus[session.auId].masteryScore == Some(m) ==>
                           raw.value.result.value.scaled.Some? && raw.value.result.value.scaled.value >= m)
    {
      StoresExactly(View(), session, siteUrl, hint, minted, raw);
      if raw.None? {
        return Err(BadStatement);
      }
      var stmt := raw.value;
      if session.auId !in aus {
        return Err(AuNotFound);
      }
      var au := aus[session.auId];
      var invalid := Validate(stmt, Truth(session, siteUrl, au));
      if invalid.Some? {
        return Err(Rejected(invalid.value));
      }
      var id := StatementId(hint, stmt, minted);
      if IsStored(statements, id) {
        return Ok(None);
      }
      var machine := Rebuild(session.registration);
      var refused := machine.Apply(stmt);
      if refused.Some? {
        return Err(Rejected(refused.value));
      }
      statements := statements + [Row(session.registration, id, stmt)];
      result := Satisfy(session, au, machine);
    }

    method Satisfy(session: Session, au: Au, machine: SessionMachine) returns (result: Result<Option<Grant>, Error>)
      modifies this`grants, this`registrations
      ensures Outcome(View(), result) == GrantOnSatisfaction(old(View()), session, au, old(machine.View()))
    {
      var moveOn := ParseMoveOn(au.moveOn);
      if moveOn.None? {
        return Err(BadMoveOn(au.moveOn));
      }
      var creditable := session.launchMode == NORMAL;
      if !creditable || !EvaluateMoveOn(moveOn.value, machine.View()) {
        return Ok(None);
      }
      if au.stepId.None? {
        return Ok(None);
      }
      if session.registration !in registrations {
        return Err(RegistrationNotFound);
      }
      if registrations[session.registration].satisfied {
        return Ok(None);
      }
      if au.stepId.value !in steps {
        return Err(StepNotFound);
      }
      var grant := Grant(session.registration, session.userId, session.auId, au.stepId.value);
      grants := grants + [grant];
      registrations := registrations[session.registration := Registration(true, machine.passed, machine.completed)];
      return Ok(Some(grant));
    }
  }
}
