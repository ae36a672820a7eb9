/** Grant soundness: what holds of the statement table and the grants after any
    sequence of launches, recorded statements and edits to the step mapping. */
module Cmi5Grants {
  import opened Wrappers
  import opened Cmi5Terms
  import opened Cmi5Validation
  import opened Cmi5Recorder

  /** What no call changes: the site, what each registration's credential resolves
      to, and the AUs but for the training step each is mapped to. */
  datatype World = World(siteUrl: string, sessions: map<Uuid, Session>, aus: map<Uuid, Au>)
  {
    ghost predicate Known(registration: Uuid) {
      registration in sessions && sessions[registration].auId in aus
    }

    function Au(registration: Uuid): Au
      requires Known(registration)
    {
      aus[sessions[registration].auId]
    }

    function TruthOf(registration: Uuid): Expectation
      requires Known(registration)
    {
      var s := sessions[registration];
      Expectation(siteUrl, s.userId, s.registration, s.activityId, Au(registration).masteryScore)
    }
  }

  ghost predicate ValidWorld(w: World) {
    forall r :: r in w.sessions ==> w.sessions[r].registration == r
  }

  datatype Call =
    | Recorded(registration: Uuid, hint: Option<Uuid>, minted: Uuid, raw: Option<Statement>)
    | Launched(registration: Uuid, statementId: Uuid, stmt: Statement)
    | StepAssigned(auId: Uuid, stepId: Option<Uuid>)
    | StepsBecame(steps: set<Uuid>)

  /** The callers' side: a credential resolves to a known registration, and the LMS
      launches a new one with a verb no AU may issue. */
  ghost predicate MayCall(w: World, db: Db, call: Call) {
    match call
    case Recorded(r, _, _, _) => r in w.sessions
    case Launched(r, _, stmt) => r !in db.registrations && !IsAuVerb(stmt.verb)
    case StepAssigned(_, _) => true
    case StepsBecame(_) => true
  }

  function Next(w: World, db: Db, call: Call): Db
    requires call.Recorded? ==> call.registration in w.sessions
  {
    match call
    case Recorded(r, hint, minted, raw) => Record(db, w.sessions[r], w.siteUrl, hint, minted, raw).db
    case Launched(r, statementId, stmt) =>
      db.(registrations := db.registrations[r := Registration(false, false, false)],
          statements := db.statements + [Row(r, statementId, stmt)])
    case StepAssigned(auId, stepId) =>
      if auId in db.aus then db.(aus := db.aus[auId := db.aus[auId].(stepId := stepId)]) else db
    case StepsBecame(steps) => db.(steps := steps)
  }

  ghost predicate IsRun(w: World, start: Db, calls: seq<Call>)
    decreases |calls|, 0
  {
    |calls| > 0 ==>
      var before := calls[..|calls| - 1];
      IsRun(w, start, before) && MayCall(w, After(w, start, before), calls[|calls| - 1])
  }

  ghost function After(w: World, start: Db, calls: seq<Call>): Db
    requires IsRun(w, start, calls)
    decreases |calls|, 1
  {
    if |calls| == 0 then start else Next(w, After(w, start, calls[..|calls| - 1]), calls[|calls| - 1])
  }

  function Start(w: World): Db {
    Db(w.aus, map[], [], {}, [])
  }

  // ----- evidence ---------------------------------------------------------

  /** A moveOn-category statement in the log with this verb, validated for `truth`. */
  ghost predicate Witnessed(log: seq<Statement>, verb: string, truth: Expectation) {
    exists i :: 0 <= i < |log| && log[i].verb == verb && log[i].IsMoveOn() && IsEvidence(log[i], truth)
  }

  ghost predicate Meets(word: string, log: seq<Statement>, truth: Expectation) {
    match ParseMoveOn(word)
    case Some(Passed) => Witnessed(log, PASSED, truth)
    case Some(Completed) => Witnessed(log, COMPLETED, truth)
    case Some(CompletedAndPassed) => Witnessed(log, COMPLETED, truth) && Witnessed(log, PASSED, truth)
    case Some(CompletedOrPassed) => Witnessed(log, COMPLETED, truth) || Witnessed(log, PASSED, truth)
    case Some(NotApplicable) => false
    case None => false
  }

  /** A log as the recorder keeps it: each AU verb validated for the registration
      and in sequence when it was stored. */
  ghost predicate Vetted(log: seq<Statement>, truth: Expectation) {
    forall i :: 0 <= i < |log| && IsAuVerb(log[i].verb) ==>
      IsEvidence(log[i], truth) && Advance(Replay(log[..i]), log[i]).violation.None?
  }

  ghost predicate NoAuVerb(log: seq<Statement>) {
    forall i :: 0 <= i < |log| ==> !IsAuVerb(log[i].verb)
  }

  lemma VettedPrefix(log: seq<Statement>, n: nat, truth: Expectation)
    requires Vetted(log, truth) && n <= |log|
    ensures Vetted(log[..n], truth)
  {
    forall i | 0 <= i < n && IsAuVerb(log[..n][i].verb)
      ensures IsEvidence(log[..n][i], truth) && Advance(Replay(log[..n][..i]), log[..n][i]).violation.None?
    {
      assert log[..n][..i] == log[..i];
    }
  }

  lemma VettedAppend(log: seq<Statement>, stmt: Statement, truth: Expectation)
    requires Vetted(log, truth)
    requires IsAuVerb(stmt.verb) ==> IsEvidence(stmt, truth) && Advance(Replay(log), stmt).violation.None?
    ensures Vetted(log + [stmt], truth)
  {
    var after := log + [stmt];
    forall i | 0 <= i < |after| && IsAuVerb(after[i].verb)
      ensures IsEvidence(after[i], truth) && Advance(Replay(after[..i]), after[i]).violation.None?
    {
      assert after[..i] == log[..i];
      assert log[..|log|] == log;
    }
  }

  lemma WitnessedAppend(log: seq<Statement>, stmt: Statement, verb: string, truth: Expectation)
    ensures Witnessed(log + [stmt], verb, truth)
       <==> Witnessed(log, verb, truth) || (stmt.verb == verb && stmt.IsMoveOn() && IsEvidence(stmt, truth))
  {
    var after := log + [stmt];
    assert after[|log|] == stmt;
    assert forall i :: 0 <= i < |log| ==> after[i] == log[i];
  }

  lemma OutcomeStep(log: seq<Statement>, stmt: Statement, truth: Expectation)
    requires IsAuVerb(stmt.verb) ==> IsEvidence(stmt, truth) && Advance(Replay(log), stmt).violation.None?
    requires Replay(log).passed <==> Witnessed(log, PASSED, truth)
    requires Replay(log).completed <==> Witnessed(log, COMPLETED, truth)
    ensures Replay(log + [stmt]).passed <==> Witnessed(log + [stmt], PASSED, truth)
    ensures Replay(log + [stmt]).completed <==> Witnessed(log + [stmt], COMPLETED, truth)
  {
    VerbsAreDistinct();
    ReplayAppends(log, stmt);
    WitnessedAppend(log, stmt, PASSED, truth);
    WitnessedAppend(log, stmt, COMPLETED, truth);
  }

  /** In a vetted log the rebuilt machine's outcome is exactly the evidence. */
  lemma {:induction false} OutcomeIsTheEvidence(log: seq<Statement>, truth: Expectation)
    requires Vetted(log, truth)
    ensures Replay(log).passed <==> Witnessed(log, PASSED, truth)
    ensures Replay(log).completed <==> Witnessed(log, COMPLETED, truth)
  {
    if |log| > 0 {
      var n := |log| - 1;
      VettedPrefix(log, n, truth);
      OutcomeIsTheEvidence(log[..n], truth);
      OutcomeStep(log[..n], log[n], truth);
      assert log == log[..n] + [log[n]];
    }
  }

  /** So a moveOn is judged met exactly when the log holds what it asks for. */
  lemma MoveOnIsTheEvidence(word: string, log: seq<Statement>, truth: Expectation)
    requires Vetted(log, truth)
    ensures Meets(word, log, truth)
       <==> ParseMoveOn(word).Some? && EvaluateMoveOn(ParseMoveOn(word).value, Replay(log))
  {
    OutcomeIsTheEvidence(log, truth);
  }

  lemma MeetsStays(word: string, log: seq<Statement>, stmt: Statement, truth: Expectation)
    ensures Meets(word, log, truth) ==> Meets(word, log + [stmt], truth)
  {
    WitnessedAppend(log, stmt, PASSED, truth);
    WitnessedAppend(log, stmt, COMPLETED, truth);
  }

  /** The log holds a pass: a moveOn statement by this session's learner, of its
      registration and activity, that succeeds with at least the score the AU asks for. */
  ghost predicate HoldsPass(w: World, r: Uuid, log: seq<Statement>)
    requires w.Known(r)
  {
    var s, mastery := w.sessions[r], w.aus[w.sessions[r].auId].masteryScore;
    exists x :: x in log && x.verb == PASSED && MOVEON_CATEGORY in x.categories && CMI5_CATEGORY in x.categories
                && x.account == Some(Account(w.siteUrl, s.userId)) && x.registration == Some(s.registration)
                && x.activityId == s.activityId && x.result.Some? && x.result.value.success == Some(true)
                && forall m :: mastery == Some(m) ==>
                     x.result.value.scaled.Some? && x.result.value.scaled.value >= m
  }

  /** It holds a completion: one by that learner, of that registration and activity, that
      completes. */
  ghost predicate HoldsCompletion(w: World, r: Uuid, log: seq<Statement>)
    requires w.Known(r)
  {
    var s := w.sessions[r];
    exists x :: x in log && x.verb == COMPLETED && MOVEON_CATEGORY in x.categories && CMI5_CATEGORY in x.categories
                && x.account == Some(Account(w.siteUrl, s.userId)) && x.registration == Some(s.registration)
                && x.activityId == s.activityId && x.result.Some? && x.result.value.completion == Some(true)
  }

  /** What a met moveOn comes to, its word read out. */
  lemma {:induction false} MeetsMeans(w: World, r: Uuid, log: seq<Statement>)
    requires w.Known(r)
    ensures var word := w.aus[w.sessions[r].auId].moveOn;
            Meets(word, log, w.TruthOf(r)) <==>
              || (word == "Passed" && HoldsPass(w, r, log))
              || (word == "Completed" && HoldsCompletion(w, r, log))
              || (word == "CompletedAndPassed" && HoldsCompletion(w, r, log) && HoldsPass(w, r, log))
              || (word == "CompletedOrPassed" && (HoldsCompletion(w, r, log) || HoldsPass(w, r, log)))
  {
    PassIsWitnessed(w, r, log);
    CompletionIsWitnessed(w, r, log);
    MeetsByWord(w.Au(r).moveOn, log, w.TruthOf(r));
  }

  lemma MeetsByWord(word: string, log: seq<Statement>, truth: Expectation)
    ensures Meets(word, log, truth) <==>
              || (word == "Passed" && Witnessed(log, PASSED, truth))
              || (word == "Completed" && Witnessed(log, COMPLETED, truth))
              || (word == "CompletedAndPassed" && Witnessed(log, COMPLETED, truth) && Witnessed(log, PASSED, truth))
              || (word == "CompletedOrPassed" && (Witnessed(log, COMPLETED, truth) || Witnessed(log, PASSED, truth)))
  {
  }

  lemma PassIsWitnessed(w: World, r: Uuid, log: seq<Statement>)
    requires w.Known(r)
    ensures Witnessed(log, PASSED, w.TruthOf(r)) <==> HoldsPass(w, r, log)
  {
  }

  lemma CompletionIsWitnessed(w: World, r: Uuid, log: seq<Statement>)
    requires w.Known(r)
    ensures Witnessed(log, COMPLETED, w.TruthOf(r)) <==> HoldsCompletion(w, r, log)
  {
  }

  // ----- the invariant ----------------------------------------------------

  ghost predicate SameAus(w: World, db: Db) {
    && db.aus.Keys == w.aus.Keys
    && forall a :: a in w.aus ==>
         db.aus[a].masteryScore == w.aus[a].masteryScore && db.aus[a].moveOn == w.aus[a].moveOn
  }

  ghost predicate LogIsSound(w: World, db: Db, r: Uuid) {
    if w.Known(r) then Vetted(LogOf(db.statements, r), w.TruthOf(r)) else NoAuVerb(LogOf(db.statements, r))
  }

  predicate IsSatisfied(db: Db, r: Uuid) {
    r in db.registrations && db.registrations[r].satisfied
  }

  /** What a grant must rest on. */
  ghost predicate IsGrounded(w: World, db: Db, g: Grant) {
    && w.Known(g.registration)
    && w.sessions[g.registration].launchMode == NORMAL
    && w.sessions[g.registration].userId == g.userId
    && w.sessions[g.registration].auId == g.auId
    && IsSatisfied(db, g.registration)
    && Meets(w.Au(g.registration).moveOn, LogOf(db.statements, g.registration), w.TruthOf(g.registration))
  }

  ghost predicate AtMostOneEach(grants: seq<Grant>) {
    forall i, j :: 0 <= i < j < |grants| ==> grants[i].registration != grants[j].registration
  }

  ghost predicate HasGrant(grants: seq<Grant>, r: Uuid) {
    exists i :: 0 <= i < |grants| && grants[i].registration == r
  }

  ghost predicate Sound(w: World, db: Db) {
    && SameAus(w, db)
    && (forall r :: LogIsSound(w, db, r))
    && (forall r :: IsSatisfied(db, r) ==> HasGrant(db.grants, r))
    && (forall i :: 0 <= i < |db.grants| ==> IsGrounded(w, db, db.grants[i]))
    && AtMostOneEach(db.grants)
  }

  /** Storing one more row keeps every log sound, if the row belongs in its log. */
  lemma StoringKeepsSound(w: World, db: Db, row: Row)
    requires Sound(w, db)
    requires IsAuVerb(row.stmt.verb) ==>
               && w.Known(row.registration)
               && IsEvidence(row.stmt, w.TruthOf(row.registration))
               && Advance(Replay(LogOf(db.statements, row.registration)), row.stmt).violation.None?
    ensures Sound(w, db.(statements := db.statements + [row]))
  {
    var after := db.(statements := db.statements + [row]);
    forall r ensures LogIsSound(w, after, r) {
      assert LogIsSound(w, db, r);
      LogAppends(db.statements, row, r);
      if row.registration == r && w.Known(r) {
        VettedAppend(LogOf(db.statements, r), row.stmt, w.TruthOf(r));
      }
    }
    forall i | 0 <= i < |after.grants| ensures IsGrounded(w, after, after.grants[i]) {
      var g := db.grants[i];
      assert IsGrounded(w, db, g);
      LogAppends(db.statements, row, g.registration);
      MeetsStays(w.Au(g.registration).moveOn, LogOf(db.statements, g.registration), row.stmt,
                 w.TruthOf(g.registration));
    }
    forall r | IsSatisfied(after, r) ensures HasGrant(after.grants, r) {
      assert IsSatisfied(db, r);
    }
  }

  /** When a registration whose log has just grown is owed its grant. */
  ghost predicate IsDue(w: World, db: Db, r: Uuid)
    requires w.Known(r) && SameAus(w, db)
  {
    && r in db.registrations
    && !db.registrations[r].satisfied
    && w.sessions[r].launchMode == NORMAL
    && Meets(w.Au(r).moveOn, LogOf(db.statements, r), w.TruthOf(r))
    && db.aus[w.sessions[r].auId].stepId.Some?
    && db.aus[w.sessions[r].auId].stepId.value in db.steps
  }

  function GrantFor(w: World, db: Db, r: Uuid): Grant
    requires r in w.sessions && w.sessions[r].auId in db.aus && db.aus[w.sessions[r].auId].stepId.Some?
  {
    Grant(r, w.sessions[r].userId, w.sessions[r].auId, db.aus[w.sessions[r].auId].stepId.value)
  }

  /** The grant step writes exactly the grant that is due, and nothing else. */
  lemma GrantStepWritesWhatIsDue(w: World, db: Db, r: Uuid)
    requires ValidWorld(w) && w.Known(r) && SameAus(w, db)
    requires Vetted(LogOf(db.statements, r), w.TruthOf(r))
    ensures var out := GrantOnSatisfaction(db, w.sessions[r], db.aus[w.sessions[r].auId], Replay(LogOf(db.statements,
         r)));
            && (IsDue(w, db, r) <==> out.result.Ok? && out.result.value.Some?)
            && (IsDue(w, db, r) ==>
                  && out.result == Ok(Some(GrantFor(w, db, r)))
                  && out.db.grants == db.grants + [GrantFor(w, db, r)]
                  && out.db.registrations.Keys == db.registrations.Keys
                  && out.db.registrations[r].satisfied
                  && (forall k :: k in db.registrations && k != r ==> out.db.registrations[k] == db.registrations[k])
                  && out.db.(grants := db.grants, registrations := db.registrations) == db)
            && (!IsDue(w, db, r) ==> out.db == db)
  {
    MoveOnIsTheEvidence(w.Au(r).moveOn, LogOf(db.statements, r), w.TruthOf(r));
  }

  lemma GrantingKeepsSound(w: World, db: Db, after: Db, r: Uuid)
    requires Sound(w, db) && w.Known(r) && ValidWorld(w) && IsDue(w, db, r)
    requires after.grants == db.grants + [GrantFor(w, db, r)]
    requires after.registrations.Keys == db.registrations.Keys && after.registrations[r].satisfied
    requires forall k :: k in db.registrations && k != r ==> after.registrations[k] == db.registrations[k]
    requires after.(grants := db.grants, registrations := db.registrations) == db
    ensures Sound(w, after)
  {
    var n := |db.grants|;
    assert after.grants[n] == GrantFor(w, db, r);
    forall i | 0 <= i < n ensures IsGrounded(w, after, after.grants[i]) && after.grants[i].registration != r {
      assert after.grants[i] == db.grants[i];
      assert IsGrounded(w, db, db.grants[i]);
    }
    forall k ensures LogIsSound(w, after, k) {
      assert LogIsSound(w, db, k);
    }
    forall k | IsSatisfied(after, k) ensures HasGrant(after.grants, k) {
      if k != r {
        assert IsSatisfied(db, k);
        var i :| 0 <= i < n && db.grants[i].registration == k;
        assert after.grants[i].registration == k;
      }
    }
  }

  /** The statement gets as far as the table: it is one, its AU is there, it is valid,
      new, and in sequence. */
  ghost predicate IsTaken(w: World, db: Db, r: Uuid, hint: Option<Uuid>, minted: Uuid, raw: Option<Statement>)
    requires r in w.sessions
  {
    && raw.Some? && w.sessions[r].auId in db.aus
    && Validate(raw.value, Truth(w.sessions[r], w.siteUrl, db.aus[w.sessions[r].auId])).None?
    && !IsStored(db.statements, StatementId(hint, raw.value, minted))
    && Advance(Replay(LogOf(db.statements, r)), raw.value).violation.None?
  }

  lemma NotTakenChangesNothing(w: World, db: Db, r: Uuid, hint: Option<Uuid>, minted: Uuid, raw: Option<Statement>)
    requires ValidWorld(w) && r in w.sessions && !IsTaken(w, db, r, hint, minted, raw)
    ensures var out := Record(db, w.sessions[r], w.siteUrl, hint, minted, raw);
            out.db == db && !(out.result.Ok? && out.result.value.Some?)
  {
  }

  /** Taken, it is stored, and then the grant step runs on the log with it in. */
  lemma TakenIsStored(w: World, db: Db, r: Uuid, hint: Option<Uuid>, minted: Uuid, stmt: Statement)
    requires ValidWorld(w) && Sound(w, db) && r in w.sessions && IsTaken(w, db, r, hint, minted, Some(stmt))
    ensures var stored := db.(statements := db.statements + [Row(r, StatementId(hint, stmt, minted), stmt)]);
            && w.Known(r) && IsEvidence(stmt, w.TruthOf(r)) && Sound(w, stored)
            && Record(db, w.sessions[r], w.siteUrl, hint, minted, Some(stmt))
               == GrantOnSatisfaction(stored, w.sessions[r], stored.aus[w.sessions[r].auId],
                                      Replay(LogOf(stored.statements, r)))
  {
    var row := Row(r, StatementId(hint, stmt, minted), stmt);
    ValidateMeans(stmt, w.TruthOf(r));
    StoringKeepsSound(w, db, row);
    LogAppends(db.statements, row, r);
    ReplayAppends(LogOf(db.statements, r), stmt);
  }

  /** One recorded statement. A refused one or a duplicate changes nothing and grants
      nothing; a stored one writes a grant exactly when, with it in the log, the
      registration is owed one, and the answer carries that grant. */
  lemma RecordGrantsWhatIsDue(w: World, db: Db, r: Uuid, hint: Option<Uuid>, minted: Uuid, raw: Option<Statement>)
    requires ValidWorld(w) && Sound(w, db) && r in w.sessions
    ensures var out := Record(db, w.sessions[r], w.siteUrl, hint, minted, raw);
            && Sound(w, out.db)
            && (raw.Some? && IsStored(db.statements, StatementId(hint, raw.value, minted)) ==> out.db == db)
            && (out.db.statements == db.statements ==> out.db == db && !(out.result.Ok? && out.result.value.Some?))
            && (out.db.statements != db.statements ==>
                  && raw.Some? && w.Known(r)
                  && IsEvidence(raw.value, w.TruthOf(r))
                  && var stored := db.(statements :=
                       db.statements + [Row(r, StatementId(hint, raw.value, minted), raw.value)]);
                     && out.db.statements == stored.statements
                     && (IsDue(w, stored, r) <==> out.result.Ok? && out.result.value.Some?)
                     && (!IsDue(w, stored, r) ==> out.db == stored)
                     && (IsDue(w, stored, r) ==>
                           var s := w.sessions[r];
                           var grant := Grant(r, s.userId, s.auId, db.aus[s.auId].stepId.value);
                           out.result == Ok(Some(grant)) && out.db.grants == db.grants + [grant]))
  {
    if IsTaken(w, db, r, hint, minted, raw) {
      var stored := db.(statements := db.statements + [Row(r, StatementId(hint, raw.value, minted), raw.value)]);
      TakenIsStored(w, db, r, hint, minted, raw.value);
      assert LogIsSound(w, stored, r);
      GrantStepWritesWhatIsDue(w, stored, r);
      if IsDue(w, stored, r) {
        GrantingKeepsSound(w, stored, Record(db, w.sessions[r], w.siteUrl, hint, minted, raw).db, r);
      }
    } else {
      NotTakenChangesNothing(w, db, r, hint, minted, raw);
    }
  }

  lemma OtherCallsKeepSound(w: World, db: Db, call: Call)
    requires ValidWorld(w) && Sound(w, db) && MayCall(w, db, call) && !call.Recorded?
    ensures Sound(w, Next(w, db, call)) && Next(w, db, call).grants == db.grants
  {
    if call.Launched? {
      var row := Row(call.registration, call.statementId, call.stmt);
      StoringKeepsSound(w, db, row);
      SameEvidence(w, db.(statements := db.statements + [row]), Next(w, db, call));
    } else {
      SameEvidence(w, db, Next(w, db, call));
    }
  }

  lemma SameEvidence(w: World, db: Db, after: Db)
    requires Sound(w, db) && SameAus(w, after)
    requires after.statements == db.statements && after.grants == db.grants
    requires forall r :: IsSatisfied(after, r) <==> IsSatisfied(db, r)
    ensures Sound(w, after)
  {
    forall r ensures LogIsSound(w, after, r) {
      assert LogIsSound(w, db, r);
    }
    forall i | 0 <= i < |after.grants| ensures IsGrounded(w, after, after.grants[i]) {
      assert IsGrounded(w, db, db.grants[i]);
    }
  }

  /** Over any run of launches, recorded statements (duplicates, forgeries and other
      registrations' included) and edits to the mapping: each registration has at
      most one grant, has one exactly when it is satisfied, and every grant rests on
      a Normal launch whose log holds the validated moveOn statements its AU asks
      for, all of them that registration's own. */
  lemma {:induction false} GrantsAreSoundAndUnique(w: World, calls: seq<Call>)
    requires ValidWorld(w) && IsRun(w, Start(w), calls)
    ensures Sound(w, After(w, Start(w), calls))
    ensures forall r :: HasGrant(After(w, Start(w), calls).grants, r) <==> IsSatisfied(After(w, Start(w), calls), r)
  {
    if |calls| == 0 {
      assert forall r :: LogOf([], r) == [];
    } else {
      var before, call := calls[..|calls| - 1], calls[|calls| - 1];
      GrantsAreSoundAndUnique(w, before);
      var db := After(w, Start(w), before);
      if call.Recorded? {
        RecordGrantsWhatIsDue(w, db, call.registration, call.hint, call.minted, call.raw);
      } else {
        OtherCallsKeepSound(w, db, call);
      }
    }
    GrantedIsSatisfied(w, After(w, Start(w), calls));
  }

  lemma GrantedIsSatisfied(w: World, db: Db)
    requires Sound(w, db)
    ensures forall r :: HasGrant(db.grants, r) <==> IsSatisfied(db, r)
  {
  }

  /** The grant is that session's, of a Normal launch, and its log holds what its AU's
      moveOn asks for. */
  ghost predicate RestsOnTheLog(w: World, log: seq<Statement>, g: Grant) {
    && w.Known(g.registration)
    && var s, word := w.sessions[g.registration], w.aus[w.sessions[g.registration].auId].moveOn;
       && s.launchMode == "Normal" && g.userId == s.userId && g.auId == s.auId
       && word in {"Passed", "Completed", "CompletedAndPassed", "CompletedOrPassed"}
       && (word in {"Passed", "CompletedAndPassed"} ==> HoldsPass(w, g.registration, log))
       && (word in {"Completed", "CompletedAndPassed"} ==> HoldsCompletion(w, g.registration, log))
       && (word == "CompletedOrPassed" ==>
             HoldsCompletion(w, g.registration, log) || HoldsPass(w, g.registration, log))
  }

  /** So whatever has been called, behind every grant stand the statements its AU asks for:
      by that learner's account on this site, of that registration and activity, and no
      pass below the score asked for. */
  lemma GrantsRestOnTheLog(w: World, calls: seq<Call>)
    requires ValidWorld(w) && IsRun(w, Start(w), calls)
    ensures var db := After(w, Start(w), calls);
            forall g :: g in db.grants ==> RestsOnTheLog(w, LogOf(db.statements, g.registration), g)
  {
    var db := After(w, Start(w), calls);
    GrantsAreSoundAndUnique(w, calls);
    forall g | g in db.grants ensures RestsOnTheLog(w, LogOf(db.statements, g.registration), g) {
      var i :| 0 <= i < |db.grants| && db.grants[i] == g;
      assert IsGrounded(w, db, db.grants[i]);
      MeetsMeans(w, g.registration, LogOf(db.statements, g.registration));
    }
  }
}
