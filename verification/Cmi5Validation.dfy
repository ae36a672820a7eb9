/** Which statements count, the order a session's verbs may come in, and when they
    move the learner on (the cmi5 specification, section 9.3, Verbs). */
module Cmi5Validation {
  import opened Wrappers
  import opened Cmi5Terms

  type Uuid = string

  const INITIALIZED := "http://adlnet.gov/expapi/verbs/initialized"
  const COMPLETED := "http://adlnet.gov/expapi/verbs/completed"
  const PASSED := "http://adlnet.gov/expapi/verbs/passed"
  const FAILED := "http://adlnet.gov/expapi/verbs/failed"
  const TERMINATED := "http://adlnet.gov/expapi/verbs/terminated"

  const CMI5_CATEGORY := "https://w3id.org/xapi/cmi5/context/categories/cmi5"
  const MOVEON_CATEGORY := "https://w3id.org/xapi/cmi5/context/categories/moveon"

  lemma VerbsAreDistinct()
    ensures INITIALIZED != COMPLETED && INITIALIZED != PASSED && INITIALIZED != FAILED && INITIALIZED != TERMINATED
    ensures COMPLETED != PASSED && COMPLETED != FAILED && COMPLETED != TERMINATED
    ensures PASSED != FAILED && PASSED != TERMINATED && FAILED != TERMINATED
  {
  }

  datatype Account = Account(homePage: string, name: string)

  datatype XResult = XResult(success: Option<bool>, completion: Option<bool>, scaled: Option<real>)

  /** The slice of an xAPI statement that cmi5 reasons over; an absent context is
      one with no registration and no category. */
  datatype Statement = Statement(
    id: Option<Uuid>,
    account: Option<Account>,
    verb: string,
    activityId: string,
    result: Option<XResult>,
    registration: Option<Uuid>,
    categories: seq<string>)
  {
    predicate IsMoveOn() {
      MOVEON_CATEGORY in categories
    }
  }

  /** The server's truth about a session, which no statement may contradict. */
  datatype Expectation = Expectation(
    homePage: string,
    accountName: string,
    registration: Uuid,
    activityId: string,
    masteryScore: Option<real>)

  datatype Violation =
    | NotAnAccountActor
    | ActorMismatch
    | RegistrationMismatch
    | ActivityMismatch
    | MissingCmi5Category
    | UnknownVerb(verb: string)
    | MissingResult
    | NotPassedSuccess
    | NotFailedSuccess
    | NotCompleted
    | BelowMasteryScore(scaled: Option<real>, required: real)
    | NotInitialized
    | AlreadyInitialized
    | AfterTerminated
    | BothPassedAndFailed

  predicate IsAuVerb(verb: string) {
    verb == INITIALIZED || verb == COMPLETED || verb == PASSED || verb == FAILED || verb == TERMINATED
  }

  /** The result a verb must carry. */
  function CheckResult(stmt: Statement, mastery: Option<real>): Option<Violation> {
    if stmt.verb == PASSED then
      if stmt.result.None? then Some(MissingResult)
      else if stmt.result.value.success != Some(true) then Some(NotPassedSuccess)
      else if mastery.Some? && (stmt.result.value.scaled.None? || stmt.result.value.scaled.value < mastery.value)
      then Some(BelowMasteryScore(stmt.result.value.scaled, mastery.value))
      else None
    else if stmt.verb == FAILED then
      if stmt.result.None? then Some(MissingResult)
      else if stmt.result.value.success != Some(false) then Some(NotFailedSuccess)
      else None
    else if stmt.verb == COMPLETED then
      if stmt.result.None? then Some(MissingResult)
      else if stmt.result.value.completion != Some(true) then Some(NotCompleted)
      else None
    else None
  }

  /** Identity and binding first, so a forgery fails as one whatever its score. */
  function Validate(stmt: Statement, truth: Expectation): Option<Violation> {
    if stmt.account.None? then Some(NotAnAccountActor)
    else if stmt.account.value.homePage != truth.homePage || stmt.account.value.name != truth.accountName
    then Some(ActorMismatch)
    else if stmt.registration != Some(truth.registration) then Some(RegistrationMismatch)
    else if stmt.activityId != truth.activityId then Some(ActivityMismatch)
    else if CMI5_CATEGORY !in stmt.categories then Some(MissingCmi5Category)
    else if !IsAuVerb(stmt.verb) then Some(UnknownVerb(stmt.verb))
    else CheckResult(stmt, truth.masteryScore)
  }

  /** What a statement that may count has to be. */
  predicate IsEvidence(stmt: Statement, truth: Expectation) {
    && stmt.account == Some(Account(truth.homePage, truth.accountName))
    && stmt.registration == Some(truth.registration)
    && stmt.activityId == truth.activityId
    && CMI5_CATEGORY in stmt.categories
    && IsAuVerb(stmt.verb)
    && (stmt.verb == PASSED ==>
          && stmt.result.Some? && stmt.result.value.success == Some(true)
          && (truth.masteryScore.Some? ==>
                stmt.result.value.scaled.Some? && stmt.result.value.scaled.value >= truth.masteryScore.value))
    && (stmt.verb == FAILED ==> stmt.result.Some? && stmt.result.value.success == Some(false))
    && (stmt.verb == COMPLETED ==> stmt.result.Some? && stmt.result.value.completion == Some(true))
  }

  /** Validation accepts a statement exactly when actor, registration and activity are
      the session's own and its verb and result are ones the AU may issue; and a statement that fails
      its binding is refused as that, whatever it says of its score. */
  lemma ValidateMeans(stmt: Statement, truth: Expectation)
    ensures Validate(stmt, truth).None? <==> IsEvidence(stmt, truth)
    ensures (stmt.account != Some(Account(truth.homePage, truth.accountName))
             || stmt.registration != Some(truth.registration) || stmt.activityId != truth.activityId) ==>
              forall scaled :: stmt.result.Some? ==>
                Validate(stmt.(result := Some(stmt.result.value.(scaled := scaled))), truth) == Validate(stmt, truth)
  {
  }

  /** The first six grounds of a refusal, in this order: who, which registration, which
      activity, the category and the verb. */
  lemma BindingViolations(stmt: Statement, truth: Expectation)
    ensures var v := Validate(stmt, truth);
            var isActor := stmt.account == Some(Account(truth.homePage, truth.accountName));
            var isOurs := isActor && stmt.registration == Some(truth.registration);
            var isBound := isOurs && stmt.activityId == truth.activityId;
            && (v == Some(NotAnAccountActor) <==> stmt.account.None?)
            && (v == Some(ActorMismatch) <==> stmt.account.Some? && !isActor)
            && (v == Some(RegistrationMismatch) <==> isActor && stmt.registration != Some(truth.registration))
            && (v == Some(ActivityMismatch) <==> isOurs && stmt.activityId != truth.activityId)
            && (v == Some(MissingCmi5Category) <==> isBound && CMI5_CATEGORY !in stmt.categories)
            && (forall verb :: v == Some(UnknownVerb(verb)) <==>
                  isBound && CMI5_CATEGORY in stmt.categories && !IsAuVerb(stmt.verb) && verb == stmt.verb)
  {
  }

  /** And the grounds in its result, once all those are in order. */
  lemma ResultViolations(stmt: Statement, truth: Expectation)
    requires stmt.account == Some(Account(truth.homePage, truth.accountName))
    requires stmt.registration == Some(truth.registration) && stmt.activityId == truth.activityId
    requires CMI5_CATEGORY in stmt.categories && IsAuVerb(stmt.verb)
    ensures var v, result := Validate(stmt, truth), stmt.result;
            var isPass := stmt.verb == PASSED && result.Some?;
            && (v == Some(MissingResult) <==>
                  (stmt.verb == PASSED || stmt.verb == FAILED || stmt.verb == COMPLETED) && result.None?)
            && (v == Some(NotPassedSuccess) <==> isPass && result.value.success != Some(true))
            && (v == Some(NotFailedSuccess) <==>
                  stmt.verb == FAILED && result.Some? && result.value.success != Some(false))
            && (v == Some(NotCompleted) <==>
                  stmt.verb == COMPLETED && result.Some? && result.value.completion != Some(true))
            && (forall scaled, required :: v == Some(BelowMasteryScore(scaled, required)) <==>
                  && isPass && result.value.success == Some(true) && truth.masteryScore == Some(required)
                  && scaled == result.value.scaled && (scaled.None? || scaled.value < required))
  {
  }

  // ----- the sequence machine -------------------------------------------

  datatype SessionState = SessionState(
    initialized: bool,
    terminated: bool,
    passed: bool,
    completed: bool,
    failed: bool)

  const NEW_SESSION := SessionState(false, false, false, false, false)

  datatype Step = Step(after: SessionState, violation: Option<Violation>)

  function Refuse(s: SessionState, v: Violation): Step {
    Step(s, Some(v))
  }

  function Advance(s: SessionState, stmt: Statement): Step {
    if s.terminated then Refuse(s, AfterTerminated)
    else if stmt.verb == INITIALIZED then
      if s.initialized then Refuse(s, AlreadyInitialized) else Step(s.(initialized := true), None)
    else if stmt.verb == PASSED then
      if !s.initialized then Refuse(s, NotInitialized)
      else if !stmt.IsMoveOn() then Step(s, None)
      else if s.failed then Refuse(s, BothPassedAndFailed)
      else Step(s.(passed := true), None)
    else if stmt.verb == FAILED then
      if !s.initialized then Refuse(s, NotInitialized)
      else if !stmt.IsMoveOn() then Step(s, None)
      else if s.passed then Refuse(s, BothPassedAndFailed)
      else Step(s.(failed := true), None)
    else if stmt.verb == COMPLETED then
      if !s.initialized then Refuse(s, NotInitialized)
      else Step(if stmt.IsMoveOn() then s.(completed := true) else s, None)
    else if stmt.verb == TERMINATED then
      if !s.initialized then Refuse(s, NotInitialized) else Step(s.(terminated := true), None)
    else Refuse(s, UnknownVerb(stmt.verb))
  }

  function EvaluateMoveOn(m: MoveOn, s: SessionState): bool {
    match m
    case Passed => s.passed
    case Completed => s.completed
    case CompletedAndPassed => s.completed && s.passed
    case CompletedOrPassed => s.completed || s.passed
    case NotApplicable => false
  }

  /** The machine as the server drives it: one set of flags, updated in place. */
  class SessionMachine {
    var initialized: bool
    var terminated: bool
    var passed: bool
    var completed: bool
    var failed: bool

    function View(): SessionState
      reads this
    {
      SessionState(initialized, terminated, passed, completed, failed)
    }

    constructor ()
      ensures View() == NEW_SESSION
    {
      initialized, terminated, passed, completed, failed := false, false, false, false, false;
    }

    method Apply(stmt: Statement) returns (v: Option<Violation>)
      modifies this
      ensures Step(View(), v) == Advance(old(View()), stmt)
    {
      if terminated {
        return Some(AfterTerminated);
      }
      var counts := stmt.IsMoveOn();
      if stmt.verb == INITIALIZED {
        if initialized {
          return Some(AlreadyInitialized);
        }
        initialized := true;
      } else if stmt.verb == PASSED {
        if !initialized {
          return Some(NotInitialized);
        }
        if counts {
          if failed {
            return Some(BothPassedAndFailed);
          }
          passed := true;
        }
      } else if stmt.verb == FAILED {
        if !initialized {
          return Some(NotInitialized);
        }
        if counts {
          if passed {
            return Some(BothPassedAndFailed);
          }
          failed := true;
        }
      } else if stmt.verb == COMPLETED {
        if !initialized {
          return Some(NotInitialized);
        }
        if counts {
          completed := true;
        }
      } else if stmt.verb == TERMINATED {
        if !initialized {
          return Some(NotInitialized);
        }
        terminated := true;
      } else {
        return Some(UnknownVerb(stmt.verb));
      }
      return None;
    }
  }

  // ----- replay ---------------------------------------------------------

  /** The state rebuilt from a log, errors ignored. */
  function Replay(log: seq<Statement>): SessionState {
    if |log| == 0 then NEW_SESSION else Advance(Replay(log[..|log| - 1]), log[|log| - 1]).after
  }

  /** What reaches a session: content submits, and the LMS writes its own verbs. */
  datatype Arrival = Submitted(stmt: Statement) | LmsWrote(stmt: Statement)

  /** The machine kept live through all of it: fed what validates, and nothing else. */
  function Live(arrivals: seq<Arrival>, truth: Expectation): SessionState {
    if |arrivals| == 0 then NEW_SESSION
    else
      var s, a := Live(arrivals[..|arrivals| - 1], truth), arrivals[|arrivals| - 1];
      if a.Submitted? && Validate(a.stmt, truth).None? then Advance(s, a.stmt).after else s
  }

  /** What is stored: the LMS's own statements and every submission accepted. */
  function Stored(arrivals: seq<Arrival>, truth: Expectation): seq<Statement> {
    if |arrivals| == 0 then []
    else
      var before, a := arrivals[..|arrivals| - 1], arrivals[|arrivals| - 1];
      var accepted := a.LmsWrote?
                      || (Validate(a.stmt, truth).None? && Advance(Live(before, truth), a.stmt).violation.None?);
      Stored(before, truth) + if accepted then [a.stmt] else []
  }

  /** A refused statement leaves the machine as it was. */
  lemma RefusalChangesNothing(s: SessionState, stmt: Statement)
    ensures Advance(s, stmt).violation.Some? ==> Advance(s, stmt).after == s
    ensures !IsAuVerb(stmt.verb) ==> Advance(s, stmt).violation.Some?
  {
  }

  lemma ReplayAppends(log: seq<Statement>, stmt: Statement)
    ensures Replay(log + [stmt]) == Advance(Replay(log), stmt).after
  {
  }

  /** Rebuilding the machine from the stored log, the LMS's own verbs included and
      their errors ignored, gives the state a live machine would be in. */
  lemma {:induction false} ReplayIsLive(arrivals: seq<Arrival>, truth: Expectation)
    requires forall a :: a in arrivals && a.LmsWrote? ==> !IsAuVerb(a.stmt.verb)
    ensures Replay(Stored(arrivals, truth)) == Live(arrivals, truth)
  {
    if |arrivals| > 0 {
      var before, a := arrivals[..|arrivals| - 1], arrivals[|arrivals| - 1];
      ReplayIsLive(before, truth);
      assert a in arrivals;
      assert Stored(before, truth) + [] == Stored(before, truth);
      ReplayAppends(Stored(before, truth), a.stmt);
      RefusalChangesNothing(Live(before, truth), a.stmt);
    }
  }

  ghost predicate Consistent(s: SessionState) {
    && !(s.passed && s.failed)
    && (s.passed || s.failed || s.completed || s.terminated ==> s.initialized)
  }

  /** What one statement may do: never undo a flag, never leave both outcomes, do
      nothing at all once terminated, and never unmeet a moveOn. */
  lemma AdvanceOnlyAdds(s: SessionState, stmt: Statement, m: MoveOn)
    requires Consistent(s)
    ensures var t := Advance(s, stmt).after;
            && Consistent(t)
            && (s.terminated ==> t == s)
            && (s.initialized ==> t.initialized)
            && (EvaluateMoveOn(m, s) ==> EvaluateMoveOn(m, t))
  {
  }

  /** In every reachable state there are not both outcomes and nothing came before
      `initialized`; past any point where it terminated the state stands still, and
      a moveOn met at any point is met from then on. */
  lemma {:induction false} ReachableStates(log: seq<Statement>, n: nat, m: MoveOn)
    requires n <= |log|
    ensures Consistent(Replay(log))
    ensures Replay(log[..n]).terminated ==> Replay(log) == Replay(log[..n])
    ensures EvaluateMoveOn(m, Replay(log[..n])) ==> EvaluateMoveOn(m, Replay(log))
    decreases |log|
  {
    if n == |log| {
      assert log[..n] == log;
      if n > 0 {
        ReachableStates(log[..n - 1], n - 1, m);
        AdvanceOnlyAdds(Replay(log[..n - 1]), log[n - 1], m);
      }
    } else {
      var p := log[..|log| - 1];
      ReachableStates(p, n, m);
      assert p[..n] == log[..n];
      AdvanceOnlyAdds(Replay(p), log[|log| - 1], m);
    }
  }

  /** An outcome is on record only if the log holds a moveOn statement saying so. */
  lemma {:induction false} OutcomeIsInTheLog(log: seq<Statement>)
    ensures Replay(log).passed ==> exists i :: 0 <= i < |log| && log[i].verb == PASSED && log[i].IsMoveOn()
    ensures Replay(log).completed ==> exists i :: 0 <= i < |log| && log[i].verb == COMPLETED && log[i].IsMoveOn()
  {
    if |log| > 0 {
      var n := |log| - 1;
      OutcomeIsInTheLog(log[..n]);
      var s := Replay(log[..n]);
      if s.passed {
        var i :| 0 <= i < n && log[..n][i].verb == PASSED && log[..n][i].IsMoveOn();
        assert log[i].verb == PASSED && log[i].IsMoveOn();
      } else if Replay(log).passed {
        assert log[n].verb == PASSED && log[n].IsMoveOn();
      }
      if s.completed {
        var i :| 0 <= i < n && log[..n][i].verb == COMPLETED && log[..n][i].IsMoveOn();
        assert log[i].verb == COMPLETED && log[i].IsMoveOn();
      } else if Replay(log).completed {
        assert log[n].verb == COMPLETED && log[n].IsMoveOn();
      }
    }
  }

  // ----- the flags as the log tells them ----------------------------------

  /** The log holds an `initialized` among its first `n` statements. */
  ghost predicate HasBegun(log: seq<Statement>, n: int) {
    exists i :: 0 <= i < n <= |log| && log[i].verb == INITIALIZED
  }

  /** And a `terminated` after one. */
  ghost predicate HasEnded(log: seq<Statement>, n: int) {
    exists j :: 0 <= j < n <= |log| && log[j].verb == TERMINATED && HasBegun(log, j)
  }

  /** A moveOn statement with this verb came while the session was open. */
  ghost predicate Tells(log: seq<Statement>, k: int, verb: string) {
    && 0 <= k < |log| && log[k].verb == verb && MOVEON_CATEGORY in log[k].categories
    && HasBegun(log, k) && !HasEnded(log, k)
  }

  /** It was the first of the two outcomes to come. */
  ghost predicate TellsFirst(log: seq<Statement>, k: int, verb: string, other: string) {
    Tells(log, k, verb) && forall j :: 0 <= j < k ==> !Tells(log, j, other)
  }

  lemma BegunBefore(log: seq<Statement>, n: nat, k: nat)
    requires k <= n <= |log|
    ensures HasBegun(log[..n], k) <==> HasBegun(log, k)
    ensures HasEnded(log[..n], k) <==> HasEnded(log, k)
  {
  }

  lemma TellsBefore(log: seq<Statement>, n: nat, verb: string, other: string)
    requires n <= |log|
    ensures forall k :: 0 <= k < n ==> (Tells(log[..n], k, verb) <==> Tells(log, k, verb))
    ensures forall k :: 0 <= k < n ==> (TellsFirst(log[..n], k, verb, other) <==> TellsFirst(log, k, verb, other))
  {
    forall k | 0 <= k < n
      ensures Tells(log[..n], k, verb) <==> Tells(log, k, verb)
      ensures Tells(log[..n], k, other) <==> Tells(log, k, other)
    {
      BegunBefore(log, n, k);
    }
  }

  /** The session is begun by the first `initialized`, and ended by the first
      `terminated` after that. */
  lemma {:induction false} BeginningAndEnd(log: seq<Statement>)
    ensures Replay(log).initialized <==> HasBegun(log, |log|)
    ensures Replay(log).terminated <==> HasEnded(log, |log|)
  {
    if |log| > 0 {
      var n := |log| - 1;
      VerbsAreDistinct();
      BeginningAndEnd(log[..n]);
      BegunBefore(log, n, n);
      ReachableStates(log[..n], n, Passed);
      assert HasBegun(log, |log|) <==> HasBegun(log, n) || log[n].verb == INITIALIZED;
      assert HasEnded(log, |log|) <==> HasEnded(log, n) || (log[n].verb == TERMINATED && HasBegun(log, n));
    }
  }

  ghost predicate IsTold(log: seq<Statement>, verb: string) {
    exists k :: Tells(log, k, verb)
  }

  ghost predicate IsToldFirst(log: seq<Statement>, verb: string, other: string) {
    exists k :: TellsFirst(log, k, verb, other)
  }

  lemma OneMoreTells(log: seq<Statement>, verb: string, other: string)
    requires |log| > 0
    ensures var n := |log| - 1;
            var tells := log[n].verb == verb && log[n].IsMoveOn()
                         && Replay(log[..n]).initialized && !Replay(log[..n]).terminated;
            && (IsTold(log, verb) <==> tells || IsTold(log[..n], verb))
            && (IsToldFirst(log, verb, other) <==>
                  IsToldFirst(log[..n], verb, other) || (tells && !IsTold(log[..n], other)))
  {
    var n := |log| - 1;
    BeginningAndEnd(log[..n]);
    BegunBefore(log, n, n);
    TellsBefore(log, n, verb, other);
    TellsBefore(log, n, other, verb);
    if k :| TellsFirst(log[..n], k, verb, other) {
      assert TellsFirst(log, k, verb, other);
    }
    if k :| TellsFirst(log, k, verb, other) {
      assert k == n || TellsFirst(log[..n], k, verb, other);
      assert k == n ==> forall j :: !Tells(log[..n], j, other);
    }
    if k :| Tells(log[..n], k, verb) {
      assert Tells(log, k, verb);
    }
    if Tells(log, n, verb) && !IsTold(log[..n], other) {
      assert TellsFirst(log, n, verb, other);
    }
  }

  /** If either outcome was told, one of them was told first. */
  lemma {:induction false} OneIsToldFirst(log: seq<Statement>, verb: string, other: string)
    ensures IsTold(log, verb) || IsTold(log, other) ==> IsToldFirst(log, verb, other) || IsToldFirst(log, other, verb)
  {
    if |log| > 0 {
      OneIsToldFirst(log[..|log| - 1], verb, other);
      OneMoreTells(log, verb, other);
      OneMoreTells(log, other, verb);
    }
  }

  ghost predicate OutcomesAreTold(s: SessionState, log: seq<Statement>) {
    && (s.completed <==> IsTold(log, COMPLETED))
    && (s.passed <==> IsToldFirst(log, PASSED, FAILED))
    && (s.failed <==> IsToldFirst(log, FAILED, PASSED))
  }

  /** The outcomes one statement more leaves. */
  ghost predicate Grows(s: SessionState, stmt: Statement, t: SessionState) {
    var moves := s.initialized && !s.terminated && stmt.IsMoveOn();
    && (t.completed <==> s.completed || (moves && stmt.verb == COMPLETED))
    && (t.passed <==> s.passed || (moves && stmt.verb == PASSED && !s.failed))
    && (t.failed <==> s.failed || (moves && stmt.verb == FAILED && !s.passed))
  }

  lemma FlagsOneMore(s: SessionState, stmt: Statement)
    ensures Grows(s, stmt, Advance(s, stmt).after)
  {
  }

  lemma OutcomesOneMore(log: seq<Statement>, s: SessionState, t: SessionState)
    requires |log| > 0 && OutcomesAreTold(s, log[..|log| - 1])
    requires s == Replay(log[..|log| - 1]) && Grows(s, log[|log| - 1], t)
    ensures OutcomesAreTold(t, log)
  {
    OneMoreTells(log, COMPLETED, COMPLETED);
    FirstOneMore(log, PASSED, FAILED, s.passed, s.failed);
    FirstOneMore(log, FAILED, PASSED, s.failed, s.passed);
  }

  /** The outcome is told first, of one statement more, if it was already or is told now
      and the other was not first. */
  lemma FirstOneMore(log: seq<Statement>, verb: string, other: string, mine: bool, its: bool)
    requires |log| > 0
    requires mine <==> IsToldFirst(log[..|log| - 1], verb, other)
    requires its <==> IsToldFirst(log[..|log| - 1], other, verb)
    ensures var s, stmt := Replay(log[..|log| - 1]), log[|log| - 1];
            IsToldFirst(log, verb, other) <==>
              mine || (s.initialized && !s.terminated && stmt.IsMoveOn() && stmt.verb == verb && !its)
  {
    var p := log[..|log| - 1];
    OneMoreTells(log, verb, other);
    OneIsToldFirst(p, verb, other);
    ToldFirstIsTold(p, other, verb);
  }

  lemma ToldFirstIsTold(log: seq<Statement>, verb: string, other: string)
    ensures IsToldFirst(log, verb, other) ==> IsTold(log, verb)
  {
  }

  /** The outcomes, of any log at all: what the machine holds is told by the moveOn
      statements that came while the session was open, and of `passed` and `failed` only
      the one that came first. */
  lemma {:induction false} OutcomesAreTheLog(log: seq<Statement>)
    ensures Replay(log).completed <==> exists k :: Tells(log, k, COMPLETED)
    ensures Replay(log).passed <==> exists k :: TellsFirst(log, k, PASSED, FAILED)
    ensures Replay(log).failed <==> exists k :: TellsFirst(log, k, FAILED, PASSED)
    ensures OutcomesAreTold(Replay(log), log)
  {
    if |log| > 0 {
      var p := log[..|log| - 1];
      OutcomesAreTheLog(p);
      FlagsOneMore(Replay(p), log[|p|]);
      OutcomesOneMore(log, Replay(p), Replay(log));
    }
  }

  /** What is refused after a log, and why: anything once the session has ended, a second
      `initialized`, an outcome or an end before the first, and a moveOn outcome against
      the one that stands. */
  lemma SequenceRefusals(log: seq<Statement>, stmt: Statement)
    ensures var v := Advance(Replay(log), stmt).violation;
            var begun, ended := HasBegun(log, |log|), HasEnded(log, |log|);
            && (v == Some(AfterTerminated) <==> ended)
            && (v == Some(AlreadyInitialized) <==> !ended && begun && stmt.verb == INITIALIZED)
            && (v == Some(NotInitialized) <==> !begun && IsAuVerb(stmt.verb) && stmt.verb != INITIALIZED)
            && (v == Some(BothPassedAndFailed) <==>
                  && !ended && begun && MOVEON_CATEGORY in stmt.categories
                  && (|| (stmt.verb == PASSED && exists k :: TellsFirst(log, k, FAILED, PASSED))
                      || (stmt.verb == FAILED && exists k :: TellsFirst(log, k, PASSED, FAILED))))
            && (forall verb :: v == Some(UnknownVerb(verb)) <==> !ended && !IsAuVerb(stmt.verb) && verb == stmt.verb)
            && (v.None? <==> v != Some(AfterTerminated) && v != Some(AlreadyInitialized) && v != Some(NotInitialized)
                             && v != Some(BothPassedAndFailed) && v != Some(UnknownVerb(stmt.verb)))
  {
    BeginningAndEnd(log);
    OutcomesAreTheLog(log);
    ReachableStates(log, |log|, Passed);
    RefusedByFlags(Replay(log), stmt);
  }

  lemma RefusedByFlags(s: SessionState, stmt: Statement)
    requires s.terminated ==> s.initialized
    ensures var v := Advance(s, stmt).violation;
            && (v == Some(AfterTerminated) <==> s.terminated)
            && (v == Some(AlreadyInitialized) <==> !s.terminated && s.initialized && stmt.verb == INITIALIZED)
            && (v == Some(NotInitialized) <==> !s.initialized && IsAuVerb(stmt.verb) && stmt.verb != INITIALIZED)
            && (v == Some(BothPassedAndFailed) <==>
                  && !s.terminated && s.initialized && MOVEON_CATEGORY in stmt.categories
                  && ((stmt.verb == PASSED && s.failed) || (stmt.verb == FAILED && s.passed)))
            && (forall verb :: v == Some(UnknownVerb(verb)) <==>
                  !s.terminated && !IsAuVerb(stmt.verb) && verb == stmt.verb)
            && (v.None? <==> v != Some(AfterTerminated) && v != Some(AlreadyInitialized) && v != Some(NotInitialized)
                             && v != Some(BothPassedAndFailed) && v != Some(UnknownVerb(stmt.verb)))
  {
  }
}
