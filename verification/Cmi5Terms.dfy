/** The cmi5 words both halves share: what moves a learner on, and how an AU opens. */
module Cmi5Terms {
  import opened Wrappers

  datatype MoveOn = Passed | Completed | CompletedAndPassed | CompletedOrPassed | NotApplicable

  function MoveOnText(m: MoveOn): string {
    match m
    case Passed => "Passed"
    case Completed => "Completed"
    case CompletedAndPassed => "CompletedAndPassed"
    case CompletedOrPassed => "CompletedOrPassed"
    case NotApplicable => "NotApplicable"
  }

  function ParseMoveOn(s: string): Option<MoveOn> {
    if s == "Passed" then Some(Passed)
    else if s == "Completed" then Some(Completed)
    else if s == "CompletedAndPassed" then Some(CompletedAndPassed)
    else if s == "CompletedOrPassed" then Some(CompletedOrPassed)
    else if s == "NotApplicable" then Some(NotApplicable)
    else None
  }

  datatype LaunchMethod = AnyWindow | OwnWindow

  function LaunchMethodText(m: LaunchMethod): string {
    match m
    case AnyWindow => "AnyWindow"
    case OwnWindow => "OwnWindow"
  }

  function ParseLaunchMethod(s: string): Option<LaunchMethod> {
    if s == "AnyWindow" then Some(AnyWindow)
    else if s == "OwnWindow" then Some(OwnWindow)
    else None
  }

  /** Each word reads back as itself, and nothing else reads as it. */
  lemma WordsRoundTrip(m: MoveOn, l: LaunchMethod, s: string)
    ensures ParseMoveOn(MoveOnText(m)) == Some(m) && ParseLaunchMethod(LaunchMethodText(l)) == Some(l)
    ensures ParseMoveOn(s) == Some(m) <==> s == MoveOnText(m)
    ensures ParseLaunchMethod(s) == Some(l) <==> s == LaunchMethodText(l)
  {
  }
}
