/**
 * The run state of the builder and the decisions taken on it: what
 * QtBuilder::process does with a start/stop request, and how
 * QtBuilder::processed and QtBuilder::message classify a finished run.
 *
 * The States enum and the predicates working(), failed() and cancelled()
 * are declared in qtbuilder.h, which is not part of this model. Here a
 * failure state carries the numeric value that processed() prints as the
 * error number; working() holds in Started only.
 */
module BuildStates {

  datatype Maybe<T> = None | Some(value: T)

  datatype BuildState = NotStarted | Started | Cancel | Success | Failure(code: int)

  /** working(): a build loop is running. */
  predicate Working(s: BuildState) {
    s.Started?
  }

  /** cancelled(): the run was stopped by the user. */
  predicate Cancelled(s: BuildState) {
    s.Cancel?
  }

  /** failed(): the run ended in an error state. */
  predicate Failed(s: BuildState) {
    s.Failure?
  }

  /** What a call of process() does besides changing the state. */
  datatype Reaction =
    | CancelRequested   // cancel() and disable(): the running loop is asked to stop
    | Ignored           // a stop request while nothing runs
    | SourceMissing     // warning "Qt sources path mismatch", start button reset
    | TargetMissing     // warning "Build target path mismatch", start button reset; the check is on
                        // m_libPath but the warning prints m_target (qtbuilder.cpp:204-206)
    | AxisEmpty         // some axis has no enabled option, start button reset
    | LoopLaunched      // the build loop is started in the background

  datatype Transition = Transition(state: BuildState, launch: bool, reaction: Reaction)

  /**
   * QtBuilder::process(start): the new state, whether a build loop is
   * launched, and the reaction, given the outcome of the two path checks
   * and of the check that every axis has an enabled option.
   */
  function ProcessStep(s: BuildState, start: bool, sourceFound: bool, targetFound: bool, axesEnabled: bool): (t: Transition)
    ensures Working(s) ==> t.state == Cancel && !t.launch && t.reaction == CancelRequested
    ensures t.launch <==> t.state == Started
    ensures t.state == Started <==> !Working(s) && start && sourceFound && targetFound && axesEnabled
    ensures !Working(s) && !start ==> t == Transition(s, false, Ignored)
    ensures !Working(s) && start && !sourceFound ==> t == Transition(s, false, SourceMissing)
    ensures !Working(s) && start && sourceFound && !targetFound ==> t == Transition(s, false, TargetMissing)
    ensures !Working(s) && start && sourceFound && targetFound && !axesEnabled ==> t == Transition(NotStarted, false, AxisEmpty)
    ensures t.launch ==> t.reaction == LoopLaunched
  {
    if Working(s) then Transition(Cancel, false, CancelRequested)
    else if !start then Transition(s, false, Ignored)
    else if !sourceFound then Transition(s, false, SourceMissing)
    else if !targetFound then Transition(s, false, TargetMissing)
    else if axesEnabled then Transition(Started, true, LoopLaunched)
    else Transition(NotStarted, false, AxisEmpty)
  }

  /** How the build transcript is finalised (endSuccess / endFailure). */
  datatype LogEnd = EndSuccess | EndFailure

  /** The severity of the summary entry in the application log. */
  datatype Severity = AppInfo | Warning | Elevated

  /** The headline of the completion message box. */
  datatype Headline = ForcefullyCancelled | EndedWithErrors | SuccessfullyCompleted

  /**
   * The completion message: its headline, always a link to the application
   * log, and a link to the last build log when buildLogLink holds.
   */
  datatype Message = Message(headline: Headline, buildLogLink: bool)

  /** QtBuilder::message: cancelled() is checked before failed(). */
  function MessageFor(s: BuildState): (m: Message)
    ensures m.headline == ForcefullyCancelled <==> Cancelled(s)
    ensures m.headline == EndedWithErrors <==> Failed(s)
    ensures m.headline == SuccessfullyCompleted <==> !Cancelled(s) && !Failed(s)
    ensures m.buildLogLink <==> Failed(s)
  {
    var headline :=
      if Cancelled(s) then ForcefullyCancelled
      else if Failed(s) then EndedWithErrors
      else SuccessfullyCompleted;
    Message(headline, Failed(s))
  }

  /** Everything QtBuilder::processed produces for a finished run. */
  datatype Completion = Completion(transcript: LogEnd, severity: Severity, errorNumber: Maybe<int>, message: Message)
}
