// Task states and the transitions between them (crates/turul-a2a-types/src/state_machine.rs).
module Lifecycle {
  datatype TaskState =
    | Submitted | Working | Completed | Failed
    | Canceled | InputRequired | Rejected | AuthRequired

  datatype Verdict =
    | Allowed
    | InvalidTransition(current: TaskState, requested: TaskState)
    | FromTerminal(state: TaskState)

  predicate IsTerminal(s: TaskState) {
    s.Completed? || s.Failed? || s.Canceled? || s.Rejected?
  }

  predicate ExecutorHeld(s: TaskState) {
    s.Submitted? || s.Working?
  }

  predicate ClientHeld(s: TaskState) {
    s.InputRequired? || s.AuthRequired?
  }

  function ValidateTransition(from: TaskState, to: TaskState): Verdict {
    match from
    case Submitted =>
      if to.Working? || to.Rejected? || to.Failed? || to.Canceled? then Allowed
      else InvalidTransition(from, to)
    case Working =>
      if to.Completed? || to.Failed? || to.Canceled? || to.Rejected? || to.InputRequired? || to.AuthRequired? then Allowed
      else InvalidTransition(from, to)
    case InputRequired =>
      if to.Working? || to.Completed? || to.Failed? || to.Canceled? || to.Rejected? then Allowed
      else InvalidTransition(from, to)
    case AuthRequired =>
      if to.Working? || to.Failed? || to.Canceled? || to.Rejected? then Allowed
      else InvalidTransition(from, to)
    case Completed | Failed | Canceled | Rejected => FromTerminal(from)
  }

  /** Who holds the task, by where it can go: nobody once nothing is allowed any more; the client
      if WORKING leads there and a turn can start from there; and else the executor. */
  lemma StatesByTheirMoves(s: TaskState)
    ensures IsTerminal(s) <==> forall to :: !ValidateTransition(s, to).Allowed?
    ensures IsTerminal(s) <==> ValidateTransition(s, s).FromTerminal?
    ensures ClientHeld(s) <==> ValidateTransition(Working, s).Allowed? && ValidateTransition(s, Working).Allowed?
    ensures ExecutorHeld(s) <==> !IsTerminal(s) && !ClientHeld(s)
  {
    if !IsTerminal(s) {
      assert ValidateTransition(s, TaskState.Failed).Allowed?;
    }
  }

  /** A history of states: it opens in SUBMITTED and every later state is an allowed move. */
  ghost predicate Path(states: seq<TaskState>) {
    && (states != [] ==> states[0].Submitted?)
    && forall i :: 0 < i < |states| ==> ValidateTransition(states[i - 1], states[i]).Allowed?
  }
}
