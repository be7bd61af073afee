/** The D-01 session and command vocabularies and their transition tables. */
module Lifecycle {

  datatype SessionState =
    Requested | Creating | Ready | Busy | Closing | Closed | Expired | Failed | Lost

  datatype CommandState =
    Queued | Running | Cancelling | Succeeded | Failed | Cancelled | TimedOut | Rejected | Lost

  predicate SessionTerminal(s: SessionState) {
    s.Closed? || s.Expired? || s.Failed? || s.Lost?
  }

  predicate CommandTerminal(s: CommandState) {
    s.Succeeded? || s.Failed? || s.Cancelled? || s.TimedOut? || s.Rejected? || s.Lost?
  }

  /** A command that owns a slot and may own a script in the runtime. */
  predicate CommandActive(s: CommandState) {
    s.Running? || s.Cancelling?
  }

  predicate SessionEdge(current: SessionState, next: SessionState) {
    match current
    case Requested => next.Creating?
    case Creating => next.Ready? || next.Failed? || next.Lost? || next.Closing?
    case Ready => next.Busy? || next.Closing? || next.Expired? || next.Lost?
    case Busy => next.Ready? || next.Closing? || next.Expired? || next.Lost?
    case Closing => next.Closed? || next.Lost?
    case _ => false
  }

  predicate CommandEdge(current: CommandState, next: CommandState) {
    match current
    case Queued => next.Running? || next.Cancelled? || next.Rejected?
    case Running =>
      next.Succeeded? || next.Failed? || next.Cancelling? || next.TimedOut? || next.Lost?
    case Cancelling =>
      next.Cancelled? || next.TimedOut? || next.Succeeded? || next.Failed? || next.Lost?
    case _ => false
  }

  /** The terminal predicates are exactly "the edge table has no row for this state". */
  lemma TerminalMeansNoEdge(s: SessionState, c: CommandState)
    ensures SessionTerminal(s) <==> forall next :: !SessionEdge(s, next)
    ensures CommandTerminal(c) <==> forall next :: !CommandEdge(c, next)
  {
    assert SessionEdge(SessionState.Requested, SessionState.Creating);
    assert SessionEdge(SessionState.Creating, SessionState.Lost);
    assert SessionEdge(SessionState.Ready, SessionState.Lost);
    assert SessionEdge(SessionState.Busy, SessionState.Lost);
    assert SessionEdge(SessionState.Closing, SessionState.Lost);
    assert CommandEdge(CommandState.Queued, CommandState.Running);
    assert CommandEdge(CommandState.Running, CommandState.Lost);
    assert CommandEdge(CommandState.Cancelling, CommandState.Lost);
  }

  datatype JobPhase =
    CreatingSession | AcceptingCommand | AwaitingCommand | ClosingSession | Complete | Failed | Lost

  /** The order in which the one-off coordinator visits its checkpoints. */
  function PhaseRank(p: JobPhase): nat {
    match p
    case CreatingSession => 0
    case AcceptingCommand => 1
    case AwaitingCommand => 2
    case ClosingSession => 3
    case _ => 4
  }
}
