/** The command-event grammar: which logs the D-01 command machine can emit, and the inspector that
    recognises them. */
module EventLog {
  import opened Common
  import opened Lifecycle

  datatype EventKind = QueuedEvent | StartedEvent | OutputEvent | TruncatedEvent | TerminalEvent(state: CommandState)

  /** An event; its sequence number is its position in the log plus one. */
  datatype Event = Event(kind: EventKind, payload: nat)

  datatype Inspection = Invalid | Valid(started: bool, truncated: bool, terminal: Option<CommandState>)

  predicate RequiresStart(s: CommandState) {
    s.Succeeded? || s.Failed? || s.TimedOut? || s.Lost?
  }

  /** One more event after an inspected prefix. */
  function Extend(i: Inspection, e: Event, first: bool): Inspection {
    if i.Invalid? || i.terminal.Some? || (e.kind.QueuedEvent? != first) then Invalid
    else match e.kind
      case QueuedEvent => i
      case StartedEvent => if i.started then Invalid else i.(started := true)
      case OutputEvent => if !i.started then Invalid else i
      case TruncatedEvent => if !i.started || i.truncated then Invalid else i.(truncated := true)
      case TerminalEvent(state) =>
        if !CommandTerminal(state) || (state.Rejected? && i.started)
            || (RequiresStart(state) && !i.started) then Invalid
        else i.(terminal := Some(state))
  }

  function Inspect(log: seq<Event>): Inspection
    decreases |log|
  {
    if log == [] then Valid(false, false, None)
    else Extend(Inspect(log[..|log| - 1]), log[|log| - 1], |log| == 1)
  }

  /** InspectRemoteEventLifecycle: one pass over the log. */
  method InspectLifecycle(log: seq<Event>) returns (i: Inspection)
    ensures i == Inspect(log)
  {
    i := Valid(false, false, None);
    assert log[..0] == [];
    for n := 0 to |log|
      invariant i == Inspect(log[..n]) && i.Valid?
    {
      i := Extend(i, log[n], n == 0);
      assert log[..n + 1][..n] == log[..n];
      if i.Invalid? {
        InvalidStays(log, n + 1);
        return;
      }
    }
    assert log[..|log|] == log;
  }

  lemma {:induction false} InvalidStays(log: seq<Event>, n: nat)
    requires n <= |log| && Inspect(log[..n]).Invalid?
    ensures Inspect(log).Invalid?
    decreases |log|
  {
    if n == |log| {
      assert log[..n] == log;
    } else {
      var front := log[..|log| - 1];
      assert front[..n] == log[..n];
      InvalidStays(front, n);
    }
  }

  /** A prefix of a valid log is valid, and nothing follows a terminal event. */
  lemma PrefixIsValid(log: seq<Event>, n: nat)
    requires n <= |log| && Inspect(log).Valid?
    ensures Inspect(log[..n]).Valid?
    ensures Inspect(log[..n]).terminal.Some? ==> n == |log|
  {
    if Inspect(log[..n]).Invalid? {
      InvalidStays(log, n);
    } else if n < |log| && Inspect(log[..n]).terminal.Some? {
      assert log[..n + 1][..n] == log[..n];
      assert Inspect(log[..n + 1]).Invalid?;
      InvalidStays(log, n + 1);
    }
  }

  // ---- the machine that writes the log ----

  datatype Machine = Machine(state: CommandState, truncated: bool, log: seq<Event>)

  datatype Move =
    | Advance(to: CommandState)
    | Emit(payload: nat)
    | Truncate

  const START := Machine(Queued, false, [Event(QueuedEvent, 0)])

  /** A state change writes its event, if it has one; output appears only while the command is active. */
  function Step(m: Machine, a: Move): Option<Machine> {
    match a
    case Advance(to) =>
      if !CommandEdge(m.state, to) then None
      else if to.Running? then Some(Machine(to, m.truncated, m.log + [Event(StartedEvent, 0)]))
      else if CommandTerminal(to) then Some(Machine(to, m.truncated, m.log + [Event(TerminalEvent(to), 0)]))
      else Some(m.(state := to))
    case Emit(payload) =>
      if !CommandActive(m.state) then None else Some(m.(log := m.log + [Event(OutputEvent, payload)]))
    case Truncate =>
      if !CommandActive(m.state) || m.truncated then None
      else Some(Machine(m.state, true, m.log + [Event(TruncatedEvent, 0)]))
  }

  function RunMachine(moves: seq<Move>): Option<Machine>
    decreases |moves|
  {
    if moves == [] then Some(START) else
      var m := RunMachine(moves[..|moves| - 1]);
      if m.None? then None else Step(m.value, moves[|moves| - 1])
  }

  /** What the inspector knows of the machine's state. */
  predicate Agrees(m: Machine, i: Inspection) {
    && i.Valid? && m.log != [] && i.truncated == m.truncated
    && (m.state.Queued? ==> !i.started && i.terminal.None?)
    && (CommandActive(m.state) ==> i.started && i.terminal.None?)
    && (CommandTerminal(m.state) ==> i.terminal == Some(m.state) && (RequiresStart(m.state) ==> i.started))
  }

  lemma InspectSnoc(log: seq<Event>, e: Event)
    requires log != []
    ensures Inspect(log + [e]) == Extend(Inspect(log), e, false)
  {
    assert (log + [e])[..|log|] == log;
  }

  lemma StepAgrees(m: Machine, a: Move)
    requires Agrees(m, Inspect(m.log)) && Step(m, a).Some?
    ensures Agrees(Step(m, a).value, Inspect(Step(m, a).value.log))
  {
    match a
    case Advance(to) =>
      if to.Running? {
        InspectSnoc(m.log, Event(StartedEvent, 0));
      } else if CommandTerminal(to) {
        InspectSnoc(m.log, Event(TerminalEvent(to), 0));
      }
    case Emit(payload) => InspectSnoc(m.log, Event(OutputEvent, payload));
    case Truncate => InspectSnoc(m.log, Event(TruncatedEvent, 0));
  }

  /** Every log the machine can write passes the inspector, with the machine's own verdict. */
  lemma {:induction false} MachineLogsAreValid(moves: seq<Move>)
    requires RunMachine(moves).Some?
    ensures Agrees(RunMachine(moves).value, Inspect(RunMachine(moves).value.log))
    decreases |moves|
  {
    if moves == [] {
      assert START.log[..0] == [];
    } else {
      MachineLogsAreValid(moves[..|moves| - 1]);
      StepAgrees(RunMachine(moves[..|moves| - 1]).value, moves[|moves| - 1]);
    }
  }

  // ---- and every valid log is one the machine can write ----

  /** A log up to the payloads of its marker events, which carry no bytes. */
  predicate Plain(log: seq<Event>) {
    forall k | 0 <= k < |log| && !log[k].kind.OutputEvent? :: log[k].payload == 0
  }

  lemma RunSnoc(moves: seq<Move>, a: Move)
    ensures RunMachine(moves + [a]) == (var m := RunMachine(moves); if m.None? then None else Step(m.value, a))
  {
    assert (moves + [a])[..|moves|] == moves;
  }

  /** The machine, kept running for as long as the log allows. */
  lemma {:induction false} ValidLogsAreWritten(log: seq<Event>) returns (moves: seq<Move>)
    requires log != [] && Inspect(log).Valid? && Plain(log)
    ensures RunMachine(moves).Some? && RunMachine(moves).value.log == log
    ensures !RunMachine(moves).value.state.Cancelling?
    decreases |log|
  {
    var n := |log| - 1;
    assert log == log[..n] + [log[n]];
    if n == 0 {
      moves := [];
      assert log == START.log;
    } else {
      var before := ValidLogsAreWritten(log[..n]);
      MachineLogsAreValid(before);
      var m := RunMachine(before).value;
      moves := ExtendMoves(before, m, log[n]);
    }
  }

  lemma ExtendMoves(before: seq<Move>, m: Machine, e: Event) returns (moves: seq<Move>)
    requires RunMachine(before) == Some(m) && Agrees(m, Inspect(m.log)) && !m.state.Cancelling?
    requires Extend(Inspect(m.log), e, false).Valid? && (!e.kind.OutputEvent? ==> e.payload == 0)
    ensures RunMachine(moves).Some? && RunMachine(moves).value.log == m.log + [e]
    ensures !RunMachine(moves).value.state.Cancelling?
  {
    match e.kind
    case StartedEvent =>
      moves := before + [Advance(Running)];
      RunSnoc(before, Advance(Running));
    case OutputEvent =>
      moves := before + [Emit(e.payload)];
      RunSnoc(before, Emit(e.payload));
    case TruncatedEvent =>
      moves := before + [Truncate];
      RunSnoc(before, Truncate);
    case TerminalEvent(state) =>
      if state.Cancelled? && m.state.Running? {
        var middle := before + [Advance(Cancelling)];
        RunSnoc(before, Advance(Cancelling));
        moves := middle + [Advance(Cancelled)];
        RunSnoc(middle, Advance(Cancelled));
      } else {
        moves := before + [Advance(state)];
        RunSnoc(before, Advance(state));
      }
  }

  // ---- the shortest terminal logs ----

  function MinimumTerminalSequence(state: CommandState): nat {
    if state.Cancelled? || state.Rejected? then 2 else 3
  }

  lemma {:induction false} StartedLogIsLonger(log: seq<Event>)
    requires Inspect(log).Valid? && Inspect(log).started
    ensures |log| >= 2 && (Inspect(log).terminal.Some? ==> |log| >= 3)
    decreases |log|
  {
    var n := |log| - 1;
    if n > 0 && Inspect(log[..n]).started {
      StartedLogIsLonger(log[..n]);
    }
  }

  /** No log that ends in this state is shorter, and one is exactly this long. */
  lemma MinimumIsTight(state: CommandState) returns (moves: seq<Move>)
    requires CommandTerminal(state)
    ensures forall log | Inspect(log).Valid? && Inspect(log).terminal == Some(state) ::
              |log| >= MinimumTerminalSequence(state)
    ensures RunMachine(moves).Some? && RunMachine(moves).value.state == state
    ensures |RunMachine(moves).value.log| == MinimumTerminalSequence(state)
  {
    forall log | Inspect(log).Valid? && Inspect(log).terminal == Some(state)
      ensures |log| >= MinimumTerminalSequence(state) {
      TerminalLogLength(log, state);
    }
    assert RunMachine([]) == Some(START);
    if state.Cancelled? || state.Rejected? {
      moves := [] + [Advance(state)];
      RunSnoc([], Advance(state));
    } else {
      var started := [] + [Advance(Running)];
      RunSnoc([], Advance(Running));
      moves := started + [Advance(state)];
      RunSnoc(started, Advance(state));
    }
  }

  lemma TerminalLogLength(log: seq<Event>, state: CommandState)
    requires Inspect(log).Valid? && Inspect(log).terminal == Some(state)
    ensures |log| >= MinimumTerminalSequence(state)
  {
    var n := |log| - 1;
    if n >= 0 {
      if Inspect(log[..n]).started {
        StartedLogIsLonger(log);
      } else {
        assert n > 0;
      }
    }
  }
}
