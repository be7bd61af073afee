/** The policy sweep: command timeouts, idle timeouts and maximum lifetimes, decided by one clock reading
    against the stored times. */
module Policy {
  import opened Common
  import opened Lifecycle
  import opened Authority
  import opened Runs
  import opened Interference
  import opened ExecutionService
  import opened Commands
  import opened Closing

  /** The sweep's clock reading and the stored times and limits it is compared with. */
  datatype Clock = Clock(
    now: int,
    expiresAt: SessionId -> int,
    changedAt: SessionId -> int,
    idleTimeout: SessionId -> int,
    commandChangedAt: CommandId -> int,
    timeout: CommandId -> int)

  predicate LifetimeOver(clock: Clock, x: SessionId) {
    clock.expiresAt(x) <= clock.now
  }

  predicate Overdue(clock: Clock, c: CommandId) {
    clock.commandChangedAt(c) + clock.timeout(c) <= clock.now
  }

  /** Nothing of the session has changed for its idle timeout. */
  ghost predicate IdleOver(w: World, clock: Clock, x: SessionId) {
    && clock.changedAt(x) + clock.idleTimeout(x) <= clock.now
    && forall c | Owns(w, x, c) :: clock.commandChangedAt(c) + clock.idleTimeout(x) <= clock.now
  }

  ghost predicate HasOverdue(w: World, clock: Clock, x: SessionId) {
    exists c :: Owns(w, x, c) && w.commands[c].state.Running? && Overdue(clock, c)
  }

  datatype Choice = Lifetime | TimeOut | Idle | Leave

  /** What the policies ask for, of a session listed as `row` whose commands are now those of w. */
  ghost function Choose(w: World, clock: Clock, x: SessionId, row: SessionRow): Choice {
    if LifetimeOver(clock, x) && (row.state.Ready? || row.state.Busy?) then Lifetime
    else if row.state.Busy? then if HasOverdue(w, clock, x) then TimeOut else Leave
    else if row.state.Ready? && NothingLeft(w, x) && IdleOver(w, clock, x) then Idle
    else Leave
  }

  datatype Verdict =
    | SessionExpired
    | CommandTimedOut(command: CommandId)
    | SessionLost
    | BothLost(command: CommandId)
    | Nothing

  datatype Report = Report(
    idleExpired: nat, commandsTimedOut: nat, lifetimeExpired: nat, sessionsLost: nat, commandsLost: nat)

  /** A verdict is a durable outcome: an expired session is proved gone and released, a timed-out
      command has its slot back, a lost session or command is recorded as lost. */
  predicate Durable(w: World, x: SessionId, verdict: Verdict) {
    match verdict
    case SessionExpired => InState(w, x, SessionState.Expired) && Gone(w, x) && w.sessions[x].reservation.Released?
    case CommandTimedOut(c) => InCommandState(w, c, CommandState.TimedOut) && w.commands[c].slot == Some(Released)
    case SessionLost => InState(w, x, SessionState.Lost)
    case BothLost(c) => InState(w, x, SessionState.Lost) && InCommandState(w, c, CommandState.Lost)
    case Nothing => true
  }

  predicate InCommandState(w: World, c: CommandId, state: CommandState) {
    c in w.commands && w.commands[c].state == state
  }

  lemma DurableLater(u: World, v: World, t: Tokens, x: SessionId, verdict: Verdict)
    requires Reachable(u) && Rely(u, v, t) && Durable(u, x, verdict)
    ensures Durable(v, x, verdict)
  {
    if x in u.sessions {
      RelyKeepsSession(u, v, t, x);
    }
    if (verdict.CommandTimedOut? || verdict.BothLost?) && verdict.command in u.commands {
      RelyKeepsCommand(u, v, t, verdict.command);
    }
  }

  /** timeoutCommand. */
  method TimeoutCommand(s: Service, x: SessionId, c: CommandId) returns (verdict: Verdict)
    requires s.Valid() && c in s.w.commands && s.w.commands[c].session == x
    modifies s`w, s`faults
    ensures s.Valid() && Rely(old(s.w), s.w, s.tokens) && s.w.epoch == old(s.w).epoch
    ensures Durable(s.w, x, verdict)
    ensures verdict == Nothing || verdict == CommandTimedOut(c) || verdict == BothLost(c)
    ensures s.faults >= old(s.faults) && (verdict.Nothing? ==> s.faults > old(s.faults))
  {
    var o, _ := s.OnCommandRow(c, Move(Cancelling));
    if !o.Done? {
      return Nothing;
    }
    ghost var w1 := s.w;
    var confirmed := CancelAtRuntime(s, c);
    RelyTransitive(old(s.w), w1, s.w, s.tokens);
    ghost var w2 := s.w;
    var done := s.Complete(c, if confirmed then CommandState.TimedOut else CommandState.Lost,
                           if confirmed then Ready else SessionState.Lost, confirmed);
    RelyTransitive(old(s.w), w2, s.w, s.tokens);
    verdict := if !done.Done? then Nothing else if confirmed then CommandTimedOut(c) else BothLost(c);
  }

  /** expireSession without an active command. */
  method ExpireIdle(s: Service, x: SessionId) returns (verdict: Verdict)
    requires s.Valid() && x in s.w.sessions && !CreationInFlight(s.w, x)
    modifies s`w, s`faults
    ensures s.Valid() && Rely(old(s.w), s.w, s.tokens) && s.w.epoch == old(s.w).epoch
    ensures Durable(s.w, x, verdict) && (verdict.Nothing? || verdict.SessionLost? || verdict.SessionExpired?)
    ensures s.faults >= old(s.faults) && (verdict.Nothing? ==> s.faults > old(s.faults))
  {
    var confirmed := s.StopRuntime(x);
    ghost var w1 := s.w;
    var o, _ := s.OnRow(x, Transition(if confirmed then SessionState.Expired else SessionState.Lost));
    RelyTransitive(old(s.w), w1, s.w, s.tokens);
    if !o.Done? {
      return Nothing;
    }
    if !confirmed {
      return SessionLost;
    }
    ghost var w2 := s.w;
    var released, _ := s.OnRow(x, ConfirmCleanup);
    RelyTransitive(old(s.w), w2, s.w, s.tokens);
    verdict := if released.Done? then SessionExpired else Nothing;
  }

  /** expireSession with an active command c: the command stops first, then the session. */
  method ExpireActive(s: Service, x: SessionId, c: CommandId, running: bool) returns (verdict: Verdict)
    requires s.Valid() && x in s.w.sessions && !CreationInFlight(s.w, x)
    requires c in s.w.commands && s.w.commands[c].session == x
    modifies s`w, s`faults
    ensures s.Valid() && Rely(old(s.w), s.w, s.tokens) && s.w.epoch == old(s.w).epoch
    ensures Durable(s.w, x, verdict)
    ensures verdict == Nothing || verdict == SessionExpired || verdict == SessionLost || verdict == BothLost(c)
    ensures s.faults >= old(s.faults) && (verdict.Nothing? ==> s.faults > old(s.faults))
  {
    RelyRefl(s.w, s.tokens);
    if running {
      var o, _ := s.OnCommandRow(c, Move(Cancelling));
      if !o.Done? {
        return Nothing;
      }
    }
    ghost var w1 := s.w;
    var confirmed := CancelAtRuntime(s, c);
    RelyTransitive(old(s.w), w1, s.w, s.tokens);
    ghost var w2 := s.w;
    if !confirmed {
      var o := s.Complete(c, CommandState.Lost, SessionState.Lost, false);
      RelyTransitive(old(s.w), w2, s.w, s.tokens);
      SeenLater(old(s.w), s.w, s.tokens, c, old(s.w).commands[c]) by { SeenNow(old(s.w), c); }
      return if o.Done? then BothLost(c) else Nothing;
    }
    SettledLater(old(s.w), s.w, s.tokens, x);
    verdict := ExpireStopped(s, x, c);
    RelyTransitive(old(s.w), w2, s.w, s.tokens);
  }

  /** expireSession once the active command's stop is confirmed. */
  method ExpireStopped(s: Service, x: SessionId, c: CommandId) returns (verdict: Verdict)
    requires s.Valid() && x in s.w.sessions && !CreationInFlight(s.w, x)
    requires Ended(s.w, c) && s.w.commands[c].session == x
    modifies s`w, s`faults
    ensures s.Valid() && Rely(old(s.w), s.w, s.tokens) && s.w.epoch == old(s.w).epoch
    ensures Durable(s.w, x, verdict)
    ensures verdict == Nothing || verdict == SessionExpired || verdict == SessionLost
    ensures s.faults >= old(s.faults) && (verdict.Nothing? ==> s.faults > old(s.faults))
  {
    var stopped := s.StopRuntime(x);
    EndedLater(old(s.w), s.w, s.tokens, c);
    SeenNow(old(s.w), c);
    SeenLater(old(s.w), s.w, s.tokens, c, old(s.w).commands[c]);
    ghost var w1 := s.w;
    var o := s.Complete(c, CommandState.TimedOut, if stopped then SessionState.Expired else SessionState.Lost, true);
    RelyTransitive(old(s.w), w1, s.w, s.tokens);
    if !o.Done? {
      return Nothing;
    }
    if !stopped {
      return SessionLost;
    }
    RelyKeepsSession(w1, s.w, s.tokens, x);
    ghost var w2 := s.w;
    var released, _ := s.OnRow(x, ConfirmCleanup);
    RelyTransitive(old(s.w), w2, s.w, s.tokens);
    verdict := if released.Done? then SessionExpired else Nothing;
  }

  /** The queued commands of the snapshot are cancelled before the runtime is asked to stop. */
  method CancelQueued(s: Service, ids: seq<CommandId>, rows: map<CommandId, CommandRow>) returns (ok: bool)
    requires s.Valid() && AllSeen(s.w, ids, rows)
    modifies s`w, s`faults
    ensures s.Valid() && Rely(old(s.w), s.w, s.tokens) && s.w.epoch == old(s.w).epoch
    ensures AllSeen(s.w, ids, rows)
    ensures ok ==> forall i | 0 <= i < |ids| && rows[ids[i]].state.Queued? :: Finished(s.w, ids[i])
    ensures s.faults >= old(s.faults) && (!ok ==> s.faults > old(s.faults))
  {
    RelyRefl(s.w, s.tokens);
    var i := 0;
    while i < |ids|
      invariant 0 <= i <= |ids|
      invariant s.Valid() && Rely(old(s.w), s.w, s.tokens) && s.w.epoch == old(s.w).epoch
      invariant AllSeen(s.w, ids, rows) && s.faults >= old(s.faults)
      invariant forall k | 0 <= k < i && rows[ids[k]].state.Queued? :: Finished(s.w, ids[k])
    {
      if rows[ids[i]].state.Queued? {
        ghost var before := s.w;
        var o, _ := s.OnCommandRow(ids[i], Move(Cancelled));
        RelyTransitive(old(s.w), before, s.w, s.tokens);
        AllSeenLater(before, s.w, s.tokens, ids, rows);
        FinishedLater(before, s.w, s.tokens);
        if !o.Done? {
          return false;
        }
      }
      i := i + 1;
    }
    ok := true;
  }

  lemma AllSeenLater(u: World, v: World, t: Tokens, ids: seq<CommandId>, rows: map<CommandId, CommandRow>)
    requires Reachable(u) && Rely(u, v, t) && AllSeen(u, ids, rows)
    ensures AllSeen(v, ids, rows)
  {
    forall i | 0 <= i < |ids| ensures Seen(v, ids[i], rows[ids[i]]) {
      SeenLater(u, v, t, ids[i], rows[ids[i]]);
    }
  }

  lemma FinishedLater(u: World, v: World, t: Tokens)
    requires Reachable(u) && Rely(u, v, t)
    ensures forall c | Finished(u, c) :: Finished(v, c)
  {
    RelyKeeps(u, v, t);
  }

  /** The first running or cancelling command of the snapshot. */
  method FirstActive(ids: seq<CommandId>, rows: map<CommandId, CommandRow>) returns (k: nat)
    requires forall i | 0 <= i < |ids| :: ids[i] in rows
    ensures k <= |ids| && (k < |ids| ==> CommandActive(rows[ids[k]].state))
    ensures forall i | 0 <= i < k :: !CommandActive(rows[ids[i]].state)
  {
    k := 0;
    while k < |ids| && !CommandActive(rows[ids[k]].state)
      invariant k <= |ids| && forall i | 0 <= i < k :: !CommandActive(rows[ids[i]].state)
    {
      k := k + 1;
    }
  }

  /** expireSession. */
  method ExpireSession(s: Service, x: SessionId, ids: seq<CommandId>, rows: map<CommandId, CommandRow>)
    returns (verdict: Verdict)
    requires s.Valid() && x in s.w.sessions && !CreationInFlight(s.w, x)
    requires AllSeen(s.w, ids, rows) && forall i | 0 <= i < |ids| :: rows[ids[i]].session == x
    modifies s`w, s`faults
    ensures s.Valid() && Rely(old(s.w), s.w, s.tokens) && s.w.epoch == old(s.w).epoch
    ensures Durable(s.w, x, verdict) && !verdict.CommandTimedOut?
    ensures verdict.BothLost? ==> Owns(s.w, x, verdict.command)
    ensures s.faults >= old(s.faults) && (verdict.Nothing? ==> s.faults > old(s.faults))
  {
    var k := FirstActive(ids, rows);
    var ok := CancelQueued(s, ids, rows);
    if !ok {
      return Nothing;
    }
    SettledLater(old(s.w), s.w, s.tokens, x);
    ghost var w1 := s.w;
    if k == |ids| {
      verdict := ExpireIdle(s, x);
    } else {
      assert Seen(s.w, ids[k], rows[ids[k]]);
      verdict := ExpireActive(s, x, ids[k], rows[ids[k]].state.Running?);
      RelyKeepsCommand(w1, s.w, s.tokens, ids[k]);
    }
    RelyTransitive(old(s.w), w1, s.w, s.tokens);
  }

  predicate Owns(w: World, x: SessionId, c: CommandId) {
    c in w.commands && w.commands[c].session == x
  }

  /** One session of the sweep's snapshot: what came of it, and whether a store step of its turn failed. */
  datatype Entry = Entry(session: SessionId, verdict: Verdict, lifetime: bool, faulted: bool)

  function Count(r: Report, e: Entry): Report {
    match e.verdict
    case SessionExpired =>
      if e.lifetime then r.(lifetimeExpired := r.lifetimeExpired + 1) else r.(idleExpired := r.idleExpired + 1)
    case CommandTimedOut(_) => r.(commandsTimedOut := r.commandsTimedOut + 1)
    case SessionLost => r.(sessionsLost := r.sessionsLost + 1)
    case BothLost(_) => r.(sessionsLost := r.sessionsLost + 1, commandsLost := r.commandsLost + 1)
    case Nothing => r
  }

  function Tally(log: seq<Entry>): Report
    decreases |log|
  {
    if log == [] then Report(0, 0, 0, 0, 0) else Count(Tally(log[..|log| - 1]), log[|log| - 1])
  }

  predicate Recorded(w: World, log: seq<Entry>) {
    forall i | 0 <= i < |log| :: Durable(w, log[i].session, log[i].verdict)
  }

  lemma RecordedLater(u: World, v: World, t: Tokens, log: seq<Entry>)
    requires Reachable(u) && Rely(u, v, t) && Recorded(u, log)
    ensures Recorded(v, log)
  {
    forall i | 0 <= i < |log| ensures Durable(v, log[i].session, log[i].verdict) {
      DurableLater(u, v, t, log[i].session, log[i].verdict);
    }
  }

  /** noAuthoritativeWork. */
  method NoAuthoritativeWork(ids: seq<CommandId>, rows: map<CommandId, CommandRow>) returns (none: bool)
    requires forall i | 0 <= i < |ids| :: ids[i] in rows
    ensures none <==> forall i | 0 <= i < |ids| :: CommandTerminal(rows[ids[i]].state)
  {
    var i := 0;
    while i < |ids|
      invariant i <= |ids| && forall k | 0 <= k < i :: CommandTerminal(rows[ids[k]].state)
    {
      if rows[ids[i]].state.Queued? || CommandActive(rows[ids[i]].state) {
        return false;
      }
      i := i + 1;
    }
    none := true;
  }

  /** The latest change of the session or of one of its commands. */
  method IdleSince(clock: Clock, x: SessionId, ids: seq<CommandId>) returns (since: int)
    ensures clock.changedAt(x) <= since && forall i | 0 <= i < |ids| :: clock.commandChangedAt(ids[i]) <= since
    ensures since == clock.changedAt(x) || exists i :: 0 <= i < |ids| && since == clock.commandChangedAt(ids[i])
  {
    since := clock.changedAt(x);
    var i := 0;
    while i < |ids|
      invariant i <= |ids| && clock.changedAt(x) <= since
      invariant forall k | 0 <= k < i :: clock.commandChangedAt(ids[k]) <= since
      invariant since == clock.changedAt(x) || exists k :: 0 <= k < i && since == clock.commandChangedAt(ids[k])
    {
      if clock.commandChangedAt(ids[i]) > since {
        since := clock.commandChangedAt(ids[i]);
      }
      i := i + 1;
    }
  }

  /** The first running command of the snapshot that is over its time. */
  method FirstOverdue(ids: seq<CommandId>, rows: map<CommandId, CommandRow>, clock: Clock) returns (k: nat)
    requires forall i | 0 <= i < |ids| :: ids[i] in rows
    ensures k <= |ids| && (k < |ids| ==> rows[ids[k]].state.Running? && Overdue(clock, ids[k]))
    ensures forall i | 0 <= i < k :: !(rows[ids[i]].state.Running? && Overdue(clock, ids[i]))
  {
    k := 0;
    while k < |ids| && !(rows[ids[k]].state.Running? && Overdue(clock, ids[k]))
      invariant k <= |ids| && forall i | 0 <= i < k :: !(rows[ids[i]].state.Running? && Overdue(clock, ids[i]))
    {
      k := k + 1;
    }
  }

  /** A complete listing of the session's commands. */
  ghost predicate Lists(w: World, x: SessionId, ids: seq<CommandId>) {
    forall c :: c in ids <==> Owns(w, x, c)
  }

  lemma ListedAreOwned(w: World, x: SessionId, ids: seq<CommandId>)
    requires Lists(w, x, ids)
    ensures forall i | 0 <= i < |ids| :: Owns(w, x, ids[i])
    ensures NothingLeft(w, x) <==>
              forall i | 0 <= i < |ids| :: ids[i] in w.commands && CommandTerminal(w.commands[ids[i]].state)
  {
    forall i | 0 <= i < |ids| ensures Owns(w, x, ids[i]) {
      assert ids[i] in ids;
    }
    if forall i | 0 <= i < |ids| :: ids[i] in w.commands && CommandTerminal(w.commands[ids[i]].state) {
      forall c | c in w.commands && w.commands[c].session == x ensures Finished(w, c) {
        assert Owns(w, x, c);
      }
    }
  }

  /** Idleness as the source computes it, from the latest change. */
  method IsIdle(w: World, clock: Clock, x: SessionId, ids: seq<CommandId>) returns (idle: bool)
    requires Lists(w, x, ids)
    ensures idle <==> NothingLeft(w, x) && IdleOver(w, clock, x)
  {
    ListedAreOwned(w, x, ids);
    var none := NoAuthoritativeWork(ids, w.commands);
    var since := IdleSince(clock, x, ids);
    idle := none && clock.now >= since + clock.idleTimeout(x);
  }

  /** The command to time out, if one is overdue. */
  method FindOverdue(w: World, clock: Clock, x: SessionId, ids: seq<CommandId>) returns (c: Option<CommandId>)
    requires Lists(w, x, ids)
    ensures c.Some? <==> HasOverdue(w, clock, x)
    ensures c.Some? ==> Owns(w, x, c.value) && w.commands[c.value].state.Running? && Overdue(clock, c.value)
  {
    ListedAreOwned(w, x, ids);
    var k := FirstOverdue(ids, w.commands, clock);
    c := if k < |ids| then Some(ids[k]) else None;
  }

  /** The sweep's decision for one session of its snapshot, and its execution: what the policies ask for is
      done durably unless a store step fails, and nothing else is touched. */
  method SweepSession(s: Service, x: SessionId, row: SessionRow, clock: Clock) returns (verdict: Verdict, asked: bool)
    requires s.Valid() && x in s.w.sessions && !CreationInFlight(s.w, x)
    modifies s`w, s`faults
    ensures s.Valid() && Rely(old(s.w), s.w, s.tokens) && s.w.epoch == old(s.w).epoch
    ensures Durable(s.w, x, verdict) && s.faults >= old(s.faults)
    ensures asked <==> !Choose(old(s.w), clock, x, row).Leave?
    ensures !asked ==> verdict.Nothing? && s.w == old(s.w) && s.faults == old(s.faults)
    ensures asked && verdict.Nothing? ==> s.faults > old(s.faults)
    ensures verdict.SessionExpired? || verdict.SessionLost? ==>
              Choose(old(s.w), clock, x, row).Lifetime? || Choose(old(s.w), clock, x, row).Idle?
    ensures verdict.CommandTimedOut? ==> Choose(old(s.w), clock, x, row).TimeOut? && Overdue(clock, verdict.command)
  {
    RelyRefl(s.w, s.tokens);
    verdict, asked := Nothing, false;
    var ids, rows := ListCommands(s, x);
    assert Lists(s.w, x, ids);
    forall i | 0 <= i < |ids| ensures rows[ids[i]].session == x {
      assert ids[i] in ids;
    }
    if LifetimeOver(clock, x) && (row.state.Ready? || row.state.Busy?) {
      asked := true;
      verdict := ExpireSession(s, x, ids, rows);
    } else if row.state.Busy? {
      var c := FindOverdue(s.w, clock, x, ids);
      asked := c.Some?;
      if asked {
        verdict := TimeoutCommand(s, x, c.value);
      }
    } else if row.state.Ready? {
      asked := IsIdle(s.w, clock, x, ids);
      if asked {
        verdict := ExpireSession(s, x, ids, rows);
      }
    }
  }

  /** What the log says of one session of the snapshot: one past its lifetime was swept or met a store
      failure, and a settled or creating one was left alone. */
  predicate EntryOk(rows: map<SessionId, SessionRow>, clock: Clock, e: Entry) {
    && e.session in rows && e.lifetime == LifetimeOver(clock, e.session)
    && (e.lifetime && (rows[e.session].state.Ready? || rows[e.session].state.Busy?) ==>
          !e.verdict.Nothing? || e.faulted)
    && (!rows[e.session].state.Ready? && !rows[e.session].state.Busy? ==> e.verdict.Nothing?)
    && (e.verdict.SessionExpired? && !e.lifetime ==> rows[e.session].state.Ready?)
    && (e.verdict.CommandTimedOut? ==> rows[e.session].state.Busy? && Overdue(clock, e.verdict.command))
  }

  function FaultCount(log: seq<Entry>): nat
    decreases |log|
  {
    if log == [] then 0 else FaultCount(log[..|log| - 1]) + (if log[|log| - 1].faulted then 1 else 0)
  }

  predicate LogOk(rows: map<SessionId, SessionRow>, clock: Clock, log: seq<Entry>) {
    forall i | 0 <= i < |log| :: EntryOk(rows, clock, log[i])
  }

  /** The log covers these sessions, in this order. */
  predicate Logs(log: seq<Entry>, ids: seq<SessionId>) {
    |log| <= |ids| && forall i | 0 <= i < |log| :: log[i].session == ids[i]
  }

  /** The sweep so far. */
  predicate Swept(w: World, rows: map<SessionId, SessionRow>, clock: Clock, ids: seq<SessionId>, log: seq<Entry>,
                  report: Report) {
    Logs(log, ids) && LogOk(rows, clock, log) && Recorded(w, log) && report == Tally(log)
  }

  lemma SweptNext(w: World, rows: map<SessionId, SessionRow>, clock: Clock, ids: seq<SessionId>, log: seq<Entry>,
                  report: Report, e: Entry)
    requires Swept(w, rows, clock, ids, log, report) && |log| < |ids| && e.session == ids[|log|]
    requires EntryOk(rows, clock, e) && Durable(w, e.session, e.verdict)
    ensures Swept(w, rows, clock, ids, log + [e], Count(report, e))
    ensures FaultCount(log + [e]) == FaultCount(log) + (if e.faulted then 1 else 0)
  {
    assert (log + [e])[..|log|] == log;
  }

  lemma SweptAll(w: World, rows: map<SessionId, SessionRow>, clock: Clock, ids: seq<SessionId>, log: seq<Entry>,
                 report: Report)
    requires Swept(w, rows, clock, ids, log, report) && |log| == |ids| && forall x :: x in ids <==> x in rows
    requires forall i, j | 0 <= i < j < |ids| :: ids[i] != ids[j]
    ensures forall i, j | 0 <= i < j < |log| :: log[i].session != log[j].session
    ensures forall x :: x in rows <==> exists i :: 0 <= i < |log| && log[i].session == x
  {
    forall x | x in rows ensures exists i :: 0 <= i < |log| && log[i].session == x {
      var i :| 0 <= i < |ids| && ids[i] == x;
      assert log[i].session == x;
    }
    forall i | 0 <= i < |log| ensures log[i].session in rows {
      assert ids[i] in ids;
    }
  }

  /** One turn of the sweep. */
  method SweepTurn(s: Service, x: SessionId, row: SessionRow, clock: Clock) returns (e: Entry)
    requires s.Valid() && x in s.w.sessions && (!row.state.Creating? ==> !CreationInFlight(s.w, x))
    modifies s`w, s`faults
    ensures s.Valid() && Rely(old(s.w), s.w, s.tokens)
    ensures e.session == x && EntryOk(map[x := row], clock, e) && Durable(s.w, x, e.verdict)
    ensures s.faults >= old(s.faults) + (if e.faulted then 1 else 0)
  {
    RelyRefl(s.w, s.tokens);
    var lifetime := LifetimeOver(clock, x);
    e := Entry(x, Nothing, lifetime, false);
    if SessionTerminal(row.state) || row.state.Creating? {
      return;
    }
    var unread: bool := *;
    if unread {
      s.faults := s.faults + 1;
      return e.(faulted := true);
    }
    var verdict, asked := SweepSession(s, x, row, clock);
    e := Entry(x, verdict, lifetime, asked && verdict.Nothing?);
  }

  /** EnforcePolicies.  Every session of the snapshot has its turn; one that was past its lifetime ends
      durably expired or lost unless a store step of its turn failed; the report counts durable outcomes of
      distinct sessions. */
  method EnforcePolicies(s: Service, clock: Clock) returns (report: Report, log: seq<Entry>)
    requires s.Valid()
    modifies s`w, s`faults
    ensures s.Valid() && Rely(old(s.w), s.w, s.tokens)
    ensures report == Tally(log) && Recorded(s.w, log)
    ensures forall i, j | 0 <= i < j < |log| :: log[i].session != log[j].session
    ensures forall x :: x in old(s.w).sessions <==> exists i :: 0 <= i < |log| && log[i].session == x
    ensures LogOk(old(s.w).sessions, clock, log) && FaultCount(log) <= s.faults - old(s.faults)
  {
    var rows := s.w.sessions;
    var ids := Sequence(rows.Keys);
    report, log := Report(0, 0, 0, 0, 0), [];
    RelyRefl(s.w, s.tokens);
    while |log| < |ids|
      invariant s.Valid() && Rely(old(s.w), s.w, s.tokens)
      invariant Swept(s.w, rows, clock, ids, log, report) && FaultCount(log) <= s.faults - old(s.faults)
      decreases |ids| - |log|
    {
      var x := ids[|log|];
      assert x in ids;
      StillThere(old(s.w), s.w, s.tokens, x);
      ghost var before := s.w;
      var entry := SweepTurn(s, x, rows[x], clock);
      RelyTransitive(old(s.w), before, s.w, s.tokens);
      RecordedLater(before, s.w, s.tokens, log);
      SweptNext(s.w, rows, clock, ids, log, report, entry);
      report, log := Count(report, entry), log + [entry];
    }
    SweptAll(s.w, rows, clock, ids, log, report);
  }

  lemma StillThere(u: World, v: World, t: Tokens, x: SessionId)
    requires Reachable(u) && Rely(u, v, t) && x in u.sessions
    ensures x in v.sessions && (!u.sessions[x].state.Creating? ==> !CreationInFlight(v, x))
  {
    RelyKeepsSession(u, v, t, x);
  }
}
